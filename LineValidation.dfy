/** Stage one of the pipeline: each input line is classified against the fixed
    tag table into an output entry "<-- level|tag|Y|argument" (Y valid, N not),
    and the entries marked Y are then read back from those strings into
    (level, tag, argument) triples. */
module LineValidation {

  import opened Common
  import opened Text

  /** The tag table: the level (as a string) at which each known tag is valid. */
  const ValidTags: map<string, string> := map[
    "INDI" := "0", "NAME" := "1", "SEX" := "1", "BIRT" := "1", "DEAT" := "1", "FAMC" := "1",
    "FAMS" := "1", "FAM" := "0", "MARR" := "1", "HUSB" := "1", "WIFE" := "1", "CHIL" := "1",
    "DIV" := "1", "DATE" := "2", "HEAD" := "0", "TRLR" := "0", "NOTE" := "0"]

  /** The lookup `tag in _valid_tags and level == _valid_tags[tag]`. */
  predicate TagAtLevel(tag: string, level: string)
  {
    tag in ValidTags && level == ValidTags[tag]
  }

  /** One output entry, before it is written out as a string. */
  datatype Entry = Entry(level: string, tag: string, valid: bool, arg: string)

  /** A kept entry of the validated list: [int(last char of level), tag, arg]. */
  datatype ValidEntry = ValidEntry(level: int, tag: string, arg: string)

  /** A line that takes the record-opener path: one of its tokens is INDI or FAM. */
  predicate IsOpenerLine(tokens: seq<string>)
  {
    "INDI" in tokens || "FAM" in tokens
  }

  predicate IsOpenerTag(t: string)
  {
    t == "INDI" || t == "FAM"
  }

  /** The ordinary classification: tag second, argument the rest joined by spaces. */
  function RegularEntry(tokens: seq<string>): (e: Entry)
    requires |tokens| >= 2
    ensures e.level == tokens[0] && e.tag == tokens[1] && e.arg == Join(tokens[2..], ' ')
    ensures e.valid <==> tokens[1] in ValidTags && tokens[0] == ValidTags[tokens[1]]
  {
    Entry(tokens[0], tokens[1], TagAtLevel(tokens[1], tokens[0]), Join(tokens[2..], ' '))
  }

  /** validate_tags_for_exceptions: "<level> <id> INDI" and "<level> <id> FAM"
      take the tag from the last token and the argument from the second; any
      other line containing INDI or FAM is marked invalid, keeping its second
      token as tag and its last token as argument. */
  function ExceptionEntry(line: seq<string>, level: string, defaultTag: string): (e: Entry)
    requires |line| >= 2
    ensures IsOpenerTag(line[|line| - 1]) ==>
      e == Entry(level, line[|line| - 1], level == "0", line[1])
    ensures !IsOpenerTag(line[|line| - 1]) ==>
      e == Entry(level, defaultTag, false, line[|line| - 1])
  {
    var last := line[|line| - 1];
    if IsOpenerTag(last) then Entry(level, last, TagAtLevel(last, level), line[1])
    else Entry(level, defaultTag, false, last)
  }

  /** The entry validate_tags_for_output makes of a line of at least two tokens. */
  function Classify(tokens: seq<string>): Entry
    requires |tokens| >= 2
  {
    if IsOpenerLine(tokens) then ExceptionEntry(tokens, tokens[0], tokens[1])
    else RegularEntry(tokens)
  }

  /** What validate_tags_for_output does with one line. */
  datatype LineOutcome = Blank | TooShort | Emits(entry: Entry)

  function LineEntry(line: string): LineOutcome
  {
    if |line| == 0 then Blank
    else
      var tokens := Tokens(line);
      if |tokens| < 2 then TooShort else Emits(Classify(tokens))
  }

  /** The entries produced for `lines`, in order, up to the first line that
      raises (a non-blank line without a second token). */
  function Validate(lines: seq<string>): Run<seq<Entry>>
  {
    if lines == [] then Run([], None)
    else match LineEntry(lines[0])
      case Blank => Validate(lines[1..])
      case TooShort => Run([], Some(TooFewTokens))
      case Emits(e) =>
        var rest := Validate(lines[1..]);
        Run([e] + rest.state, rest.raised)
  }

  /** Validate, one line at a time from position i: with `emitted` the
      entries of the lines before i, line i either stops the stage or adds
      its entry, if any, to `emitted`. */
  lemma ValidateAdvance(lines: seq<string>, i: nat, emitted: seq<Entry>)
    requires i < |lines|
    requires Validate(lines) == Run(emitted + Validate(lines[i..]).state, Validate(lines[i..]).raised)
    ensures
      var o := LineEntry(lines[i]);
      var emitted' := emitted + (if o.Emits? then [o.entry] else []);
      && (o.TooShort? ==> Validate(lines) == Run(emitted, Some(TooFewTokens)))
      && (!o.TooShort? ==> Validate(lines) == Run(emitted' + Validate(lines[i + 1..]).state, Validate(lines[i + 1..]).raised))
      && RenderAll(emitted') == RenderAll(emitted) + (if o.Emits? then [Render(o.entry)] else [])
  {
    assert lines[i..][1..] == lines[i + 1..];
    var o := LineEntry(lines[i]);
    var rest := Validate(lines[i + 1..]).state;
    if o.Emits? {
      assert emitted + ([o.entry] + rest) == (emitted + [o.entry]) + rest;
      RenderAllAppend(emitted, o.entry);
    } else if o.TooShort? {
      assert emitted + [] == emitted;
    } else {
      assert emitted + [] == emitted;
    }
  }

  /** KeepValid, one entry at a time from position i. */
  lemma KeepValidFrom(output: seq<string>, i: nat)
    requires i < |output|
    ensures KeepValid(output[i..]) == match ParseEntry(output[i])
      case Err(f) => Run([], Some(f))
      case Ok(kept) =>
        Run((if kept.Some? then [kept.value] else []) + KeepValid(output[i + 1..]).state,
            KeepValid(output[i + 1..]).raised)
  {
    assert output[i..][1..] == output[i + 1..];
  }

  /** The flag the output entry carries. */
  function Flag(valid: bool): string
  {
    if valid then "Y" else "N"
  }

  /** The f-string `<-- {level}|{tag}|Y|{arguments}` (or N). */
  function Render(e: Entry): string
  {
    Join(["<-- " + e.level, e.tag, Flag(e.valid), e.arg], '|')
  }

  function RenderAll(es: seq<Entry>): (r: seq<string>)
    ensures |r| == |es|
    ensures forall i :: 0 <= i < |es| ==> r[i] == Render(es[i])
  {
    if es == [] then [] else [Render(es[0])] + RenderAll(es[1..])
  }

  /** Rendering one more entry appends one more string. */
  lemma RenderAllAppend(es: seq<Entry>, e: Entry)
    ensures RenderAll(es + [e]) == RenderAll(es) + [Render(e)]
  {
  }

  /** The body of update_validated_list for one entry: split on '|' into
      exactly four fields, take int() of the level's last character, keep the
      entry when its flag is Y. */
  function ParseEntry(s: string): (r: Result<Option<ValidEntry>>)
    ensures r.Ok? ==> Count(s, '|') == 3
  {
    var parts := Split(s, '|');
    if |parts| != 4 then Err(NotFourFields)
    else
      var level := parts[0];
      if level == [] || !IsDigit(level[|level| - 1]) then Err(LevelNotDigit)
      else if parts[2] == "Y" then Ok(Some(ValidEntry(DigitValue(level[|level| - 1]), parts[1], parts[3])))
      else Ok(None)
  }

  /** The whole of update_validated_list: the kept entries, in order, up to the
      first entry that raises. */
  function KeepValid(output: seq<string>): Run<seq<ValidEntry>>
  {
    if output == [] then Run([], None)
    else match ParseEntry(output[0])
      case Err(f) => Run([], Some(f))
      case Ok(kept) =>
        var rest := KeepValid(output[1..]);
        Run((if kept.Some? then [kept.value] else []) + rest.state, rest.raised)
  }

  // ---------------------------------------------------------------------
  // Reference definitions and the properties of the stage.

  /** An entry survives being written out and read back: no '|' in its fields
      and a decimal digit at the end of its level. */
  predicate Readable(e: Entry)
  {
    '|' !in e.level && '|' !in e.tag && '|' !in e.arg && IsDigit(("<-- " + e.level)[|e.level| + 3])
  }

  /** The triple update_validated_list records for a valid entry. */
  function Kept(e: Entry): ValidEntry
    requires Readable(e)
  {
    ValidEntry(DigitValue(("<-- " + e.level)[|e.level| + 3]), e.tag, e.arg)
  }

  /** The entries marked Y, in order, as kept triples. */
  function Selected(es: seq<Entry>): seq<ValidEntry>
    requires forall i :: 0 <= i < |es| ==> Readable(es[i])
  {
    if es == [] then [] else (if es[0].valid then [Kept(es[0])] else []) + Selected(es[1..])
  }

  /** A non-opener line is valid exactly when its tag is in the table at the
      level it is written at. */
  lemma ClassifyRegular(tokens: seq<string>)
    requires |tokens| >= 2 && !IsOpenerLine(tokens)
    ensures Classify(tokens).valid <==> tokens[1] in ValidTags && tokens[0] == ValidTags[tokens[1]]
    ensures Classify(tokens).tag == tokens[1] && Classify(tokens).level == tokens[0]
    ensures Classify(tokens).arg == Join(tokens[2..], ' ')
  {
  }

  /** The transposed opener "<level> <id> INDI" classifies exactly as the
      canonical line "<level> INDI <id>" would on the ordinary path. */
  lemma OpenerAsCanonical(level: string, id: string, tag: string)
    requires IsOpenerTag(tag)
    ensures Classify([level, id, tag]) == RegularEntry([level, tag, id])
  {
    assert [level, tag, id][2..] == [id];
  }

  /** The canonical order itself goes down the opener path and is rejected. */
  lemma CanonicalOpenerRejected(level: string, tag: string, id: string)
    requires IsOpenerTag(tag) && !IsOpenerTag(id)
    ensures Classify([level, tag, id]) == Entry(level, tag, false, id)
  {
  }

  /** Validation distributes over concatenation of inputs, stopping at the
      first line that raises: together with the one-line cases (a blank line
      emits nothing, any other line exactly one entry) this says the entries
      come one per non-blank line, in input order. */
  lemma {:induction false} ValidateAppend(a: seq<string>, b: seq<string>)
    ensures Validate(a + b) ==
      (if Validate(a).raised.Some? then Validate(a)
       else Run(Validate(a).state + Validate(b).state, Validate(b).raised))
  {
    if a == [] {
      assert a + b == b;
      assert [] + Validate(b).state == Validate(b).state;
    } else {
      assert (a + b)[1..] == a[1..] + b;
      ValidateAppend(a[1..], b);
      match LineEntry(a[0])
      case Blank =>
      case TooShort =>
      case Emits(e) =>
        assert [e] + (Validate(a[1..]).state + Validate(b).state)
            == ([e] + Validate(a[1..]).state) + Validate(b).state;
    }
  }

  lemma ValidateOneLine(line: string)
    ensures Validate([line]) == match LineEntry(line)
      case Blank => Run([], None)
      case TooShort => Run([], Some(TooFewTokens))
      case Emits(e) => Run([e], None)
  {
    assert [line][1..] == [];
    match LineEntry(line)
    case Blank =>
    case TooShort =>
    case Emits(e) => assert [e] + [] == [e];
  }

  /** Validation raises exactly when some non-blank line has fewer than two
      tokens, and otherwise emits one entry per non-blank line. */
  lemma {:induction false} ValidateRaises(lines: seq<string>)
    ensures Validate(lines).raised.Some? <==> exists i :: 0 <= i < |lines| && LineEntry(lines[i]).TooShort?
    ensures Validate(lines).raised.None? ==> |Validate(lines).state| == NonBlank(lines)
  {
    if lines != [] {
      ValidateRaises(lines[1..]);
      if LineEntry(lines[0]).TooShort? {
      } else {
        assert forall i :: 1 <= i < |lines| ==> lines[i] == lines[1..][i - 1];
        if exists i :: 0 <= i < |lines| && LineEntry(lines[i]).TooShort? {
          var i :| 0 <= i < |lines| && LineEntry(lines[i]).TooShort?;
          assert LineEntry(lines[1..][i - 1]).TooShort?;
        }
      }
    }
  }

  /** The number of non-blank lines. */
  function NonBlank(lines: seq<string>): nat
  {
    if lines == [] then 0 else (if |lines[0]| == 0 then 0 else 1) + NonBlank(lines[1..])
  }

  /** Writing an entry out and reading it back keeps it exactly when it is
      marked Y, and fails exactly when the entry is not readable. */
  lemma ParseRender(e: Entry)
    ensures Readable(e) ==> ParseEntry(Render(e)) == Ok(if e.valid then Some(Kept(e)) else None)
    ensures !Readable(e) ==> ParseEntry(Render(e)).Err?
  {
    var fields := ["<-- " + e.level, e.tag, Flag(e.valid), e.arg];
    assert '|' !in "<-- ";
    assert '|' !in Flag(e.valid);
    if '|' !in e.level && '|' !in e.tag && '|' !in e.arg {
      assert '|' !in "<-- " + e.level;
      SplitOfJoin(fields, '|');
    } else {
      CountOfJoin(fields, '|');
      CountZero(fields[0], '|');
      CountZero(fields[1], '|');
      CountZero(fields[2], '|');
      CountZero(fields[3], '|');
      CountZero(e.level, '|');
      CountAppend("<-- ", e.level, '|');
      assert CountAll(fields, '|') == Count(fields[0], '|') + Count(fields[1], '|')
        + Count(fields[2], '|') + Count(fields[3], '|') by {
        assert CountAll(fields[3..], '|') == Count(fields[3], '|') by {
          assert fields[3..][1..] == [];
        }
        assert fields[2..][1..] == fields[3..];
        assert CountAll(fields[2..], '|') == Count(fields[2], '|') + CountAll(fields[3..], '|');
        assert fields[1..][1..] == fields[2..];
        assert CountAll(fields[1..], '|') == Count(fields[1], '|') + CountAll(fields[2..], '|');
      }
    }
  }

  /** update_validated_list over rendered entries keeps exactly the entries
      marked Y, in order, when every entry is readable. */
  lemma {:induction false} KeepValidOfRendered(es: seq<Entry>)
    requires forall i :: 0 <= i < |es| ==> Readable(es[i])
    ensures KeepValid(RenderAll(es)) == Run(Selected(es), None)
  {
    if es != [] {
      ParseRender(es[0]);
      assert RenderAll(es)[1..] == RenderAll(es[1..]);
      KeepValidOfRendered(es[1..]);
    }
  }

  /** ...and raises at the first unreadable entry. */
  lemma {:induction false} KeepValidRaises(es: seq<Entry>)
    ensures KeepValid(RenderAll(es)).raised.Some? <==> exists i :: 0 <= i < |es| && !Readable(es[i])
  {
    if es != [] {
      ParseRender(es[0]);
      assert RenderAll(es)[1..] == RenderAll(es[1..]);
      KeepValidRaises(es[1..]);
      if !Readable(es[0]) {
      } else {
        assert forall i :: 1 <= i < |es| ==> es[i] == es[1..][i - 1];
        if exists i :: 0 <= i < |es| && !Readable(es[i]) {
          var i :| 0 <= i < |es| && !Readable(es[i]);
          assert !Readable(es[1..][i - 1]);
        }
      }
    }
  }

  /** An entry marked Y names a tag of the table at its own level, whichever
      path produced it. */
  lemma ClassifyHonest(tokens: seq<string>)
    requires |tokens| >= 2
    ensures Classify(tokens).valid ==> TagAtLevel(Classify(tokens).tag, Classify(tokens).level)
  {
  }

  /** Every entry the stage emits is honest in that sense. */
  lemma {:induction false} ValidateHonest(lines: seq<string>)
    ensures forall i :: 0 <= i < |Validate(lines).state| ==>
      var e := Validate(lines).state[i];
      e.valid ==> TagAtLevel(e.tag, e.level)
  {
    if lines != [] {
      ValidateHonest(lines[1..]);
      match LineEntry(lines[0])
      case Blank =>
      case TooShort =>
      case Emits(e) =>
        ClassifyHonest(Tokens(lines[0]));
        var rest := Validate(lines[1..]).state;
        assert Validate(lines).state == [e] + rest;
        assert forall i :: 1 <= i < |[e] + rest| ==> ([e] + rest)[i] == rest[i - 1];
    }
  }

  /** A triple of the validated list: a tag of the table, at the numeric level
      the table gives it. */
  predicate KnownAtLevel(v: ValidEntry)
  {
    v.tag in ValidTags && |ValidTags[v.tag]| == 1 && IsDigit(ValidTags[v.tag][0])
    && v.level == DigitValue(ValidTags[v.tag][0])
  }

  lemma {:induction false} SelectedKnown(es: seq<Entry>)
    requires forall i :: 0 <= i < |es| ==> Readable(es[i])
    requires forall i :: 0 <= i < |es| ==> es[i].valid ==> TagAtLevel(es[i].tag, es[i].level)
    ensures forall j :: 0 <= j < |Selected(es)| ==> KnownAtLevel(Selected(es)[j])
  {
    if es != [] {
      SelectedKnown(es[1..]);
      var head := if es[0].valid then [Kept(es[0])] else [];
      if es[0].valid {
        ValidIsReadableLevel(es[0]);
      }
      assert Selected(es) == head + Selected(es[1..]);
      assert forall j :: |head| <= j < |Selected(es)| ==> Selected(es)[j] == Selected(es[1..])[j - |head|];
    }
  }

  /** The first two stages together: when every entry survives being written
      out, the validated list holds exactly the entries marked Y, in order,
      and each has a tag of the table at that tag's level. */
  lemma ValidatedListKnown(lines: seq<string>)
    requires forall i :: 0 <= i < |Validate(lines).state| ==> Readable(Validate(lines).state[i])
    ensures KeepValid(RenderAll(Validate(lines).state)) == Run(Selected(Validate(lines).state), None)
    ensures forall j :: 0 <= j < |Selected(Validate(lines).state)| ==> KnownAtLevel(Selected(Validate(lines).state)[j])
  {
    KeepValidOfRendered(Validate(lines).state);
    ValidateHonest(lines);
    SelectedKnown(Validate(lines).state);
  }

  /** A kept entry carries the numeric level of its tag: 0, 1 or 2. */
  lemma ValidIsReadableLevel(e: Entry)
    requires e.valid && Readable(e)
    requires TagAtLevel(e.tag, e.level)
    ensures Kept(e).level == DigitValue(ValidTags[e.tag][0])
    ensures 0 <= Kept(e).level <= 2
  {
  }
}
