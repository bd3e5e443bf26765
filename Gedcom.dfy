/** The pipeline object (class GedcomFile): the input lines, the output
    entries, the validated list and the two tables, which the source keeps as
    class-level dictionaries and which here are fields of one object that
    starts empty. Each stage is a method that updates these fields in place
    and is specified by the functions of LineValidation and Assembly. */
module Gedcom {

  import opened Common
  import opened Text
  import opened Dates
  import opened LineValidation
  import opened Records
  import opened Assembly
  import opened Entities

  class GedcomFile {
    var input: seq<string>
    var output: seq<string>
    var validatedList: seq<ValidEntry>
    var individuals: map<string, Individual>
    var families: map<string, Family>

    /** The individual table as record values. */
    ghost function IndividualsView(): map<string, IndividualRecord>
      reads this`individuals, individuals.Values
    {
      map k | k in individuals :: individuals[k].Record()
    }

    /** The family table as record values. */
    ghost function FamiliesView(): map<string, FamilyRecord>
      reads this`families, families.Values
    {
      map k | k in families :: families[k].Record()
    }

    /** No object is stored under two keys, and the tables are keyed by the
        records' identifiers. */
    ghost predicate Valid()
      reads this, individuals.Values, families.Values
    {
      && (Distinct(individuals))
      && (Distinct(families))
      && KeyedById(Assembly(IndividualsView(), FamiliesView(), Idle))
    }

    /** __init__ followed by read_file: the lines come in already stripped. */
    constructor (lines: seq<string>)
      ensures Valid()
      ensures input == lines && output == [] && validatedList == []
      ensures individuals == map[] && families == map[]
    {
      input, output, validatedList := lines, [], [];
      individuals, families := map[], map[];
    }

    /** validate_tags_for_output: one entry per non-blank input line, in
        order, up to the first line without a second token. */
    method ValidateTagsForOutput() returns (raised: Option<Failure>)
      modifies this`output
      ensures output == old(output) + RenderAll(Validate(input).state)
      ensures raised == Validate(input).raised
    {
      var i := 0;
      ghost var emitted: seq<Entry> := [];
      assert input[0..] == input;
      assert emitted + Validate(input).state == Validate(input).state;
      while i < |input|
        invariant 0 <= i <= |input|
        invariant output == old(output) + RenderAll(emitted)
        invariant Validate(input) == Run(emitted + Validate(input[i..]).state, Validate(input[i..]).raised)
      {
        ValidateAdvance(input, i, emitted);
        ghost var outcome := LineEntry(input[i]);
        var tooShort := ValidateLine(input[i]);
        if tooShort {
          return Some(TooFewTokens);
        }
        emitted := emitted + (if outcome.Emits? then [outcome.entry] else []);
        i := i + 1;
      }
      raised := None;
    }

    /** One pass of the loop of validate_tags_for_output: a blank line is
        skipped, a line of fewer than two tokens is reported, any other line
        appends its rendered entry. */
    method ValidateLine(line: string) returns (tooShort: bool)
      modifies this`output
      ensures tooShort <==> LineEntry(line).TooShort?
      ensures output == old(output) + (if LineEntry(line).Emits? then [Render(LineEntry(line).entry)] else [])
    {
      tooShort := false;
      if |line| != 0 {
        var tokens := Tokens(line);
        if |tokens| < 2 {
          return true;
        }
        EmitLine(tokens);
      }
    }

    /** The loop body of validate_tags_for_output for a line of at least two tokens. */
    method EmitLine(tokens: seq<string>)
      requires |tokens| >= 2
      modifies this`output
      ensures output == old(output) + [Render(Classify(tokens))]
    {
      var level, tag := tokens[0], tokens[1];
      var arguments := Join(tokens[2..], ' ');
      RenderShape(Classify(tokens));
      if "INDI" in tokens || "FAM" in tokens {
        ValidateTagsForExceptions(tokens, level, tag);
      } else if tag in ValidTags && level == ValidTags[tag] {
        output := output + ["<-- " + level + "|" + tag + "|Y|" + arguments];
      } else {
        output := output + ["<-- " + level + "|" + tag + "|N|" + arguments];
      }
    }

    /** validate_tags_for_exceptions: the entry for a line containing INDI or FAM. */
    method ValidateTagsForExceptions(line: seq<string>, level: string, defaultTag: string)
      requires |line| >= 2
      modifies this`output
      ensures output == old(output) + [Render(ExceptionEntry(line, level, defaultTag))]
    {
      RenderShape(ExceptionEntry(line, level, defaultTag));
      if line[|line| - 1] == "INDI" || line[|line| - 1] == "FAM" {
        var tag := line[|line| - 1];
        var arguments := line[1];
        if tag in ValidTags && level == ValidTags[tag] {
          output := output + ["<-- " + level + "|" + tag + "|Y|" + arguments];
        } else {
          output := output + ["<-- " + level + "|" + tag + "|N|" + arguments];
        }
      } else {
        var arguments := line[|line| - 1];
        output := output + ["<-- " + level + "|" + defaultTag + "|N|" + arguments];
      }
    }

    /** update_validated_list: the Y entries of the output, read back from
        their strings, in order, up to the first entry that raises. */
    method UpdateValidatedList() returns (raised: Option<Failure>)
      modifies this`validatedList
      ensures validatedList == old(validatedList) + KeepValid(output).state
      ensures raised == KeepValid(output).raised
    {
      var i := 0;
      ghost var kept: seq<ValidEntry> := [];
      assert output[0..] == output;
      assert kept + KeepValid(output).state == KeepValid(output).state;
      while i < |output|
        invariant 0 <= i <= |output|
        invariant validatedList == old(validatedList) + kept
        invariant KeepValid(output) == Run(kept + KeepValid(output[i..]).state, KeepValid(output[i..]).raised)
      {
        KeepValidFrom(output, i);
        var entry := ParseEntry(output[i]);
        if entry.Err? {
          return Some(entry.error);
        }
        ghost var rest := KeepValid(output[i + 1..]).state;
        if entry.value.Some? {
          validatedList := validatedList + [entry.value.value];
          assert kept + ([entry.value.value] + rest) == (kept + [entry.value.value]) + rest;
          kept := kept + [entry.value.value];
        } else {
          assert [] + rest == rest;
        }
        i := i + 1;
      }
      raised := None;
    }

    /** The first two stages of main in turn, the second only when the first
        raised nothing. */
    method ReadStages() returns (raised: Option<Failure>)
      requires output == [] && validatedList == []
      modifies this`output, this`validatedList
      ensures
        var v := Validate(input);
        var k := KeepValid(RenderAll(v.state));
        && raised == (if v.raised.Some? then v.raised else k.raised)
        && (raised.None? ==> validatedList == k.state)
    {
      raised := ValidateTagsForOutput();
      if raised.Some? {
        return;
      }
      assert output == RenderAll(Validate(input).state);
      raised := UpdateValidatedList();
    }

    /** parse_validated_gedcom: the fold of Assembly.Assemble carried out on
        the objects, from idle, over the validated list. */
    method ParseValidatedGedcom(today: CalendarDate) returns (raised: Option<Failure>)
      requires Valid()
      modifies this`individuals, this`families
      ensures Valid()
      ensures
        var s := Assemble(Assembly(old(IndividualsView()), old(FamiliesView()), Idle), validatedList, today);
        && IndividualsView() == s.state.individuals
        && FamiliesView() == s.state.families
        && raised == s.raised
      ensures forall x :: x in individuals.Values ==> x in old(individuals.Values) || fresh(x)
      ensures forall x :: x in families.Values ==> x in old(families.Values) || fresh(x)
    {
      var individualRecord, familyRecord := false, false;
      var individual: Individual? := null;
      var family: Family? := null;
      ghost var a0 := Assembly(IndividualsView(), FamiliesView(), Idle);
      ghost var a := a0;
      raised := None;
      var i := 0;
      while i < |validatedList|
        invariant 0 <= i <= |validatedList|
        invariant Tracks(a, individualRecord, familyRecord, individual, family)
        invariant Assemble(a0, validatedList, today) == Assemble(a, validatedList[i..], today)
        invariant individual != null ==> fresh(individual)
        invariant family != null ==> fresh(family)
        invariant forall x :: x in individuals.Values ==> x in old(individuals.Values) || fresh(x)
        invariant forall x :: x in families.Values ==> x in old(families.Values) || fresh(x)
      {
        var entry := validatedList[i];
        var r;
        individualRecord, familyRecord, individual, family, r :=
          ProcessEntry(a, entry, today, individualRecord, familyRecord, individual, family);
        AssembleFrom(a, validatedList, i, today);
        a := Step(a, entry, today).state;
        if r.Some? {
          raised := r;
          break;
        }
        i := i + 1;
      }
      assert Assemble(a0, validatedList, today) == Run(a, raised);
      AssembleKeepsInvariants(a0, validatedList, today);
      KeyedByIdAnyMode(a, Idle);
      assert Assembly(IndividualsView(), FamiliesView(), Idle) == a.(mode := Idle);
    }

    /** What parse_validated_gedcom's locals say about the object tables: the
        tables hold `a`'s records and have the shape `a`'s mode gives them. */
    ghost predicate Tracks(a: Assembly, individualRecord: bool, familyRecord: bool,
                           individual: Individual?, family: Family?)
      reads this, individuals.Values, families.Values
    {
      && Coherent(a)
      && a.individuals == IndividualsView() && a.families == FamiliesView()
      && Shape(a.mode, individualRecord, familyRecord, individual, family)
    }

    /** No object is stored twice, and the flags and the open objects follow
        the mode. */
    ghost predicate Shape(mode: Mode, individualRecord: bool, familyRecord: bool,
                          individual: Individual?, family: Family?)
      reads this
    {
      && Distinct(individuals) && Distinct(families)
      && (individualRecord <==> mode.InIndividual?)
      && (familyRecord <==> mode.InFamily?)
      && (mode.InIndividual? ==> mode.key in individuals && individuals[mode.key] == individual)
      && (mode.InFamily? ==> mode.key in families && families[mode.key] == family)
    }

    /** The loop body of parse_validated_gedcom for one entry. */
    method ProcessEntry(ghost a: Assembly, entry: ValidEntry, today: CalendarDate, wasIndividual: bool, wasFamily: bool,
                        openIndividual: Individual?, openFamily: Family?)
      returns (individualRecord: bool, familyRecord: bool, individual: Individual?, family: Family?, raised: Option<Failure>)
      requires Tracks(a, wasIndividual, wasFamily, openIndividual, openFamily)
      modifies this`individuals, this`families, openIndividual, openFamily
      ensures
        var s := Step(a, entry, today);
        && Tracks(s.state, individualRecord, familyRecord, individual, family)
        && raised == s.raised
      ensures individual == openIndividual || fresh(individual)
      ensures family == openFamily || fresh(family)
      ensures forall x :: x in individuals.Values ==> x in old(individuals.Values) || fresh(x)
      ensures forall x :: x in families.Values ==> x in old(families.Values) || fresh(x)
    {
      ghost var b := Enter(a, entry);
      individualRecord, familyRecord, individual, family :=
        OpenRecord(a, entry, wasIndividual, wasFamily, openIndividual, openFamily);
      raised := ApplyDetails(b, entry, today, individualRecord, familyRecord, individual, family);
    }

    /** The first half of the loop body: INDI and FAM open a fresh record,
        TRLR, HEAD and NOTE close the open one. */
    method OpenRecord(ghost a: Assembly, entry: ValidEntry, wasIndividual: bool, wasFamily: bool,
                      openIndividual: Individual?, openFamily: Family?)
      returns (individualRecord: bool, familyRecord: bool, individual: Individual?, family: Family?)
      requires Tracks(a, wasIndividual, wasFamily, openIndividual, openFamily)
      modifies this`individuals, this`families
      ensures Tracks(Enter(a, entry), individualRecord, familyRecord, individual, family)
      ensures individual == openIndividual || fresh(individual)
      ensures family == openFamily || fresh(family)
      ensures forall x :: x in individuals.Values ==> x in old(individuals.Values) || fresh(x)
      ensures forall x :: x in families.Values ==> x in old(families.Values) || fresh(x)
    {
      individualRecord, familyRecord, individual, family := wasIndividual, wasFamily, openIndividual, openFamily;
      var tag, argument := entry.tag, entry.arg;
      if tag == "INDI" {
        individualRecord, familyRecord := true, false;
        ghost var families0 := FamiliesView();
        individual := OpenIndividual(argument);
        assert FamiliesView() == families0;
      } else if tag == "FAM" {
        familyRecord, individualRecord := true, false;
        ghost var individuals0 := IndividualsView();
        family := OpenFamily(argument);
        assert IndividualsView() == individuals0;
      } else if tag == "TRLR" || tag == "HEAD" || tag == "NOTE" {
        familyRecord, individualRecord := false, false;
      }
    }

    /** The second half of the loop body: the open record takes the entry. */
    method ApplyDetails(ghost b: Assembly, entry: ValidEntry, today: CalendarDate,
                        individualRecord: bool, familyRecord: bool, individual: Individual?, family: Family?)
      returns (raised: Option<Failure>)
      requires Tracks(b, individualRecord, familyRecord, individual, family)
      modifies individual, family
      ensures
        var s := Apply(b, entry, today);
        && Tracks(s.state, individualRecord, familyRecord, individual, family)
        && raised == s.raised
    {
      raised := None;
      if individualRecord {
        ghost var d := IndividualDetails(b.individuals[b.mode.key], entry.tag, entry.arg, today);
        raised := DetailsOfOpenIndividual(individual, b.mode.key, entry.tag, entry.arg, today);
        assert IndividualsView() == b.individuals[b.mode.key := d.state];
        assert FamiliesView() == b.families;
        assert Apply(b, entry, today) == Run(b.(individuals := b.individuals[b.mode.key := d.state]), d.raised);
      } else if familyRecord {
        ghost var d := FamilyDetails(b.families[b.mode.key], entry.tag, entry.arg);
        raised := DetailsOfOpenFamily(family, b.mode.key, entry.tag, entry.arg);
        assert FamiliesView() == b.families[b.mode.key := d.state];
        assert IndividualsView() == b.individuals;
        assert Apply(b, entry, today) == Run(b.(families := b.families[b.mode.key := d.state]), d.raised);
      }
    }

    /** The INDI branch: a new Individual stored under `key`. */
    method OpenIndividual(key: string) returns (individual: Individual)
      requires Distinct(individuals)
      modifies this`individuals
      ensures fresh(individual)
      ensures individuals == old(individuals)[key := individual]
      ensures IndividualsView() == old(IndividualsView())[key := NewIndividual()]
      ensures Distinct(individuals)
    {
      individual := new Individual();
      individuals := individuals[key := individual];
    }

    /** The FAM branch: a new Family stored under `key`. */
    method OpenFamily(key: string) returns (family: Family)
      requires Distinct(families)
      modifies this`families
      ensures fresh(family)
      ensures families == old(families)[key := family]
      ensures FamiliesView() == old(FamiliesView())[key := NewFamily()]
      ensures Distinct(families)
    {
      family := new Family();
      families := families[key := family];
    }

    /** `individual.details(tag, argument)` on the open individual, seen
        through the table. */
    method DetailsOfOpenIndividual(individual: Individual, ghost key: string, tag: string, argument: string, today: CalendarDate)
      returns (raised: Option<Failure>)
      requires key in individuals && individuals[key] == individual
      requires Distinct(individuals)
      modifies individual
      ensures
        var d := IndividualDetails(old(individual.Record()), tag, argument, today);
        IndividualsView() == old(IndividualsView())[key := d.state] && raised == d.raised
    {
      ghost var d := IndividualDetails(individual.Record(), tag, argument, today);
      raised := individual.Details(tag, argument, today);
      assert individual.Record() == d.state;
      assert forall k | k in individuals && k != key :: individuals[k] != individual;
    }

    /** `family.details(tag, argument)` on the open family, seen through the table. */
    method DetailsOfOpenFamily(family: Family, ghost key: string, tag: string, argument: string)
      returns (raised: Option<Failure>)
      requires key in families && families[key] == family
      requires Distinct(families)
      modifies family
      ensures
        var d := FamilyDetails(old(family.Record()), tag, argument);
        FamiliesView() == old(FamiliesView())[key := d.state] && raised == d.raised
    {
      ghost var d := FamilyDetails(family.Record(), tag, argument);
      raised := family.Details(tag, argument);
      assert family.Record() == d.state;
      assert forall k | k in families && k != key :: families[k] != family;
    }

    /** family_set_spouse_names: every family gets the names of its husband
        and wife from the individual table, or "Unknown". The source visits
        the families in insertion order; the order does not matter, since
        each family's names depend only on its own identifiers and the
        individual table, which the pass does not change. */
    method FamilySetSpouseNames()
      requires Valid()
      modifies families.Values
      ensures Valid()
      ensures FamiliesView() == SpouseNames(old(FamiliesView()), old(IndividualsView()))
      ensures IndividualsView() == old(IndividualsView())
    {
      var remaining := families.Keys;
      ghost var before := FamiliesView();
      ghost var people := IndividualsView();
      while remaining != {}
        invariant remaining <= families.Keys
        invariant families == old(families) && individuals == old(individuals)
        invariant IndividualsView() == people
        invariant FamiliesView() == NamesFilledExcept(before, people, remaining)
        decreases remaining
      {
        var entry :| entry in remaining;
        SetSpouseNamesOf(entry, families[entry], people);
        NamesFilledStep(before, people, remaining, entry);
        remaining := remaining - {entry};
      }
      assert FamiliesView() == SpouseNames(before, people);
      assert KeyedById(Assembly(people, SpouseNames(before, people), Idle));
    }

    /** The body of family_set_spouse_names's loop for one family. */
    method SetSpouseNamesOf(ghost key: string, family: Family, ghost people: map<string, IndividualRecord>)
      requires key in families && families[key] == family
      requires Distinct(families)
      requires people == IndividualsView()
      modifies family
      ensures FamiliesView() == old(FamiliesView())[key := WithSpouseNames(old(family.Record()), people)]
      ensures IndividualsView() == people
    {
      ghost var record := family.Record();
      var husbandName := "Unknown";
      if family.husbandId in individuals {
        husbandName := individuals[family.husbandId].name;
      }
      assert husbandName == NameOf(people, record.husbandId);
      var wifeName := "Unknown";
      if family.wifeId in individuals {
        wifeName := individuals[family.wifeId].name;
      }
      assert wifeName == NameOf(people, record.wifeId);
      family.husbandName, family.wifeName := husbandName, wifeName;
      assert family.Record() == WithSpouseNames(record, people);
      assert forall k | k in families && k != key :: families[k] != family;
    }
  }


  /** main without read_file and the printers: a fresh pipeline object runs
      the four stages in order and stops at the first exception. */
  method Ingest(lines: seq<string>, today: CalendarDate) returns (gedcom: GedcomFile, raised: Option<Failure>)
    ensures fresh(gedcom) && gedcom.Valid()
    ensures Assembly(gedcom.IndividualsView(), gedcom.FamiliesView(), Idle) == Pipeline(lines, today).state
    ensures raised == Pipeline(lines, today).raised
  {
    gedcom := new GedcomFile(lines);
    ghost var v, k := Validate(lines), KeepValid(RenderAll(Validate(lines).state));
    PipelineStages(lines, today, v, k);
    ghost var people, households := gedcom.IndividualsView(), gedcom.FamiliesView();
    assert Assembly(people, households, Idle) == Initial();
    raised := gedcom.ReadStages();
    if raised.Some? {
      return;
    }
    raised := gedcom.ParseValidatedGedcom(today);
    if raised.Some? {
      return;
    }
    gedcom.FamilySetSpouseNames();
  }

  /** No object is stored under two keys. */
  ghost predicate Distinct<V>(m: map<string, V>)
  {
    forall k, k' :: k in m && k' in m && k != k' ==> m[k] != m[k']
  }

  /** The families with the names filled in except for those in `remaining`. */
  ghost function NamesFilledExcept(families: map<string, FamilyRecord>, people: map<string, IndividualRecord>,
                                   remaining: set<string>): map<string, FamilyRecord>
  {
    map k | k in families :: if k in remaining then families[k] else WithSpouseNames(families[k], people)
  }

  lemma NamesFilledStep(families: map<string, FamilyRecord>, people: map<string, IndividualRecord>,
                        remaining: set<string>, entry: string)
    requires entry in remaining && remaining <= families.Keys
    ensures NamesFilledExcept(families, people, remaining)[entry := WithSpouseNames(NamesFilledExcept(families, people, remaining)[entry], people)]
         == NamesFilledExcept(families, people, remaining - {entry})
  {
  }

  /** The f-string the validator writes is the entry rendered with '|'. */
  lemma RenderShape(e: Entry)
    ensures Render(e) == "<-- " + e.level + "|" + e.tag + (if e.valid then "|Y|" else "|N|") + e.arg
  {
    var fields := ["<-- " + e.level, e.tag, Flag(e.valid), e.arg];
    assert fields[1..] == [e.tag, Flag(e.valid), e.arg];
    assert fields[1..][1..] == [Flag(e.valid), e.arg];
    assert fields[1..][1..][1..] == [e.arg];
    assert Join(fields[1..][1..], '|') == Flag(e.valid) + "|" + e.arg;
    assert Join(fields[1..], '|') == e.tag + "|" + (Flag(e.valid) + "|" + e.arg);
    assert Join(fields, '|') == "<-- " + e.level + "|" + (e.tag + "|" + (Flag(e.valid) + "|" + e.arg));
    assert "|" + (Flag(e.valid) + "|" + e.arg) == (if e.valid then "|Y|" else "|N|") + e.arg;
  }
}
