/** Stage two and three of the pipeline as values. parse_validated_gedcom is a
    fold over the kept entries with the state Idle | InIndividual | InFamily
    (the two booleans individual_record and family_record): INDI and FAM open
    a fresh record stored under the line's argument, HEAD, TRLR and NOTE go
    back to idle, and every line met while a record is open goes to that
    record's `details`. family_set_spouse_names then copies the names of each
    family's husband and wife from the individual table. */
module Assembly {

  import opened Common
  import opened Dates
  import opened LineValidation
  import opened Records

  /** Which record, if any, the fold is adding lines to. */
  datatype Mode = Idle | InIndividual(key: string) | InFamily(key: string)

  /** The two tables and the fold's state. */
  datatype Assembly = Assembly(
    individuals: map<string, IndividualRecord>,
    families: map<string, FamilyRecord>,
    mode: Mode)

  /** The open record is in its table (the source's `individual` / `family`
      variable is the object it has just stored there). */
  predicate Coherent(a: Assembly)
  {
    && (a.mode.InIndividual? ==> a.mode.key in a.individuals)
    && (a.mode.InFamily? ==> a.mode.key in a.families)
  }

  predicate IsCloser(tag: string)
  {
    tag == "TRLR" || tag == "HEAD" || tag == "NOTE"
  }

  /** The state after the first half of the loop body: open a record or go idle. */
  function Enter(a: Assembly, e: ValidEntry): (b: Assembly)
    ensures Coherent(a) ==> Coherent(b)
  {
    if e.tag == "INDI" then Assembly(a.individuals[e.arg := NewIndividual()], a.families, InIndividual(e.arg))
    else if e.tag == "FAM" then Assembly(a.individuals, a.families[e.arg := NewFamily()], InFamily(e.arg))
    else if IsCloser(e.tag) then a.(mode := Idle)
    else a
  }

  /** One iteration of parse_validated_gedcom's loop. */
  function Step(a: Assembly, e: ValidEntry, today: CalendarDate): (s: Run<Assembly>)
    requires Coherent(a)
    ensures Coherent(s.state)
    ensures s.state.mode == Enter(a, e).mode
  {
    Apply(Enter(a, e), e, today)
  }

  /** INDI and FAM start a fresh record carrying the identifier, replacing
      any record of that identifier; while idle the other lines change
      nothing; a closer line returns to idle; only a DATE line raises. */
  lemma StepCases(a: Assembly, e: ValidEntry, today: CalendarDate)
    requires Coherent(a)
    ensures
      var s := Step(a, e, today);
      && (e.tag == "INDI" ==>
            && s.state.individuals == a.individuals[e.arg := NewIndividual().(id := e.arg)]
            && s.state.families == a.families && s.raised.None?)
      && (e.tag == "FAM" ==>
            && s.state.families == a.families[e.arg := NewFamily().(id := e.arg)]
            && s.state.individuals == a.individuals && s.raised.None?)
      && (a.mode == Idle && e.tag != "INDI" && e.tag != "FAM" ==> s == Run(a, None))
      && (IsCloser(e.tag) ==> s == Run(a.(mode := Idle), None))
      && (s.raised.Some? ==> e.tag == "DATE")
  {
    var b := Enter(a, e);
    if b.mode.InIndividual? {
      IndividualDetailsEffects(b.individuals[b.mode.key], e.tag, e.arg, today);
    } else if b.mode.InFamily? {
      FamilyDetailsEffects(b.families[b.mode.key], e.tag, e.arg);
    }
  }

  /** The second half of an iteration: the open record, if any, takes the
      entry through its details method. */
  function Apply(b: Assembly, e: ValidEntry, today: CalendarDate): (s: Run<Assembly>)
    requires Coherent(b)
    ensures s.state.mode == b.mode && Coherent(s.state)
  {
    match b.mode
    case Idle => Run(b, None)
    case InIndividual(k) =>
      var d := IndividualDetails(b.individuals[k], e.tag, e.arg, today);
      Run(b.(individuals := b.individuals[k := d.state]), d.raised)
    case InFamily(k) =>
      var d := FamilyDetails(b.families[k], e.tag, e.arg);
      Run(b.(families := b.families[k := d.state]), d.raised)
  }

  /** parse_validated_gedcom over a list of kept entries, stopping at the first
      entry that raises. */
  function Assemble(a: Assembly, es: seq<ValidEntry>, today: CalendarDate): (s: Run<Assembly>)
    requires Coherent(a)
    ensures Coherent(s.state)
    decreases |es|
  {
    if es == [] then Run(a, None)
    else
      var s := Step(a, es[0], today);
      if s.raised.Some? then s else Assemble(s.state, es[1..], today)
  }

  /** Assemble, one entry at a time from position i. */
  lemma AssembleFrom(a: Assembly, es: seq<ValidEntry>, i: nat, today: CalendarDate)
    requires Coherent(a) && i < |es|
    ensures
      var s := Step(a, es[i], today);
      Assemble(a, es[i..], today) == if s.raised.Some? then s else Assemble(s.state, es[i + 1..], today)
  {
    assert es[i..][1..] == es[i + 1..];
  }

  /** KeyedById is about the tables alone. */
  lemma KeyedByIdAnyMode(a: Assembly, m: Mode)
    requires KeyedById(a)
    ensures KeyedById(a.(mode := m))
  {
  }

  /** The state the pipeline object starts with: both tables empty, idle. */
  function Initial(): Assembly
  {
    Assembly(map[], map[], Idle)
  }

  // ---------------------------------------------------------------------
  // Properties of the fold.

  /** Every record is stored under its own identifier. */
  predicate KeyedById(a: Assembly)
  {
    && (forall k :: k in a.individuals ==> a.individuals[k].id == k)
    && (forall k :: k in a.families ==> a.families[k].id == k)
  }

  predicate AllLivingConsistent(a: Assembly)
  {
    forall k :: k in a.individuals ==> LivingConsistent(a.individuals[k])
  }

  lemma StepKeepsInvariants(a: Assembly, e: ValidEntry, today: CalendarDate)
    requires Coherent(a)
    ensures KeyedById(a) ==> KeyedById(Step(a, e, today).state)
    ensures AllLivingConsistent(a) ==> AllLivingConsistent(Step(a, e, today).state)
  {
    var b := Enter(a, e);
    if b.mode.InIndividual? {
      IndividualDetailsEffects(b.individuals[b.mode.key], e.tag, e.arg, today);
    } else if b.mode.InFamily? {
      FamilyDetailsEffects(b.families[b.mode.key], e.tag, e.arg);
    }
  }

  /** After assembly every table entry carries the key it is stored under, and
      no individual is marked dead without a death date, whatever the input. */
  lemma {:induction false} AssembleKeepsInvariants(a: Assembly, es: seq<ValidEntry>, today: CalendarDate)
    requires Coherent(a)
    ensures KeyedById(a) ==> KeyedById(Assemble(a, es, today).state)
    ensures AllLivingConsistent(a) ==> AllLivingConsistent(Assemble(a, es, today).state)
    decreases |es|
  {
    if es != [] {
      StepKeepsInvariants(a, es[0], today);
      var s := Step(a, es[0], today);
      if s.raised.None? {
        AssembleKeepsInvariants(s.state, es[1..], today);
      }
    }
  }

  predicate OpensNothing(es: seq<ValidEntry>)
  {
    forall i :: 0 <= i < |es| ==> es[i].tag != "INDI" && es[i].tag != "FAM"
  }

  /** Lines met while idle (before any opener, or after HEAD, TRLR or NOTE)
      change nothing until the next INDI or FAM line. */
  lemma {:induction false} IdleUntilOpener(a: Assembly, es: seq<ValidEntry>, today: CalendarDate)
    requires a.mode == Idle && OpensNothing(es)
    ensures Assemble(a, es, today) == Run(a, None)
    decreases |es|
  {
    if es != [] {
      assert OpensNothing(es[1..]) by {
        forall i | 0 <= i < |es[1..]| ensures es[1..][i].tag != "INDI" && es[1..][i].tag != "FAM" {
          assert es[1..][i] == es[i + 1];
        }
      }
      IdleUntilOpener(a, es[1..], today);
    }
  }

  /** Identifiers opened by the entries with the given opener tag. */
  function Opened(es: seq<ValidEntry>, tag: string): set<string>
  {
    if es == [] then {} else (if es[0].tag == tag then {es[0].arg} else {}) + Opened(es[1..], tag)
  }

  /** The tables gain exactly the identifiers of the INDI and FAM lines read;
      no record is ever removed (a repeated identifier replaces the record). */
  lemma AssembleKeys(a: Assembly, es: seq<ValidEntry>, today: CalendarDate)
    requires Coherent(a)
    ensures a.individuals.Keys <= Assemble(a, es, today).state.individuals.Keys <= a.individuals.Keys + Opened(es, "INDI")
    ensures a.families.Keys <= Assemble(a, es, today).state.families.Keys <= a.families.Keys + Opened(es, "FAM")
    ensures Assemble(a, es, today).raised.None? ==>
      && Assemble(a, es, today).state.individuals.Keys == a.individuals.Keys + Opened(es, "INDI")
      && Assemble(a, es, today).state.families.Keys == a.families.Keys + Opened(es, "FAM")
  {
    IndividualKeys(a, es, today);
    FamilyKeys(a, es, today);
  }

  /** AssembleKeys for the individual table. */
  lemma {:induction false} IndividualKeys(a: Assembly, es: seq<ValidEntry>, today: CalendarDate)
    requires Coherent(a)
    ensures a.individuals.Keys <= Assemble(a, es, today).state.individuals.Keys <= a.individuals.Keys + Opened(es, "INDI")
    ensures Assemble(a, es, today).raised.None? ==>
      Assemble(a, es, today).state.individuals.Keys == a.individuals.Keys + Opened(es, "INDI")
    decreases |es|
  {
    if es != [] {
      var s := Step(a, es[0], today);
      StepKeys(a, es[0], today);
      assert Opened(es, "INDI") == (if es[0].tag == "INDI" then {es[0].arg} else {}) + Opened(es[1..], "INDI");
      if s.raised.None? {
        assert Assemble(a, es, today) == Assemble(s.state, es[1..], today);
        IndividualKeys(s.state, es[1..], today);
      } else {
        assert Assemble(a, es, today) == s;
      }
    }
  }

  /** AssembleKeys for the family table. */
  lemma {:induction false} FamilyKeys(a: Assembly, es: seq<ValidEntry>, today: CalendarDate)
    requires Coherent(a)
    ensures a.families.Keys <= Assemble(a, es, today).state.families.Keys <= a.families.Keys + Opened(es, "FAM")
    ensures Assemble(a, es, today).raised.None? ==>
      Assemble(a, es, today).state.families.Keys == a.families.Keys + Opened(es, "FAM")
    decreases |es|
  {
    if es != [] {
      var s := Step(a, es[0], today);
      StepKeys(a, es[0], today);
      assert Opened(es, "FAM") == (if es[0].tag == "FAM" then {es[0].arg} else {}) + Opened(es[1..], "FAM");
      if s.raised.None? {
        assert Assemble(a, es, today) == Assemble(s.state, es[1..], today);
        FamilyKeys(s.state, es[1..], today);
      } else {
        assert Assemble(a, es, today) == s;
      }
    }
  }

  /** One entry adds its identifier to the table its opener tag names, and
      nothing else. */
  lemma StepKeys(a: Assembly, e: ValidEntry, today: CalendarDate)
    requires Coherent(a)
    ensures Step(a, e, today).state.individuals.Keys == a.individuals.Keys + (if e.tag == "INDI" then {e.arg} else {})
    ensures Step(a, e, today).state.families.Keys == a.families.Keys + (if e.tag == "FAM" then {e.arg} else {})
  {
  }

  /** Only a DATE line can abort assembly. */
  lemma {:induction false} AssembleRaisesOnDate(a: Assembly, es: seq<ValidEntry>, today: CalendarDate)
    requires Coherent(a)
    requires Assemble(a, es, today).raised.Some?
    ensures exists i :: 0 <= i < |es| && es[i].tag == "DATE"
    decreases |es|
  {
    var s := Step(a, es[0], today);
    if s.raised.None? {
      AssembleRaisesOnDate(s.state, es[1..], today);
      var i :| 0 <= i < |es[1..]| && es[1..][i].tag == "DATE";
      assert es[i + 1].tag == "DATE";
    }
  }

  /** Assembly of a concatenation is assembly of the parts in turn. */
  lemma {:induction false} AssembleAppend(a: Assembly, es: seq<ValidEntry>, fs: seq<ValidEntry>, today: CalendarDate)
    requires Coherent(a)
    ensures Assemble(a, es + fs, today) ==
      (if Assemble(a, es, today).raised.Some? then Assemble(a, es, today)
       else Assemble(Assemble(a, es, today).state, fs, today))
    decreases |es|
  {
    if es == [] {
      assert es + fs == fs;
    } else {
      assert (es + fs)[1..] == es[1..] + fs;
      var s := Step(a, es[0], today);
      if s.raised.None? {
        AssembleAppend(s.state, es[1..], fs, today);
      }
    }
  }

  // ---------------------------------------------------------------------
  // family_set_spouse_names

  /** The name found for an identifier, or "Unknown" when it is not a key. */
  function NameOf(individuals: map<string, IndividualRecord>, id: string): string
  {
    if id in individuals then individuals[id].name else "Unknown"
  }

  /** One family after family_set_spouse_names. */
  function WithSpouseNames(f: FamilyRecord, individuals: map<string, IndividualRecord>): FamilyRecord
  {
    f.(husbandName := NameOf(individuals, f.husbandId), wifeName := NameOf(individuals, f.wifeId))
  }

  /** The families after family_set_spouse_names. */
  function SpouseNames(families: map<string, FamilyRecord>, individuals: map<string, IndividualRecord>): (r: map<string, FamilyRecord>)
    ensures r.Keys == families.Keys
    ensures forall k :: k in r ==>
      && r[k].husbandName == NameOf(individuals, families[k].husbandId)
      && r[k].wifeName == NameOf(individuals, families[k].wifeId)
      && r[k] == families[k].(husbandName := r[k].husbandName, wifeName := r[k].wifeName)
  {
    map k | k in families :: WithSpouseNames(families[k], individuals)
  }

  /** Back-filling the names a second time changes nothing. */
  lemma SpouseNamesIdempotent(families: map<string, FamilyRecord>, individuals: map<string, IndividualRecord>)
    ensures SpouseNames(SpouseNames(families, individuals), individuals) == SpouseNames(families, individuals)
  {
  }

  /** A family whose husband identifier is not in the table still gets its
      wife's name (and "Unknown" for the husband). */
  lemma BrokenHusbandReference(families: map<string, FamilyRecord>, individuals: map<string, IndividualRecord>, k: string)
    requires k in families && families[k].husbandId !in individuals && families[k].wifeId in individuals
    ensures SpouseNames(families, individuals)[k].husbandName == "Unknown"
    ensures SpouseNames(families, individuals)[k].wifeName == individuals[families[k].wifeId].name
  {
  }

  // ---------------------------------------------------------------------
  // The stage sequence of main

  /** main without read_file and the printers: validation, the validated
      list, assembly and the spouse names, each stage run only when the one
      before it raised nothing. An exception ends the run with the tables as
      they stand. */
  function Pipeline(lines: seq<string>, today: CalendarDate): (r: Run<Assembly>)
    ensures r.state.mode == Idle
  {
    var v := Validate(lines);
    if v.raised.Some? then Run(Initial(), v.raised)
    else
      var k := KeepValid(RenderAll(v.state));
      if k.raised.Some? then Run(Initial(), k.raised)
      else
        var s := Assemble(Initial(), k.state, today);
        if s.raised.Some? then Run(s.state.(mode := Idle), s.raised)
        else Run(Assembly(s.state.individuals, SpouseNames(s.state.families, s.state.individuals), Idle), None)
  }

  /** Pipeline, one stage at a time: given the results of the first stages,
      what the run comes to. */
  lemma PipelineStages(lines: seq<string>, today: CalendarDate, v: Run<seq<Entry>>, k: Run<seq<ValidEntry>>)
    requires v == Validate(lines) && k == KeepValid(RenderAll(v.state))
    ensures v.raised.Some? ==> Pipeline(lines, today) == Run(Initial(), v.raised)
    ensures v.raised.None? && k.raised.Some? ==> Pipeline(lines, today) == Run(Initial(), k.raised)
    ensures v.raised.None? && k.raised.None? ==>
      var s := Assemble(Initial(), k.state, today);
      Pipeline(lines, today) ==
        if s.raised.Some? then Run(s.state.(mode := Idle), s.raised)
        else Run(Assembly(s.state.individuals, SpouseNames(s.state.families, s.state.individuals), Idle), None)
  {
  }

  /** Whatever the input, the tables main leaves behind keep every record
      under its own identifier and no individual dead without a death date;
      after a complete run every family carries its spouses' names. */
  lemma PipelineInvariants(lines: seq<string>, today: CalendarDate)
    ensures KeyedById(Pipeline(lines, today).state)
    ensures AllLivingConsistent(Pipeline(lines, today).state)
    ensures var r := Pipeline(lines, today);
      r.raised.None? ==> forall k :: k in r.state.families ==>
        && r.state.families[k].husbandName == NameOf(r.state.individuals, r.state.families[k].husbandId)
        && r.state.families[k].wifeName == NameOf(r.state.individuals, r.state.families[k].wifeId)
  {
    var v := Validate(lines);
    if v.raised.None? {
      var k := KeepValid(RenderAll(v.state));
      if k.raised.None? {
        AssembleKeepsInvariants(Initial(), k.state, today);
      }
    }
  }

  /** When every line has a level and a tag and every entry written can be
      read back, only a DATE line can stop main. */
  lemma PipelineRaisesOnlyOnDate(lines: seq<string>, today: CalendarDate)
    requires Validate(lines).raised.None?
    requires forall i :: 0 <= i < |Validate(lines).state| ==> Readable(Validate(lines).state[i])
    ensures Pipeline(lines, today).raised.Some? ==>
      exists i :: 0 <= i < |Selected(Validate(lines).state)| && Selected(Validate(lines).state)[i].tag == "DATE"
  {
    ValidatedListKnown(lines);
    if Pipeline(lines, today).raised.Some? {
      AssembleRaisesOnDate(Initial(), Selected(Validate(lines).state), today);
    }
  }
}
