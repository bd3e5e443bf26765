/** The individual and family records as values, and what `details` does to
    them for each validated line: overwrite a field (NAME, SEX, HUSB, WIFE),
    add to a set (CHIL, FAMC, FAMS), remember a pending date marker (BIRT,
    DEAT, MARR, DIV), or parse a DATE argument and store it where the marker
    says. An individual's DATE line also recomputes the age (setAge). */
module Records {

  import opened Common
  import opened Dates

  /** The last date marker seen in an individual record (the attribute
      preceding_tag_related_to_date: '', 'BIRT' or 'DEAT'). */
  datatype IndividualMarker = NoIndividualMarker | BirthMarker | DeathMarker

  /** The last date marker seen in a family record ('', 'MARR' or 'DIV'). */
  datatype FamilyMarker = NoFamilyMarker | MarriageMarker | DivorceMarker

  /** The fields of an Individual. The placeholder strings the source starts
      with ('' for birth and age, 'NA' for the death date) are `None`. */
  datatype IndividualRecord = IndividualRecord(
    id: string,
    name: string,
    sex: string,
    birth: Option<CalendarDate>,
    age: Option<int>,
    living: bool,
    deathDate: Option<CalendarDate>,
    famc: set<string>,
    fams: set<string>,
    pending: IndividualMarker)

  /** The fields of a Family ('' for the marriage date and 'NA' for the
      divorce date are `None`). */
  datatype FamilyRecord = FamilyRecord(
    id: string,
    marriageDate: Option<CalendarDate>,
    divorceDate: Option<CalendarDate>,
    husbandId: string,
    husbandName: string,
    wifeId: string,
    wifeName: string,
    children: set<string>,
    pending: FamilyMarker)

  /** Individual.__init__ */
  function NewIndividual(): IndividualRecord
  {
    IndividualRecord("", "", "", None, None, true, None, {}, {}, NoIndividualMarker)
  }

  /** Family.__init__ */
  function NewFamily(): FamilyRecord
  {
    FamilyRecord("", None, None, "", "TBD", "", "TBD", {}, NoFamilyMarker)
  }

  /** A record that is no longer living has a death date: the source sets
      living to False only together with the death date. */
  predicate LivingConsistent(r: IndividualRecord)
  {
    !r.living ==> r.deathDate.Some?
  }

  /** The date setAge measures up to: today while living, else the death date. */
  function AgeReference(r: IndividualRecord, today: CalendarDate): Option<CalendarDate>
  {
    if r.living then Some(today) else r.deathDate
  }

  /** setAge: the age in whole 365-day periods from birth to the reference
      date. Subtracting an unset birth (or death) date is a TypeError. */
  function SetAge(r: IndividualRecord, today: CalendarDate): (s: Run<IndividualRecord>)
    ensures s.raised.None? <==> r.birth.Some? && AgeReference(r, today).Some?
    ensures s.raised.Some? ==> s == Run(r, Some(AgeWithoutDates))
    ensures s.raised.None? ==>
      var reference, birth := AgeReference(r, today).value, r.birth.value;
      && s.state == r.(age := s.state.age)
      && s.state.age.Some?
      && s.state.age.value * 365 <= Ordinal(reference) - Ordinal(birth) < s.state.age.value * 365 + 365
  {
    match (r.birth, AgeReference(r, today))
    case (Some(birth), Some(reference)) => Run(r.(age := Some(AgeInYears(reference, birth))), None)
    case _ => Run(r, Some(AgeWithoutDates))
  }

  /** process_individual_record_date_tag: parse the date, store it as the
      birth or (also clearing `living`) the death date according to the
      pending marker, then run setAge whatever the marker was. */
  function IndividualDate(r: IndividualRecord, arg: string, today: CalendarDate): (s: Run<IndividualRecord>)
    ensures ParseDate(arg).Err? ==> s == Run(r, Some(ParseDate(arg).error))
    ensures ParseDate(arg).Ok? ==>
      var d := ParseDate(arg).value;
      && s.state.birth == (if r.pending == BirthMarker then Some(d) else r.birth)
      && s.state.deathDate == (if r.pending == DeathMarker then Some(d) else r.deathDate)
      && s.state.living == (r.living && r.pending != DeathMarker)
      && s.state == r.(birth := s.state.birth, deathDate := s.state.deathDate,
                       living := s.state.living, age := s.state.age)
      && (s.raised.None? <==> s.state.birth.Some? && AgeReference(s.state, today).Some?)
      && (s.raised.None? ==>
            s.state.birth.Some? && AgeReference(s.state, today).Some? &&
            s.state.age == Some(AgeInYears(AgeReference(s.state, today).value, s.state.birth.value)))
      && (s.raised.Some? ==> s.raised == Some(AgeWithoutDates) && s.state.age == r.age)
  {
    match ParseDate(arg)
    case Err(f) => Run(r, Some(f))
    case Ok(d) =>
      var dated :=
        if r.pending == BirthMarker then r.(birth := Some(d))
        else if r.pending == DeathMarker then r.(deathDate := Some(d), living := false)
        else r;
      SetAge(dated, today)
  }

  /** Individual.details */
  function IndividualDetails(r: IndividualRecord, tag: string, arg: string, today: CalendarDate): Run<IndividualRecord>
  {
    if tag == "INDI" then Run(r.(id := arg), None)
    else if tag == "NAME" then Run(r.(name := arg), None)
    else if tag == "SEX" then Run(r.(sex := arg), None)
    else if tag == "BIRT" then Run(r.(pending := BirthMarker), None)
    else if tag == "DEAT" then Run(r.(pending := DeathMarker), None)
    else if tag == "FAMC" then Run(r.(famc := r.famc + {arg}), None)
    else if tag == "FAMS" then Run(r.(fams := r.fams + {arg}), None)
    else if tag == "DATE" then IndividualDate(r, arg, today)
    else Run(r, None)
  }

  /** process_family_record_date_tag: parse the date and store it as the
      marriage or divorce date according to the pending marker. */
  function FamilyDate(r: FamilyRecord, arg: string): (s: Run<FamilyRecord>)
    ensures ParseDate(arg).Err? ==> s == Run(r, Some(ParseDate(arg).error))
    ensures ParseDate(arg).Ok? ==> s.raised.None?
    ensures ParseDate(arg).Ok? ==>
      var d := ParseDate(arg).value;
      && s.state.marriageDate == (if r.pending == MarriageMarker then Some(d) else r.marriageDate)
      && s.state.divorceDate == (if r.pending == DivorceMarker then Some(d) else r.divorceDate)
      && s.state == r.(marriageDate := s.state.marriageDate, divorceDate := s.state.divorceDate)
  {
    match ParseDate(arg)
    case Err(f) => Run(r, Some(f))
    case Ok(d) =>
      if r.pending == MarriageMarker then Run(r.(marriageDate := Some(d)), None)
      else if r.pending == DivorceMarker then Run(r.(divorceDate := Some(d)), None)
      else Run(r, None)
  }

  /** Family.details */
  function FamilyDetails(r: FamilyRecord, tag: string, arg: string): Run<FamilyRecord>
  {
    if tag == "FAM" then Run(r.(id := arg), None)
    else if tag == "HUSB" then Run(r.(husbandId := arg), None)
    else if tag == "WIFE" then Run(r.(wifeId := arg), None)
    else if tag == "CHIL" then Run(r.(children := r.children + {arg}), None)
    else if tag == "MARR" || tag == "DIV" then
      Run(r.(pending := if tag == "MARR" then MarriageMarker else DivorceMarker), None)
    else if tag == "DATE" then FamilyDate(r, arg)
    else Run(r, None)
  }

  /** What one line does to an individual record, field by field: each
      field changes only under its own tag, only DATE can raise, and a DATE
      line is process_individual_record_date_tag. A record that is not living
      keeps its death date. */
  lemma IndividualDetailsEffects(r: IndividualRecord, tag: string, arg: string, today: CalendarDate)
    ensures
      var s := IndividualDetails(r, tag, arg, today);
      && (s.raised.Some? ==> tag == "DATE")
      && s.state.id == (if tag == "INDI" then arg else r.id)
      && s.state.name == (if tag == "NAME" then arg else r.name)
      && s.state.sex == (if tag == "SEX" then arg else r.sex)
      && s.state.famc == (if tag == "FAMC" then r.famc + {arg} else r.famc)
      && s.state.fams == (if tag == "FAMS" then r.fams + {arg} else r.fams)
      && s.state.pending == (if tag == "BIRT" then BirthMarker else if tag == "DEAT" then DeathMarker else r.pending)
      && (tag != "DATE" ==> s.state == r.(id := s.state.id, name := s.state.name, sex := s.state.sex, famc := s.state.famc,
                                         fams := s.state.fams, pending := s.state.pending) && s.raised.None?)
      && (tag == "DATE" ==> s == IndividualDate(r, arg, today))
      && (LivingConsistent(r) ==> LivingConsistent(s.state))
  {
  }

  /** What one line does to a family record, field by field. */
  lemma FamilyDetailsEffects(r: FamilyRecord, tag: string, arg: string)
    ensures
      var s := FamilyDetails(r, tag, arg);
      && (s.raised.Some? ==> tag == "DATE")
      && s.state.id == (if tag == "FAM" then arg else r.id)
      && s.state.husbandId == (if tag == "HUSB" then arg else r.husbandId)
      && s.state.wifeId == (if tag == "WIFE" then arg else r.wifeId)
      && s.state.children == (if tag == "CHIL" then r.children + {arg} else r.children)
      && s.state.pending == (if tag == "MARR" then MarriageMarker else if tag == "DIV" then DivorceMarker else r.pending)
      && s.state.husbandName == r.husbandName && s.state.wifeName == r.wifeName
      && (tag != "DATE" ==> s.state == r.(id := s.state.id, husbandId := s.state.husbandId, wifeId := s.state.wifeId,
                                         children := s.state.children, pending := s.state.pending) && s.raised.None?)
      && (tag == "DATE" ==> s == FamilyDate(r, arg))
  {
  }

  /** A birth marker followed by a DATE line sets the birth date to the parsed
      date and leaves the other fields alone (the age is recomputed). */
  lemma BirthThenDate(r: IndividualRecord, arg: string, today: CalendarDate)
    requires ParseDate(arg).Ok?
    ensures
      var s := IndividualDetails(IndividualDetails(r, "BIRT", "", today).state, "DATE", arg, today);
      && s.state == r.(pending := BirthMarker, birth := Some(ParseDate(arg).value), age := s.state.age)
      && (s.raised.None? <==> r.living || r.deathDate.Some?)
  {
  }

  /** A DATE line with no pending marker stores no date; in a family record
      it changes nothing at all. */
  lemma DateWithoutMarker(r: IndividualRecord, f: FamilyRecord, arg: string, today: CalendarDate)
    requires r.pending == NoIndividualMarker && f.pending == NoFamilyMarker
    requires ParseDate(arg).Ok?
    ensures IndividualDetails(r, "DATE", arg, today).state == r.(age := IndividualDetails(r, "DATE", arg, today).state.age)
    ensures FamilyDetails(f, "DATE", arg) == Run(f, None)
  {
  }
}
