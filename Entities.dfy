/** The two entity classes. Their `details` methods update the object's
    fields in place line by line; each method is specified by the function on
    record values it carries out (module Records), so what is proved about
    those functions holds of the objects. */
module Entities {

  import opened Common
  import opened Dates
  import opened Records

  class Individual {
    var id: string
    var name: string
    var sex: string
    var birth: Option<CalendarDate>
    var age: Option<int>
    var living: bool
    var deathDate: Option<CalendarDate>
    var famc: set<string>
    var fams: set<string>
    var precedingTagRelatedToDate: IndividualMarker

    /** The object's fields as a record value. */
    function Record(): IndividualRecord
      reads this
    {
      IndividualRecord(id, name, sex, birth, age, living, deathDate, famc, fams, precedingTagRelatedToDate)
    }

    constructor ()
      ensures Record() == NewIndividual()
    {
      id, name, sex := "", "", "";
      birth, age := None, None;
      living, deathDate := true, None;
      famc, fams := {}, {};
      precedingTagRelatedToDate := NoIndividualMarker;
    }

    /** details: one validated line of this individual's record. */
    method Details(tag: string, argument: string, today: CalendarDate) returns (raised: Option<Failure>)
      modifies this
      ensures Run(Record(), raised) == IndividualDetails(old(Record()), tag, argument, today)
    {
      raised := None;
      if tag == "INDI" {
        id := argument;
      } else if tag == "NAME" {
        name := argument;
      } else if tag == "SEX" {
        sex := argument;
      } else if tag == "BIRT" || tag == "DEAT" {
        precedingTagRelatedToDate := if tag == "BIRT" then BirthMarker else DeathMarker;
      } else if tag == "FAMC" {
        famc := famc + {argument};
      } else if tag == "FAMS" {
        fams := fams + {argument};
      } else if tag == "DATE" {
        raised := ProcessIndividualRecordDateTag(argument, today);
      }
    }

    /** process_individual_record_date_tag */
    method ProcessIndividualRecordDateTag(dateInGedcomFormat: string, today: CalendarDate) returns (raised: Option<Failure>)
      modifies this
      ensures Run(Record(), raised) == IndividualDate(old(Record()), dateInGedcomFormat, today)
    {
      var parsed := ParseDate(dateInGedcomFormat);
      if parsed.Err? {
        return Some(parsed.error);
      }
      if precedingTagRelatedToDate == BirthMarker {
        birth := Some(parsed.value);
      } else if precedingTagRelatedToDate == DeathMarker {
        deathDate := Some(parsed.value);
        living := false;
      }
      raised := SetAge(today);
    }

    /** setAge */
    method SetAge(today: CalendarDate) returns (raised: Option<Failure>)
      modifies this
      ensures Run(Record(), raised) == Records.SetAge(old(Record()), today)
    {
      var reference := if living then Some(today) else deathDate;
      if birth.None? || reference.None? {
        return Some(AgeWithoutDates);
      }
      age := Some(AgeInYears(reference.value, birth.value));
      raised := None;
    }
  }

  class Family {
    var id: string
    var marriageDate: Option<CalendarDate>
    var divorceDate: Option<CalendarDate>
    var husbandId: string
    var husbandName: string
    var wifeId: string
    var wifeName: string
    var children: set<string>
    var precedingTagRelatedToDate: FamilyMarker

    /** The object's fields as a record value. */
    function Record(): FamilyRecord
      reads this
    {
      FamilyRecord(id, marriageDate, divorceDate, husbandId, husbandName, wifeId, wifeName, children,
                   precedingTagRelatedToDate)
    }

    constructor ()
      ensures Record() == NewFamily()
    {
      id := "";
      marriageDate, divorceDate := None, None;
      husbandId, husbandName := "", "TBD";
      wifeId, wifeName := "", "TBD";
      children := {};
      precedingTagRelatedToDate := NoFamilyMarker;
    }

    /** details: one validated line of this family's record. */
    method Details(tag: string, argument: string) returns (raised: Option<Failure>)
      modifies this
      ensures Run(Record(), raised) == FamilyDetails(old(Record()), tag, argument)
    {
      raised := None;
      if tag == "FAM" {
        id := argument;
      }
      if tag == "HUSB" {
        husbandId := argument;
      }
      if tag == "WIFE" {
        wifeId := argument;
      }
      if tag == "CHIL" {
        children := children + {argument};
      }
      if tag == "MARR" || tag == "DIV" {
        precedingTagRelatedToDate := if tag == "MARR" then MarriageMarker else DivorceMarker;
      }
      if tag == "DATE" {
        raised := ProcessFamilyRecordDateTag(argument);
      }
    }

    /** process_family_record_date_tag */
    method ProcessFamilyRecordDateTag(dateInGedcomFormat: string) returns (raised: Option<Failure>)
      modifies this
      ensures Run(Record(), raised) == FamilyDate(old(Record()), dateInGedcomFormat)
    {
      var parsed := ParseDate(dateInGedcomFormat);
      if parsed.Err? {
        return Some(parsed.error);
      }
      if precedingTagRelatedToDate == MarriageMarker {
        marriageDate := Some(parsed.value);
      } else if precedingTagRelatedToDate == DivorceMarker {
        divorceDate := Some(parsed.value);
      }
      raised := None;
    }
  }
}
