# GEDCOM ingestion pipeline, modelled in Dafny

This project models the core of `SSW555_Group_Project.py`. That program reads a
GEDCOM genealogy file, one line at a time, and runs it through four stages on one
`GedcomFile` object:

1. **Line validation** (`validate_tags_for_output`,
   `validate_tags_for_exceptions`). Each non-blank input line is split on
   whitespace into a level, a tag and arguments. The line's tag is checked
   against the fixed tag-to-level table, and the result is written as an
   output string `<-- level|tag|Y|args` or `<-- level|tag|N|args`. A line that
   contains the token `INDI` or `FAM` anywhere follows a separate path. When
   its last token is `INDI` or `FAM`, that opener becomes the tag and the
   second token the argument, whatever the line's length, and the table
   decides validity (`0 @I1@ X INDI` is marked `Y` with argument `@I1@`). Any
   other line containing an opener is marked `N` with its own tag and its last
   token as argument.
2. **Validated list** (`update_validated_list`). Each output string is split
   back on `|`. The last character of its level is read as a digit, and the
   `Y` entries are kept as (level, tag, argument).
3. **Record assembly** (`parse_validated_gedcom`, with `Individual.details`,
   `Family.details`, the two date handlers and `setAge`). The kept entries are
   folded over a two-flag state machine. `INDI` and `FAM` open a fresh record
   and store it under its identifier. `HEAD`, `TRLR` and `NOTE` close the open
   record. Every entry, the opener included, is then handed to the open record's
   `details`. `DATE` parses a `day Mon year` date and stores it under the
   pending `BIRT`/`DEAT` or `MARR`/`DIV` marker. For individuals it then
   recomputes the age in whole 365-day periods, counted up to today or to the
   death date.
4. **Spouse names** (`family_set_spouse_names`). Every family gets the
   names of its husband and wife from the individual table, or `"Unknown"`
   when the identifier is not a key.

Layout:

- `Common.dfy` holds `Option`, `Result` and the failure kinds. It also holds
  `Run`: a state paired with the exception that stopped the computation, if any.
- `Text.dfy` holds whitespace tokenising, joining, splitting on one character,
  and decimal digits.
- `Dates.dfy` holds the proleptic Gregorian calendar, day ordinals, the
  month-abbreviation lookup of `strptime('%b')`, date parsing and the age
  computation.
- `LineValidation.dfy` specifies stages 1 and 2 as functions over sequences.
- `Records.dfy` specifies the two record kinds and what one line does to each.
- `Assembly.dfy` specifies stage 3 as a fold, stage 4 as a function on the
  tables, and `main`'s sequence of the four stages.
- `Entities.dfy` holds the classes `Individual` and `Family`. Their methods
  update fields in place and are proved against the `Records` functions.
- `Gedcom.dfy` holds the class `GedcomFile`. Its methods run each stage's loop
  on the object's fields and are proved against the specification functions.
  With the `Valid()` invariant they also keep two facts: no object is stored
  under two keys, and every record is stored under its own identifier.
  `Gedcom.Ingest` runs the stages in `main`'s order on a fresh object.

Conventions:

- Dates are `Date(year, month, day)` values restricted to years 1-9999, as
  Python's `datetime.date` is. Date subtraction is the difference of day
  ordinals.
- The date of "today" is a parameter.
- Every way the source can raise is an explicit `Failure`:
  a non-blank line with fewer than two tokens (`line[0]` or `line[1]`), an output string without exactly four
  `|`-separated fields, a level that does not end in a digit, a malformed date,
  and an age computed with no birth date.
- The exception ends the run. Everything done before it stays done, as in the
  source.

Points where the code behaves in a way worth spelling out:

- `Family.details` tests its tags with independent `if`s, while
  `Individual.details` uses an `elif` chain. Both are modelled as written.
  Their tags never overlap, so the two shapes agree.
- In a line `0 INDI @I1@` the last token is not an opener, so that line is marked `N` with
  argument `@I1@`.
- `update_validated_list` converts the level before it looks at the validity
  flag. An `N` line whose level does not end in a digit therefore stops the
  stage. So does an argument containing `|`, because it breaks the
  four-field unpacking.

## Model

| member | source | states |
|---|---|---|
| Text.Tokens | SSW555_Group_Project.py:183 | every token of `str.split()` is a non-empty word with no whitespace |
| Text.TokensOfJoin | SSW555_Group_Project.py:183-186 | splitting the single-space join of whitespace-free words gives back exactly those words |
| Text.Split | SSW555_Group_Project.py:217 | splitting on a character yields one more part than the character's occurrences |
| Text.SplitOfJoin | SSW555_Group_Project.py:192-217 | splitting the join of separator-free fields on that separator gives back the fields |
| Text.CountZero | SSW555_Group_Project.py:217 | a character occurs zero times exactly when it is absent |
| Text.ParseNat | SSW555_Group_Project.py:54-55 | a string reads as a natural number exactly when it is non-empty and all decimal digits |
| Text.ParseNatToString | SSW555_Group_Project.py:54-55 | reading back the decimal spelling of a number gives that number |
| Dates.DaysInMonth | SSW555_Group_Project.py:57 | every month of every year has between 28 and 31 days |
| Dates.NextDay | SSW555_Group_Project.py:57 | the day after a valid date is a valid, later date |
| Dates.OrdinalInYear | SSW555_Group_Project.py:142 | a date's ordinal lies within its year's span of ordinals |
| Dates.OrdinalOrder | SSW555_Group_Project.py:142 | ordinals order dates as the calendar does, and equal ordinals mean equal dates, so subtraction is well-defined |
| Dates.NextDayOrdinal | SSW555_Group_Project.py:142 | the next day has the next ordinal, so differences count days |
| Dates.MonthFrom | SSW555_Group_Project.py:56 | the search returns the first month from a position whose name the text spells, ignoring case |
| Dates.MonthNumber | SSW555_Group_Project.py:56 | `%b` matches the first month whose name the text spells, ignoring case, and fails exactly when none matches |
| Dates.MonthNumberOfAbbrev | SSW555_Group_Project.py:56 | each three-letter English abbreviation reads back as its own month number |
| Dates.ParseDate | SSW555_Group_Project.py:53-57 | a date parses only when it has exactly three space-separated fields |
| Dates.ParseDateFields | SSW555_Group_Project.py:53-57 | a date parses exactly when it has three space-separated fields, a numeric day and year, a known month and a day and year datetime accepts; the result is the date those fields spell |
| Dates.ParseDateFailures | SSW555_Group_Project.py:53-57 | the exception raised for each malformed date, in Python's order: field count, day, year, month, range |
| Dates.ParseFormatDate | SSW555_Group_Project.py:53-57 | every valid date written as `day Mon year` parses back to itself |
| Dates.AgeInYears | SSW555_Group_Project.py:142 | the age is the floor of the day difference over 365, and it is non-negative exactly when the reference date is not before birth |
| LineValidation.RegularEntry | SSW555_Group_Project.py:183-194 | level, tag and argument are the first token, the second and the rest joined; valid exactly when the tag is in the table at that level |
| LineValidation.ExceptionEntry | SSW555_Group_Project.py:196-212 | a trailing opener becomes the tag, with the second token as argument and the table deciding validity; otherwise the default tag, the last token and `N` |
| LineValidation.ClassifyRegular | SSW555_Group_Project.py:188-194 | a line with no opener token is judged by the table test alone |
| LineValidation.OpenerAsCanonical | SSW555_Group_Project.py:196-208 | `level id OPENER` produces the entry `level OPENER id` would produce on the regular path |
| LineValidation.CanonicalOpenerRejected | SSW555_Group_Project.py:188-212 | `level OPENER id` with a non-opener identifier is always marked `N`, with the identifier as argument |
| LineValidation.ClassifyHonest | SSW555_Group_Project.py:153-155 | every entry marked `Y` has a tag in the table, at the table's level |
| LineValidation.ValidateAdvance | SSW555_Group_Project.py:179-194 | one more line of the loop, from any position, extends the emitted entries or ends the run as the whole-list function does |
| LineValidation.ValidateOneLine | SSW555_Group_Project.py:179-194 | a single line is skipped, reported as too short, or emits its entry |
| LineValidation.ValidateAppend | SSW555_Group_Project.py:179-194 | validating two line lists in sequence is validating their concatenation |
| LineValidation.ValidateRaises | SSW555_Group_Project.py:179-185 | the stage raises exactly when some non-blank line has fewer than two tokens; otherwise it emits one entry per non-blank line |
| LineValidation.ValidateHonest | SSW555_Group_Project.py:179-212 | every `Y` entry of the output has a known tag at the table's level |
| LineValidation.RenderAll | SSW555_Group_Project.py:192-212 | one output string per entry, in order |
| LineValidation.ParseEntry | SSW555_Group_Project.py:217-220 | an output string is read only when it has exactly four fields separated by bars |
| LineValidation.KeepValidFrom | SSW555_Group_Project.py:216-220 | reading the output from any position reads that string, then the rest |
| LineValidation.ParseRender | SSW555_Group_Project.py:192-220 | a rendered entry whose fields contain no bar and whose level ends in a digit reads back as its level digit, tag and argument when `Y`, and as nothing when `N`; any other entry raises |
| LineValidation.KeepValidOfRendered | SSW555_Group_Project.py:214-220 | over readable entries, the validated list is exactly the `Y` entries, in order, and nothing is raised |
| LineValidation.KeepValidRaises | SSW555_Group_Project.py:214-220 | the stage raises exactly when some entry is unreadable |
| LineValidation.SelectedKnown | SSW555_Group_Project.py:214-220 | entries kept from honest `Y` entries have a known tag and the table's level as an integer |
| LineValidation.ValidatedListKnown | SSW555_Group_Project.py:176-220 | when stage 1's entries are readable, stage 2 raises nothing, and every entry it keeps has a known tag at its table level |
| LineValidation.ValidIsReadableLevel | SSW555_Group_Project.py:153-155 | a kept entry's integer level is its table level, between 0 and 2 |
| Records.SetAge | SSW555_Group_Project.py:135-142 | the age is set exactly when a birth date and a reference date exist; it is the floor of the day difference over 365; nothing else changes; otherwise the call raises and changes nothing |
| Records.IndividualDate | SSW555_Group_Project.py:114-133 | a bad date raises and changes nothing; a good one sets birth under BIRT, or death and not-living under DEAT; the age is then recomputed and no other field changes |
| Records.FamilyDate | SSW555_Group_Project.py:47-63 | a bad date raises and changes nothing; a good one sets marriage under MARR or divorce under DIV and changes nothing else |
| Records.IndividualDetailsEffects | SSW555_Group_Project.py:90-112 | each field changes only under its own tag (id by INDI, name by NAME, sex by SEX, marker by BIRT/DEAT, sets by FAMC/FAMS); only DATE can raise; other tags change nothing; a record that is not living keeps a death date |
| Records.FamilyDetailsEffects | SSW555_Group_Project.py:26-45 | each field changes only under its own tag (id by FAM, spouses by HUSB/WIFE, children by CHIL, marker by MARR/DIV); only DATE can raise; spouse names are untouched |
| Records.BirthThenDate | SSW555_Group_Project.py:102-133 | BIRT followed by DATE stores the parsed birth date, and raises only for a dead person without a death date |
| Records.DateWithoutMarker | SSW555_Group_Project.py:44-63 | a DATE with no pending marker stores no date, and in a family changes nothing |
| Assembly.Enter | SSW555_Group_Project.py:241-264 | opening or closing keeps the open record present in its table |
| Assembly.Step | SSW555_Group_Project.py:240-270 | one iteration keeps the open record in its table, and the flags are set by the entry's tag alone |
| Assembly.Apply | SSW555_Group_Project.py:266-270 | handing the entry to the open record keeps the mode and the open record in its table |
| Assembly.StepCases | SSW555_Group_Project.py:241-270 | INDI/FAM replace the entry under the identifier with a fresh record carrying it; an idle non-opener changes nothing; HEAD/TRLR/NOTE only go idle; only DATE raises |
| Assembly.Assemble | SSW555_Group_Project.py:240-270 | the fold keeps the open record in its table |
| Assembly.AssembleFrom | SSW555_Group_Project.py:240-270 | the fold from any position is one step, then the rest, unless that step raises |
| Assembly.StepKeepsInvariants | SSW555_Group_Project.py:241-270 | one iteration keeps every record under its own identifier and keeps every dead record's death date |
| Assembly.AssembleKeepsInvariants | SSW555_Group_Project.py:240-270 | the whole fold keeps those two invariants, even when it stops on a raise |
| Assembly.IdleUntilOpener | SSW555_Group_Project.py:261-270 | while no record is open, entries up to the next opener change nothing |
| Assembly.StepKeys | SSW555_Group_Project.py:247-259 | an INDI or FAM entry adds its identifier to its table, and no other entry changes either key set |
| Assembly.AssembleKeys | SSW555_Group_Project.py:240-259 | the tables gain only the identifiers of opener entries read, and all of them when nothing raises |
| Assembly.IndividualKeys | SSW555_Group_Project.py:240-249 | the individual table gains only the identifiers of INDI entries read, and all of them when nothing raises |
| Assembly.FamilyKeys | SSW555_Group_Project.py:240-259 | the family table gains only the identifiers of FAM entries read, and all of them when nothing raises |
| Assembly.AssembleRaisesOnDate | SSW555_Group_Project.py:111-112 | the fold raises only when the entries contain a DATE |
| Assembly.AssembleAppend | SSW555_Group_Project.py:240 | the fold over a concatenation is the fold over the second part, started from the first part's result |
| Assembly.SpouseNames | SSW555_Group_Project.py:296-312 | every family keeps its key and all fields except the two names, which become the husband's and wife's names or "Unknown" |
| Assembly.SpouseNamesIdempotent | SSW555_Group_Project.py:296-312 | back-filling the names twice is the same as once |
| Assembly.Pipeline | SSW555_Group_Project.py:322-328 | main's stage sequence on values; the result is always idle, and a raise leaves the tables as they stand |
| Assembly.PipelineInvariants | SSW555_Group_Project.py:322-328 | after main's stages, whatever the input, every record sits under its own identifier, the dead have a death date, and a complete run leaves every family with its spouses' names or "Unknown" |
| Assembly.PipelineRaisesOnlyOnDate | SSW555_Group_Project.py:322-328 | when every line has a level and a tag and every entry can be read back, only a DATE entry can stop main |
| Assembly.BrokenHusbandReference | SSW555_Group_Project.py:299-312 | a husband identifier missing from the table yields "Unknown", while the wife's name is still found |
| Entities.Individual.constructor | SSW555_Group_Project.py:76-88 | a new individual has empty fields, is living, has no dates and no pending marker |
| Entities.Individual.Details | SSW555_Group_Project.py:90-112 | the object's fields after the call, and what it raises, are those of Records.IndividualDetails |
| Entities.Individual.ProcessIndividualRecordDateTag | SSW555_Group_Project.py:114-133 | the object's fields after the call, and what it raises, are those of Records.IndividualDate |
| Entities.Individual.SetAge | SSW555_Group_Project.py:135-142 | the object's fields after the call, and what it raises, are those of Records.SetAge |
| Entities.Family.constructor | SSW555_Group_Project.py:13-24 | a new family has empty identifiers and no children, names "TBD" and no dates |
| Entities.Family.Details | SSW555_Group_Project.py:26-45 | the object's fields after the call, and what it raises, are those of Records.FamilyDetails |
| Entities.Family.ProcessFamilyRecordDateTag | SSW555_Group_Project.py:47-63 | the object's fields after the call, and what it raises, are those of Records.FamilyDate |
| Gedcom.GedcomFile.constructor | SSW555_Group_Project.py:160-165 | the object holds the given lines, no output, an empty validated list and empty tables |
| Gedcom.GedcomFile.ValidateTagsForOutput | SSW555_Group_Project.py:176-194 | output gains the rendered entries of LineValidation.Validate, in order, and the method raises as it does |
| Gedcom.GedcomFile.ValidateLine | SSW555_Group_Project.py:179-194 | one loop pass: a blank line adds nothing, a too-short line is reported, any other line appends its rendered entry |
| Gedcom.GedcomFile.EmitLine | SSW555_Group_Project.py:183-194 | appends the one output string its classification renders to |
| Gedcom.GedcomFile.ValidateTagsForExceptions | SSW555_Group_Project.py:196-212 | appends exactly the rendered exception entry of the line |
| Gedcom.GedcomFile.UpdateValidatedList | SSW555_Group_Project.py:214-220 | the validated list gains the entries LineValidation.KeepValid reads from the output, and the method raises as it does |
| Gedcom.GedcomFile.ParseValidatedGedcom | SSW555_Group_Project.py:233-270 | the tables afterwards, and what is raised, are those of Assembly.Assemble over the validated list; every stored object was there before or is new; no object is shared between keys and every record sits under its own identifier |
| Gedcom.GedcomFile.ProcessEntry | SSW555_Group_Project.py:241-270 | one loop pass carries out Assembly.Step on the objects and the flags |
| Gedcom.GedcomFile.OpenRecord | SSW555_Group_Project.py:241-264 | the first half of a loop pass carries out Assembly.Enter: a fresh object under the identifier, or the flags cleared |
| Gedcom.GedcomFile.ApplyDetails | SSW555_Group_Project.py:266-270 | the second half carries out Assembly.Apply on the open object |
| Gedcom.GedcomFile.OpenIndividual | SSW555_Group_Project.py:247-249 | a fresh individual is stored under the key and shares no object with other keys |
| Gedcom.GedcomFile.OpenFamily | SSW555_Group_Project.py:257-259 | a fresh family is stored under the key and shares no object with other keys |
| Gedcom.GedcomFile.DetailsOfOpenIndividual | SSW555_Group_Project.py:267-268 | the individual table changes at the open key only, as Records.IndividualDetails says |
| Gedcom.GedcomFile.DetailsOfOpenFamily | SSW555_Group_Project.py:269-270 | the family table changes at the open key only, as Records.FamilyDetails says |
| Gedcom.GedcomFile.FamilySetSpouseNames | SSW555_Group_Project.py:296-312 | the families become Assembly.SpouseNames of the old tables, and the individuals are unchanged |
| Gedcom.GedcomFile.SetSpouseNamesOf | SSW555_Group_Project.py:299-312 | one family object gets both spouse names, and nothing else changes |
| Gedcom.GedcomFile.ReadStages | SSW555_Group_Project.py:324-326 | validation then the validated list: raises what the first stage raises, else what the second raises, and otherwise holds the entries Assembly's fold reads |
| Gedcom.Ingest | SSW555_Group_Project.py:322-328 | a fresh pipeline object running the four stages in order ends with the tables and the exception of Assembly.Pipeline |
| Gedcom.RenderShape | SSW555_Group_Project.py:192-212 | an entry renders as `<-- ` followed by level, tag, the Y or N flag and the arguments, separated by bars, as the source's f-strings write it |

## Left out

- `read_file` opens a file and strips each line. That is I/O, so the constructor takes the already-stripped lines.
- `print_individuals_pretty`, `print_family_pretty` and both `return_pretty_table_row` methods are output formatting. `main` is modelled without them, and without its fixed file name.
- The unit tests and the second developer's stub file are not part of this model.
- `parse_valid_entry` is a generator that re-reads each validated triple, and its `int()` is the identity on a level that is already an integer. It is folded into the assembly loop.
- `datetime.date.today()` reads the clock. Today's date is a parameter instead.
- The placeholder strings `''`, `'NA'` and `'TBD'` of unset dates and ages are modelled as `None`. The names keep `"TBD"`.
- Dict iteration order in `family_set_spouse_names` is not modelled. Each family is updated independently, so the result does not depend on the order.
- Text.ParseNat reads only plain ASCII digits. Python's `int()` also accepts a sign, underscores between digits, surrounding whitespace and non-ASCII decimal digits. A day or year written like that is reported here as not an integer.
- Dates.MonthNumber folds case on ASCII letters only, in the C locale. Unicode case-insensitive matches of `strptime` (such as a long s) are not modelled.
- LineValidation.ParseEntry reads only an ASCII digit as the last character of the level. Python's `int(level[-1])` also reads any Unicode decimal digit, such as the Arabic-Indic one. An entry whose level ends in such a digit stops the stage here, where the source reads it and goes on.
- The two tables are class-level dictionaries in the source, shared by every `GedcomFile` object and by every run in one process. Here they are fields of one object, which starts with both tables empty. A second `GedcomFile` in the same process, which would see the first one's records, is not modelled.
- Records.SetAge keeps the source's whole 365-day periods. It does not compute calendar age, which differs near birthdays after leap days.
- `list_recent_births`, which the unit tests call, and the list of people living and married, which the second developer's stub tests, are not defined in this code. They are not part of this model.
