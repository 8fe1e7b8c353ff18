# Column type inference of CSVLoader, modelled in Dafny

CSVLoader reads a CSV file into columns of raw strings and infers a type for
each column. Its `TypeInferer` is a total, deterministic classifier from a
column's values to a closed set of field types. This project models that
classifier and proves what it promises.

- `infer` first drops the values that are blank or missing indicators. It then
  tries a fixed chain in which the first match wins: Boolean, ShortInt,
  Integer, LongInt, Float, LocalDateTime, LocalTime, LocalDate, then Text,
  then Category. Every check except Text requires *all* kept values to pass.
  Text asks whether *any* value of the unfiltered column is longer than 250
  characters.
- `dateParser` runs the temporal checks in two phases. Phase 1 keeps the
  catalog formats that parse the first kept value. Phase 2 picks, in catalog
  order, the first of those that parses every kept value. The result carries
  that format's name.
- `inferFieldTypes` maps a list of columns to a list of fields with a loop.

Files:

- `wrappers.dfy`: `Option`.
- `number_parsing.dfy` (module `NumberParsing`): the strict decimal parsing
  behind `Short.parseShort`, `Integer.parseInt` and `Long.parseLong`. A value
  parses when it is an optional `+`/`-` followed by one or more digits, and
  its value lies in the signed 16-, 32- or 64-bit range. The source's
  `isShort`, `isInteger` and `isLong` lambdas (TypeInferer.java lines
  116-153) are the predicates `NumberParsing.IsShort`, `IsInteger` and
  `IsLong`, built on `ParseDecimal`. It also holds a printer `ToDecimal` and
  the round trips in both directions.
- `field_types.dfy` (module `FieldTypes`): `FieldType`, `Column`, `Field` and
  a catalog entry `DateFormat`.
- `date_parser.dfy` (module `DateParsing`): `dateParser`, with a one-pass
  reference search `FirstParsingAll`. It proves the two-phase search equals
  the one-pass search.
- `type_inferer.dfy` (module `TypeInferer`): the filter of lines 42-44
  (`Kept`, `NotEmptyValues`), `infer` and the `inferFieldTypes` loop. The
  `isBoolean` lambda (lines 113-114) is `TypeInferer.IsBoolean`, the
  `isFloat` lambda (lines 135-143) is the `isFloat` parameter, each
  `allMatch` of lines 49-53 is one of `AllBoolean`, `AllShort`,
  `AllInteger`, `AllLong`, `AllFloat`, and the length scan of lines 73-76
  is `TypeInferer.HasLongValue`.
- `inference_properties.dfy` (module `InferenceProperties`): an exact
  characterisation of each result of `infer`, numeric precedence, neutrality
  of missing values, the Text test on the unfiltered column, and worked
  examples.

The values the source reads from its `TypeUtil` class are parameters, in
`TypeInferer.Config`. These are the missing-indicator set, the true and false
token sets, the three format catalogs and the `isNotEmpty` predicate.
`TypeUtil` is not part of this model. The parsers of the Java platform are
also parameters, in `TypeInferer.Parsers`: `Float.parseFloat` and the
`parse` functions of `LocalDateTime`, `LocalTime` and `LocalDate`. Each is
modelled by its boolean outcome.

A column whose values are all blank or missing is `Category`, even when one
of those missing values is longer than 250 characters: the early return at
line 47 comes before the Text test at line 73 (see
`InferenceProperties.NoDataIsCategory`).

## Model

| member | source | states |
|---|---|---|
| NumberParsing.NumericSubsumption | src/main/java/com/scienaptic/csvloader/TypeInferer.java:116-153 | a value accepted by `isShort` is accepted by `isInteger`, and one accepted by `isInteger` is accepted by `isLong` |
| NumberParsing.ParseToDecimal | src/main/java/com/scienaptic/csvloader/TypeInferer.java:116-153 | parsing the decimal spelling of any integer gives back that integer |
| NumberParsing.RangeOfToDecimal | src/main/java/com/scienaptic/csvloader/TypeInferer.java:116-153 | the spelling of n passes `isShort`/`isInteger`/`isLong` exactly when n is in the signed 16/32/64-bit range |
| NumberParsing.PrintParsed | src/main/java/com/scienaptic/csvloader/TypeInferer.java:116-153 | every canonical literal (no `+`, no leading zero, no `-0`) parses, and printing its value gives the literal back |
| NumberParsing.LeadingZeroIgnored | src/main/java/com/scienaptic/csvloader/TypeInferer.java:116-153 | a leading zero does not change the parsed value, as in Java's strict parse |
| NumberParsing.PlusSignIgnored | src/main/java/com/scienaptic/csvloader/TypeInferer.java:116-153 | an explicit `+` does not change the value; an empty string or a lone sign is rejected |
| DateParsing.Candidates | src/main/java/com/scienaptic/csvloader/TypeInferer.java:85-90 | phase 1 keeps exactly the catalog entries under which the first value parses, and no more entries than the catalog has |
| DateParsing.CandidatesConcat | src/main/java/com/scienaptic/csvloader/TypeInferer.java:86-90 | phase 1 keeps catalog order: the survivors of an earlier part of the catalog come before those of a later part |
| DateParsing.FirstParsingAll | src/main/java/com/scienaptic/csvloader/TypeInferer.java:96-98 | the position found parses every value, and no earlier entry parses every value; it equals the catalog length when none does |
| DateParsing.NarrowingKeepsFirst | src/main/java/com/scienaptic/csvloader/TypeInferer.java:86-98 | narrowing to the entries that parse the first value does not change which entry is the first to parse every value |
| DateParsing.DateParser | src/main/java/com/scienaptic/csvloader/TypeInferer.java:81-100 | empty when no entry parses the first value; empty exactly when no entry parses every value; otherwise the name of the earliest entry that parses every value; equal to the one-pass search |
| TypeInferer.NotEmptyValues | src/main/java/com/scienaptic/csvloader/TypeInferer.java:42-44 | a value is kept exactly when it occurs in the column, is not blank and is not a missing indicator |
| TypeInferer.NotEmptyValuesConcat | src/main/java/com/scienaptic/csvloader/TypeInferer.java:42-44 | filtering distributes over concatenation, so the order of values is kept |
| TypeInferer.Infer | src/main/java/com/scienaptic/csvloader/TypeInferer.java:41-79 | every returned type is justified: its check holds of all kept values, a temporal type names a catalog entry that parses all of them, Text has a long value, and any result other than Category has data |
| TypeInferer.InferFieldTypes | src/main/java/com/scienaptic/csvloader/TypeInferer.java:31-39 | one field per column, in order; each field has the column's name and the column's inferred type |
| InferenceProperties.AllSubsumption | src/main/java/com/scienaptic/csvloader/TypeInferer.java:50-52 | a column of 16-bit values is a column of 32-bit values, which is a column of 64-bit values |
| InferenceProperties.KeptNonEmpty | src/main/java/com/scienaptic/csvloader/TypeInferer.java:42-47 | the filtered column is non-empty exactly when some value is neither blank nor missing |
| InferenceProperties.NoDataIsCategory | src/main/java/com/scienaptic/csvloader/TypeInferer.java:42-47 | an empty column, or one with only blank or missing values, is Category |
| InferenceProperties.BooleanIff | src/main/java/com/scienaptic/csvloader/TypeInferer.java:49 | Boolean exactly when the filtered column is non-empty and every filtered value is a true or false token |
| InferenceProperties.BooleanIffRaw | src/main/java/com/scienaptic/csvloader/TypeInferer.java:42-49 | the same, stated on the raw column: some value is kept, and every kept value is a true or false token |
| InferenceProperties.ShortIntIff | src/main/java/com/scienaptic/csvloader/TypeInferer.java:50 | ShortInt exactly when there is data, not all of it is boolean tokens, and every value parses as a 16-bit integer |
| InferenceProperties.IntegerIff | src/main/java/com/scienaptic/csvloader/TypeInferer.java:51 | Integer exactly when there is data, the Boolean and ShortInt checks fail, and every value parses as a 32-bit integer |
| InferenceProperties.LongIntIff | src/main/java/com/scienaptic/csvloader/TypeInferer.java:52 | LongInt exactly when there is data, the Boolean and Integer checks fail, and every value parses as a 64-bit integer |
| InferenceProperties.IntegerRange | src/main/java/com/scienaptic/csvloader/TypeInferer.java:51 | an Integer column has every value within 32-bit range and some value outside 16-bit range |
| InferenceProperties.LongIntRange | src/main/java/com/scienaptic/csvloader/TypeInferer.java:52 | a LongInt column has every value within 64-bit range and some value outside 32-bit range |
| InferenceProperties.FloatIff | src/main/java/com/scienaptic/csvloader/TypeInferer.java:53 | Float exactly when there is data, the Boolean and LongInt checks fail, and every value passes `Float.parseFloat` |
| InferenceProperties.LocalDateTimeIff | src/main/java/com/scienaptic/csvloader/TypeInferer.java:55-59 | LocalDateTime(n) exactly when every earlier check fails and n names the earliest date-time entry that parses every value |
| InferenceProperties.LocalTimeIff | src/main/java/com/scienaptic/csvloader/TypeInferer.java:61-65 | LocalTime(n) exactly when every earlier check fails, no date-time entry fits, and n names the earliest time entry that parses every value |
| InferenceProperties.LocalDateIff | src/main/java/com/scienaptic/csvloader/TypeInferer.java:67-71 | LocalDate(n) exactly when every earlier check fails, no date-time or time entry fits, and n names the earliest date entry that parses every value |
| InferenceProperties.TextIff | src/main/java/com/scienaptic/csvloader/TypeInferer.java:73-76 | Text exactly when there is data, every structured check fails, and some value of the unfiltered column is longer than 250 characters |
| InferenceProperties.CategoryIff | src/main/java/com/scienaptic/csvloader/TypeInferer.java:45-78 | Category exactly when there is no data, or every check fails and no value is longer than 250 characters |
| InferenceProperties.NumericBeatsTemporal | src/main/java/com/scienaptic/csvloader/TypeInferer.java:50-59 | a column of 64-bit integers that are not all boolean tokens is ShortInt, Integer or LongInt, never temporal, Text or Category |
| InferenceProperties.NotEmptyValuesIdempotent | src/main/java/com/scienaptic/csvloader/TypeInferer.java:42-44 | filtering an already filtered column changes nothing |
| InferenceProperties.MissingValuesNeutral | src/main/java/com/scienaptic/csvloader/TypeInferer.java:41-76 | when no dropped value is longer than 250 characters, a column is typed like its kept values alone |
| InferenceProperties.HasLongValueAppend | src/main/java/com/scienaptic/csvloader/TypeInferer.java:73-76 | appending a value makes the column have a long value exactly when the column had one or the appended value is long |
| InferenceProperties.LongMissingValueMakesText | src/main/java/com/scienaptic/csvloader/TypeInferer.java:73-76 | a long missing value turns an otherwise unclassifiable column into Text, since the length test reads the unfiltered column |
| InferenceProperties.ExampleSmallIntegersAreShort | src/main/java/com/scienaptic/csvloader/TypeInferer.java:50 | `["1","2","3"]` is ShortInt |
| InferenceProperties.ExampleBeyondShortIsInteger | src/main/java/com/scienaptic/csvloader/TypeInferer.java:51 | `["40000"]` is Integer |
| InferenceProperties.ExampleBeyondIntIsLong | src/main/java/com/scienaptic/csvloader/TypeInferer.java:52 | `["99999999999"]` is LongInt |
| InferenceProperties.ExampleDateLikeNumbersAreInteger | src/main/java/com/scienaptic/csvloader/TypeInferer.java:50-59 | `["20230101","20230102"]` is Integer, because the numeric checks precede the temporal ones |
| InferenceProperties.ExampleOneBadValueRejectsIntegers | src/main/java/com/scienaptic/csvloader/TypeInferer.java:50-53 | one non-numeric value rejects ShortInt, Integer and LongInt for the whole column, and Float when it is not a float literal |
| InferenceProperties.ExampleMissingTokensIgnored | src/main/java/com/scienaptic/csvloader/TypeInferer.java:42-44 | `["1","","2","NA","3"]` is typed like `["1","2","3"]` when `""` and `"NA"` are missing |

## Left out

- The `logger.info` call that lists the candidate date formats (line 94). It is observability only and never changes the result.
- The grammar of `Float.parseFloat`. It is the `isFloat` parameter.
- The parsing rules of `java.time` (`DateTimeFormatter`, and the `parse` functions of `LocalDate`, `LocalTime` and `LocalDateTime`). Each is a `TemporalParser` parameter that says whether a value parses under a pattern. A formatter is represented by its pattern string.
- The contents of `TypeUtil` (missing indicators, boolean tokens, format catalogs, `isNotEmpty`). They are not part of this model and are taken as the `Config` parameter. Nothing is assumed about them, not even that the true and false sets are disjoint.
- The exceptions in `parseable` and the numeric predicates. The model keeps only their outcome as a `bool`.
- The Scala `FieldTypes.*$.MODULE$` singletons and the constructor references passed to `dateParser`. They become datatype constructors. `DateParsing.DateParser` returns the format name, and `TypeInferer.Infer` applies the constructor.
- NumberParsing.IsShort, IsInteger and IsLong accept only ASCII digits. Java's `Character.digit` also accepts the other Unicode decimal digits, such as full-width digits.
- TypeInferer.HasLongValue counts characters as Unicode scalar values. Java's `String.length()` counts UTF-16 code units, so a string with characters outside the Basic Multilingual Plane can count as longer in Java than here.
- `null` values in a column. Dafny strings cannot be null, so none are modelled.
- The pre-sized `ArrayList` in `inferFieldTypes`. Its capacity does not affect the result, which is modelled as a sequence.
