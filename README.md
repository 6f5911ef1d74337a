# AI Healthcare Backend: symptom checker, document serialisation and schemas

This project models in Dafny the core of a small healthcare backend:

- **The symptom checker** (`symptom_check`, main.py:174-249). It normalises the request's symptoms by stripping and lower-casing them. It scores each rule of a fixed table of eight conditions. Rules scoring zero are dropped and the rest are sorted by score, highest first, with a stable sort. The best five are kept. A risk tier (high, moderate or low) is assigned from red-flag symptoms. The response echoes the request as it was validated.
- **`serialize`** (main.py:37-45). It rewrites a stored document in place before it is returned. `_id` becomes its text and every `datetime` value becomes its ISO text.
- **The request and record schemas** (schemas.py:44-74): `SymptomCheckRequest`, `Patient`, `Appointment` and `Note`. Each one is a validator from a raw field map to the entity or a list of field errors. Each one also has the `model_dump` it pairs with.

Modules, one per file:

| file | module | what it holds |
|---|---|---|
| wrappers.dfy | `Wrappers` | `Option` and `Result` |
| values.dfy | `Values` | the Python values a request body or stored document holds |
| text.dfy | `Text` | `str.strip()`, `str.lower()`, per-symptom normalisation |
| schemas.dfy | `Schemas` | the four schemas: validators, dumps, field rules |
| rules.dfy | `SymptomRules` | the rule table and the scoring of one rule and of the table |
| ranking.dfy | `Ranking` | the stable descending sort by score and the top-five cut |
| symptom_check.dfy | `SymptomCheck` | the handler as a method with its scoring loop, its specification `Evaluate`, risk and scenario lemmas |
| serialize.dfy | `Serialization` | the document class and the in-place `Serialize` method |

The handler is the method `SymptomCheck.SymptomCheck`. It is proved equal to the function `SymptomCheck.Evaluate`. Its scoring loop is the method `SymptomCheck.ScoreRules`, and that loop is proved to build `SymptomRules.Scored`.

`list.sort` is a library call. It is modelled by `Ranking.SortByScore`, an insertion sort. That sort is proved to be sorted, to be a permutation of its input and to be stable. It is also proved unique: any other sequence that is sorted and stable is equal to it.

Python's `str()` of a value, `datetime.isoformat()`, the `EmailStr` check and date/datetime parsing are library code. They are parameters of the members that use them.

## Model

| member | source | states |
|---|---|---|
| Text.LowerChar | main.py:176 | the lower-case form of a character is not upper case; an ASCII capital moves to its small letter; anything else is unchanged |
| Text.TrimStart | main.py:176 | `lstrip()`: the result is a suffix of the input, everything removed is white space, and the result does not start with white space |
| Text.TrimEnd | main.py:176 | `rstrip()`: the result is a prefix of the input, everything removed is white space, and the result does not end with white space |
| Text.Lower | main.py:176 | `lower()`: same length, no upper-case letter left, each ASCII capital moved to its small letter and every other character kept in place |
| Text.Strip | main.py:176 | `strip()`: never longer than the input, no white space at either end, and a string with none at its ends is unchanged |
| Text.Normalize | main.py:176 | `s.strip().lower()` has no white space at either end |
| Text.NormalizeAll | main.py:176 | the comprehension keeps the length and order of the list: entry `i` of the result is the normal form of entry `i` of the request |
| Text.LowerKeepsSpace | main.py:176 | lower-casing a character neither creates nor removes white space |
| Text.LowerOfTrimmed | main.py:176 | lower-casing keeps a trimmed symptom trimmed |
| Text.LowerIdempotent | main.py:176 | lower-casing twice is lower-casing once |
| Text.NormalizeIdempotent | main.py:176 | normalising an already normalised symptom changes nothing |
| Text.NormalizeShape | main.py:176 | a normalised symptom has no upper-case ASCII letter |
| Text.NormalizeFixed | main.py:176 | a symptom that is trimmed and has no upper-case letter is its own normal form |
| Text.NormalizeCapitalised | main.py:176 | a trimmed symptom whose only capital is its first letter normalises to the same text with that letter lower-cased |
| Text.StripPadded | main.py:176 | one space on each side of a trimmed, non-empty symptom is stripped away |
| Text.FeverCapitalised | main.py:176 | "Fever" normalises to "fever" |
| Text.FeverPlain | main.py:176 | "fever" normalises to itself |
| Text.ChillsPadded | main.py:176 | " chills " normalises to "chills" |
| Text.ChillsPlain | main.py:176 | "chills" normalises to itself |
| Text.NormalizeAllPair | main.py:176 | a two-symptom list normalises to the normal forms of its two symptoms, in order |
| Text.MixedCaseAndPadding | main.py:176 | ["Fever", " chills "] and ["fever", "chills"] normalise to the same list, ["fever", "chills"] |
| SymptomRules.Overlap | main.py:225 | the overlap count never exceeds the number of request symptoms |
| SymptomRules.AnyContribution | main.py:224-226 | `min(2, overlap)`: at most 2 and at most the overlap, and equal to the overlap unless it is 2 |
| SymptomRules.AllContribution | main.py:227-229 | 0 or 2, and 2 exactly when every listed symptom is in the request |
| SymptomRules.RuleScore | main.py:222-229 | a rule scores at most 4, and scores 0 exactly when none of its `match_any` symptoms is present (or it has no such list) and one of its `match_all` symptoms is missing (or it has no such list) |
| SymptomRules.Kept | main.py:230-231 | a rule adds at most one match, adds one exactly when it scores more than 0, and that match carries the rule's condition, its advice and its score |
| SymptomRules.Scored | main.py:221-231 | the match list has no more entries than there are rules |
| SymptomRules.ScoredTable | main.py:178-231 | the matches for the table are the kept matches of the eight rules, concatenated in table order |
| SymptomRules.OverlapZero | main.py:225 | the overlap is 0 exactly when no request symptom is in the rule's `match_any` list |
| SymptomRules.OverlapAppend | main.py:225 | the overlap of two concatenated symptom lists is the sum of their overlaps |
| SymptomRules.OverlapCountsDuplicates | main.py:225 | duplicates count: a symptom list repeated twice has twice the overlap |
| SymptomRules.OverlapOrderFree | main.py:225 | the overlap depends only on the multiset of request symptoms, not on their order |
| SymptomRules.OverlapPair | main.py:225 | the overlap of two symptoms is the number of them, counted with repetition, that are in the list |
| SymptomRules.AnyContributionCases | main.py:224-226 | a `match_any` contribution is at most 2; it is 0 exactly when no symptom is in the list and 2 exactly when the overlap is at least 2 |
| SymptomRules.AllContributionCases | main.py:227-229 | a `match_all` contribution is 0 exactly when one of the listed symptoms is missing |
| SymptomRules.ScoredMembers | main.py:221-231 | a match is listed exactly when it is the match of some rule of the table that scores more than 0 |
| SymptomRules.ScoredPositive | main.py:230-231 | every listed match scores more than 0 |
| SymptomRules.ScoredEmptyWhenNothingScores | main.py:230-231 | when no rule scores, the match list is empty |
| SymptomRules.TableShape | main.py:178-219 | no rule of the table has both a `match_any` and a `match_all` list, and none has neither |
| SymptomRules.TableScoresAtMostTwo | main.py:178-231 | every rule of the table scores at most 2 |
| SymptomRules.TableMatchesScoreOneOrTwo | main.py:178-231 | every listed match scores 1 or 2 |
| SymptomRules.NoSymptomsNoMatches | main.py:221-231 | no symptoms give no matches |
| Ranking.WithScore | main.py:233 | the entries picked out for a score are no more than the whole list, and each has that score |
| Ranking.Take | main.py:247 | `[:n]`: the prefix of the list whose length is the smaller of `n` and the list's length |
| Ranking.InsertAtMost | main.py:233 | inserting keeps every score below a bound that holds for all entries |
| Ranking.DescendingCons | main.py:233 | an entry that scores at least as much as a descending list can go in front of it |
| Ranking.InsertDescending | main.py:233 | inserting into a descending list keeps it descending |
| Ranking.InsertPermutes | main.py:233 | inserting adds exactly the new entry to the multiset of entries |
| Ranking.InsertWithScore | main.py:233 | inserting puts the new entry in front of the entries with its score and changes no other score's entries |
| Ranking.SortByScoreSortsAndPermutes | main.py:233 | the sort's result is ordered by score, highest first, and is a permutation of its input |
| Ranking.SortByScoreIsStable | main.py:233 | stability: for every score, the entries with that score keep their input order |
| Ranking.WithScoreNonEmpty | main.py:233 | a list with an entry of some score has entries with that score |
| Ranking.WithScoreMembers | main.py:233 | the entries picked out for a score are entries of the list |
| Ranking.DescendingTail | main.py:233 | the tail of a descending list is descending |
| Ranking.HeadScoresAgree | main.py:233 | two descending lists with the same entries per score start with the same score |
| Ranking.HeadNotBelow | main.py:233 | the head of a descending list scores at least as much as the head of any list with the same entries per score |
| Ranking.DescendingDeterminedByScores | main.py:233 | two descending lists with the same entries per score, in the same order, are equal |
| Ranking.StableSortUnique | main.py:233 | any descending list with the input's entries per score, in input order, is the sort's result; so the sort is the stable descending sort |
| Ranking.TakeDescending | main.py:233-247 | the top five of a descending list are descending |
| Ranking.TakeKeepsBest | main.py:233-247 | an entry cut off never scores more than an entry kept |
| SymptomCheck.ScoreRules | main.py:221-231 | the scoring loop, with its running `score` and `matches`, builds exactly the table-order match list `Scored` |
| SymptomCheck.SymptomCheck | main.py:174-249 | the handler returns `Evaluate(req)`: the echoed request and the constant guidance, at most five conditions, in descending order of score, each scoring 1 or 2, and the risk tier of the normalised symptoms |
| SymptomCheck.Evaluate | main.py:174-249 | the response echoes the dump of the request and the constant guidance, and lists at most five conditions, in descending order of score, each scoring 1 or 2 |
| SymptomCheck.ConditionsShape | main.py:221-247 | the first five of the sorted table matches are at most five, in descending order of score, and each scores 1 or 2 |
| SymptomCheck.EvaluateListsBestRules | main.py:221-247 | a rule that scores but is not listed was cut because five conditions are listed, and each of them scores at least as much as it |
| SymptomCheck.ListedAreScoredRules | main.py:221-247 | every listed condition is the match of a table rule that scores more than 0 |
| SymptomCheck.EvaluateEchoesInput | main.py:245 | `input` is the dump of the request as given, not the normalised symptoms, and validating it gives the request back |
| SymptomCheck.TopFiveOfAnyStableSort | main.py:233-247 | the listed conditions are the first five of any list that is ordered by score, highest first, and holds for each score the table's matches with that score in table order: the result does not depend on how the stable sort is carried out |
| SymptomCheck.HighRiskWins | main.py:236-238 | the risk is high exactly when "chest pain" or "severe shortness of breath" is present, whatever else is present |
| SymptomCheck.ModerateRisk | main.py:239-240 | the risk is moderate exactly when no high trigger is present and "shortness of breath", "high fever" or "bloody stool" is |
| SymptomCheck.LowRisk | main.py:236-240 | the risk is low exactly when no trigger of either tier is present |
| SymptomCheck.EmptySymptoms | main.py:221-247 | an empty symptom list gives no likely conditions and a low risk |
| SymptomCheck.SoreThroatAndFever | main.py:174-249 | ["sore throat", "fever"] gives Strep Throat (2), then Common Cold, Influenza (Flu) and COVID-19 (1 each), in table order, and a low risk |
| SymptomCheck.SoreThroatAndFeverMatches | main.py:178-231 | for ["sore throat", "fever"] the match list before sorting is Common Cold, Influenza (Flu), COVID-19 (1 each) and Strep Throat (2) |
| SymptomCheck.SoreThroatAndFeverScores | main.py:178-231 | the score of each of the eight rules for ["sore throat", "fever"] |
| SymptomCheck.SortStep | main.py:233 | sorting one more entry in front of a list places it right behind the sorted head when it scores less than the head and no less than the next entry |
| SymptomCheck.SortOnesBeforeTwo | main.py:233 | three entries scoring 1 followed by one scoring 2 sort to the 2 first and then the three 1s in their order |
| SymptomCheck.FeverTwice | main.py:174-249 | ["fever", "fever"] gives Influenza (Flu) and COVID-19 with score 2 each: the overlap counts the duplicate |
| SymptomCheck.FeverTwiceMatches | main.py:178-231 | for ["fever", "fever"] the match list is Influenza (Flu) (2) and COVID-19 (2) |
| SymptomCheck.CaseAndSpaceInsensitive | main.py:176 | ["Fever", " chills "] and ["fever", "chills"] give the same conditions and the same risk |
| Schemas.Problems | schemas.py:44-74 | a field contributes no error exactly when it is valid, and otherwise one error naming the field and its kind |
| Schemas.RequiredStr | schemas.py:46 | `str = Field(...)`: valid exactly when present and a string, whose value it is; otherwise missing or wrong type |
| Schemas.StrOr | schemas.py:60 | `str = Field(default)`: valid when absent (the default) or a string (its value); otherwise wrong type |
| Schemas.OptionalStr | schemas.py:72 | `Optional[str] = None`: valid exactly when absent, null or a string, and the value is none for absent or null and the string otherwise; otherwise wrong type |
| Schemas.StrListField | schemas.py:51-53 | `List[str]`: valid exactly when present as a list of strings, whose strings it keeps in order, or absent when not required (then empty); otherwise missing or wrong type |
| Schemas.RequiredIntIn | schemas.py:71 | `int = Field(..., ge, le)`: valid exactly when present as an integer in range, whose value it is; otherwise missing, wrong type or out of range |
| Schemas.OptionalIntAtLeast | schemas.py:74 | `Optional[int] = Field(default, ge)`: valid when absent (the default, unchecked), null (none) or an integer at least the bound (its value); otherwise out of range or wrong type |
| Schemas.OptionalEmail | schemas.py:47 | `Optional[EmailStr] = None`: valid exactly when absent, null, or a string the email validator accepts; the value kept is the validator's normalised address; otherwise invalid format or wrong type |
| Schemas.OptionalDate | schemas.py:49 | `Optional[date] = None`: valid exactly when absent, null, a date or text that parses as a date, and the value is that date (none for absent or null); otherwise invalid format or wrong type |
| Schemas.RequiredDateTime | schemas.py:58 | `datetime = Field(...)`: valid exactly when present as a datetime or as text that parses as one, and the value is that datetime; otherwise missing, invalid format or wrong type |
| Schemas.Strings | schemas.py:51-53 | a list value is a `List[str]` exactly when every item is a string, and the strings are its items in order |
| Schemas.StringsOfStrList | schemas.py:51-53 | the dump of a string list reads back as the same list |
| Schemas.ValidateSymptomCheckRequest | schemas.py:70-74 | an accepted request has an integer age in 0..120 taken from the body and a string-list `symptoms` from the body; `sex` is the body's string or none; `duration_days` is 1 when absent, none when null, else the body's integer; a rejection names at least one error, and only fields of the schema |
| Schemas.DumpRequest | schemas.py:70-74 | `model_dump()` holds exactly the four declared fields, with the age and the symptom list as given |
| Schemas.RequestRoundTrip | schemas.py:70-74 | validating the dump of a valid request gives the request back |
| Schemas.AgeOutOfRangeRejected | schemas.py:71 | an out-of-range error on `age` is reported exactly when `age` is an integer outside 0..120 |
| Schemas.RequestRequiredFields | schemas.py:71-73 | a missing-field error on `age` (on `symptoms`) is reported exactly when that field is absent |
| Schemas.DurationRule | schemas.py:74 | an out-of-range error on `duration_days` is reported exactly when it is a negative integer |
| Schemas.RequestErrors | schemas.py:70-74 | the errors of a request body are the problems of its four fields, in declaration order |
| Schemas.RequestAccepted | schemas.py:70-74 | a body is accepted exactly when `age` is an integer in 0..120, `symptoms` a list of strings, `sex` absent, null or a string, and `duration_days` absent, null or a non-negative integer |
| Schemas.RequestIgnoresExtraFields | schemas.py:70-74 | fields outside the schema do not change the outcome |
| Schemas.Age150Rejected | schemas.py:71 | a request of age 150 is rejected with exactly one error, age out of range |
| Schemas.EmptySymptomsAccepted | schemas.py:73-74 | an empty symptom list is accepted, with no sex and a duration of 1 |
| Schemas.ValidatePatient | schemas.py:44-53 | an accepted patient has the body's string `name`; its email is the validator's normal form of the body's text, or none; `phone` and `gender` are the body's strings, or none when absent or null; `dob` is the body's date, the parse of its text, or none when absent or null; each list is the body's string list, or empty when absent; a rejection names at least one error, and only fields of the schema |
| Schemas.DumpPatient | schemas.py:44-53 | `model_dump()` holds exactly the eight declared fields, with the name as given |
| Schemas.PatientRoundTrip | schemas.py:44-53 | validating the dump of a valid patient gives the patient back |
| Schemas.PatientFromFields | schemas.py:44-53 | a patient is accepted when each of its fields validates, and is made of those values |
| Schemas.PatientMinimal | schemas.py:46-53 | a body holding only an empty `name` is accepted, with every other field at its default |
| Schemas.PatientEmailRule | schemas.py:47 | an email-format error is reported exactly when `email` is a string the email validator refuses |
| Schemas.PatientProblems | schemas.py:44-53 | a patient's field problems are empty exactly when all eight fields are valid, and each names a field of the schema |
| Schemas.PatientErrors | schemas.py:44-53 | the errors of a patient body are the problems of its eight fields, in declaration order |
| Schemas.PatientDumpRevalidates | schemas.py:44-53 | when the email validator accepts its own normalised output, the dump of an accepted patient validates to that same patient |
| Schemas.PatientIgnoresExtraFields | schemas.py:44-53 | fields outside the schema do not change the outcome |
| Schemas.ValidateAppointment | schemas.py:55-60 | an accepted appointment has the body's string `patient_id` and `reason`; `scheduled_at` is the body's datetime or the parse of its text; `status` is the body's string, or "scheduled" when absent; a rejection names at least one error, and only fields of the schema |
| Schemas.DumpAppointment | schemas.py:55-60 | `model_dump()` holds exactly the four declared fields, with `scheduled_at` still a datetime |
| Schemas.AppointmentRoundTrip | schemas.py:55-60 | validating the dump of an appointment gives the appointment back |
| Schemas.AppointmentAnyStatus | schemas.py:60 | any status string is accepted, not only the three documented ones |
| Schemas.AppointmentRequiredFields | schemas.py:57-59 | a missing-field error on `patient_id`, `scheduled_at` or `reason` is reported exactly when that field is absent |
| Schemas.AppointmentErrors | schemas.py:55-60 | the errors of an appointment body are the problems of its four fields, in declaration order |
| Schemas.AppointmentAccepted | schemas.py:55-60 | a body is accepted exactly when `patient_id` and `reason` are strings, `scheduled_at` is a datetime or text that parses as one, and `status` is absent or a string |
| Schemas.AppointmentIgnoresExtraFields | schemas.py:55-60 | fields outside the schema do not change the outcome |
| Schemas.ValidateNote | schemas.py:62-67 | an accepted note has the body's string `patient_id` and `content`; `author` is the body's string, or none when absent or null; `tags` is the body's string list, or empty when absent; a rejection names at least one error, and only fields of the schema |
| Schemas.DumpNote | schemas.py:62-67 | `model_dump()` holds exactly the four declared fields, with `author` none or the author's text |
| Schemas.NoteRoundTrip | schemas.py:62-67 | validating the dump of a note gives the note back |
| Schemas.NoteRequiredFields | schemas.py:64-65 | a missing-field error on `patient_id` or `content` is reported exactly when that field is absent |
| Schemas.NoteErrors | schemas.py:62-67 | the errors of a note body are the problems of its four fields, in declaration order |
| Schemas.NoteAccepted | schemas.py:62-67 | a body is accepted exactly when `patient_id` and `content` are strings, `author` is absent, null or a string, and `tags` is absent or a list of strings |
| Schemas.NoteIgnoresExtraFields | schemas.py:62-67 | fields outside the schema do not change the outcome |
| Serialization.IsoEntry | main.py:42-44 | a `datetime` becomes its ISO text; any other value is kept; no `datetime` is left |
| Serialization.Serialized | main.py:37-45 | an empty document is unchanged; otherwise the keys are the old keys plus `_id`, `_id` is the text of the old id (of None when absent), every other `datetime` becomes its ISO text, every other value is unchanged, and no `datetime` is left |
| Serialization.SerializedIdempotent | main.py:37-45 | serialising twice is serialising once, when `str` returns a string unchanged |
| Serialization.SerializedFixed | main.py:37-45 | a document whose `_id` is already its text and that holds no `datetime` is left as it is |
| Serialization.Serialize | main.py:37-45 | returns the same document; a None or empty document is untouched; any other is rewritten in place to `Serialized` of its old entries, whatever order the keys are visited in |

## Left out

- FastAPI routing, CORS middleware, HTTP status codes and `HTTPException` (main.py:17-25, 48-170): transport plumbing. A validation failure is a `Result` error here, not a 422 response.
- The `database` module and the document-store calls (`create_document`, `get_documents`, `find_one`, `insert_one`, `find().sort()`, the `$regex` search): foreign calls into a store. So the patient, appointment and note endpoints are not modelled, including the patient-existence check in `create_appointment`/`create_note`; `serialize` is modelled on the document they return.
- `oid` and bson `ObjectId` parsing (main.py:12-15, 30-34): library behaviour. An `ObjectId` is only a value kind here.
- `/test` diagnostics, `/schema` (`model_json_schema`) and the `uvicorn` start-up: environment probing and library internals.
- `datetime.utcnow()` stamping of `created_at`/`updated_at`: wall-clock time.
- `EmailStr` syntax and normalisation (stripping, display names, lower-casing the domain), date and datetime parsing, `str()` of a value and `datetime.isoformat()`: library code, passed in as functions (`Schemas.Parsers`, and the `str`/`iso` parameters of `Serialization.Serialize`).
- The `User` and `Product` example schemas (schemas.py:20-40): unused by the application.
- `Text.LowerChar`: lower-cases ASCII letters only, not Python's full Unicode case mapping. `str.strip()` is modelled with Python's complete white-space set.
- Pydantic's lax coercions, for example a numeric string for an `int` field or an integer-valued float: an `int` field needs an integer value and a `str` field needs a string. Errors are reported as one `FieldError` per field, without pydantic's messages and locations.
- Dictionary key order: `Serialization.Document` holds a `map`, so the position at which a newly added `_id` key lands in the `dict` is not modelled.
- `datetime` and `date` values are records of their fields; calendar validity is not checked. `Values.Instant` has no `tzinfo`: a timezone offset in a parsed `scheduled_at` is not represented.
- `Schemas.PatientRoundTrip`: needs the patient's email to be a fixed point of the email validator; an accepted patient's dump revalidates to it only when the validator accepts its own output (`Schemas.PatientDumpRevalidates`).
- `Text.Strip`: its own contract states what `strip()` leaves (no white space at either end, no change to a trimmed string); what it removes is stated by the contracts of `Text.TrimStart` and `Text.TrimEnd`, of which it is the composition.
- `Text.Normalize`: its contract states that the result is trimmed; that it has no capital is `Text.NormalizeShape`, and its value on trimmed inputs is `Text.NormalizeFixed` and `Text.NormalizeCapitalised`.
- `Ranking.SortByScore`: the built-in `list.sort` is modelled by its specification, a stable descending insertion sort, not by Timsort.
- `SymptomCheck.SymptomCheck` returns a record, not the JSON dictionary; each likely condition is a `Match` record with the same three fields.
- The required `name` of `Patient`, `reason` of `Appointment` and `content` of `Note` are presence checks only. The schemas set no minimum length, so an empty string is accepted (`Schemas.PatientMinimal`), although these fields are documented as non-empty.
