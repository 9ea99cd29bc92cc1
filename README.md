# Student-Enquire admission portal — a Dafny model of its core

The portal registers applicants for UG and PG admission. A React form
validates the applicant's answers with a Zod schema and a `superRefine`
decision tree, derives the cutoff from the three HSC marks, strips the
fields of abandoned branches and posts the record. An Express route stores it
in a document store, overwriting the age with one derived from the date of
birth and attaching a daily token (101, 102, ... per day) taken from a
counter in a transaction. Further routes count views, merge updates,
delete records and lay out a receipt for a Bluetooth print app. The list
view recomputes the cutoff when a record is edited, filters records by a
search term and shows the visit and update counters.

The model is six modules:

- `Js` (`js.dfy`): the JavaScript values the code handles (`undefined`,
  `null`, booleans, numbers, NaN, strings), truthiness, `||`, `+ 1`,
  `Number(...)` on strings, what `JSON.stringify` drops, ASCII
  `toLowerCase`/`toUpperCase` and `includes`.
- `Fields` (`fields.dfy`): the properties of a student document as an
  enumeration, with their wire names; records are maps from it to values,
  so every object spread of the source is a map union.
- `StudentForm` (`student_form.dfy`): `Validate`, the schema plus its
  refinement as a function to a list of issues; `CutoffEffect`, the effect
  that sets the cutoff; `Normalize`, the record `onSubmit` posts.
- `StudentsRoute` (`students_route.dfy`): the class `Route` holding
  the `students` collection and the daily counters, with methods `Post`,
  `View`, `Update`, `Delete` and `Print`, and the functions that specify
  them (age, next token, stored record, update data, receipt lines).
- `StudentList` (`student_list.dfy`): `HandleUpdate`, the search `Filter`
  and the displayed counters.
- `Lifecycle` (`lifecycle.dfy`): properties that span the components.

Clock readings, the date-of-birth parse, the ids the store assigns and the
failures of store calls are parameters: `today` (local calendar date),
`dateKey` (the UTC `YYYY-MM-DD` of `toISOString`), `birth` (what
`new Date(dob)` reads, `None` for an invalid date), `newId`, `createdAt`,
`updatedAt`, `localDate` and `fault`.

Where the code behaves differently from what one might expect of such a
portal, the model follows the code:

- Issues accumulate instead of stopping at the first failure: the
  refinement runs even when a length or pattern check failed, the three
  mark checks all run, and the PG degree and status checks both run.
- The exception is a register number that was never shown. Its input sits
  inside the qualification, board and PG sections and it has no default,
  so on a fresh form it is undefined. Zod then reports it as "Required"
  and aborts the object, so the refinement does not run at all: a UG form
  without a qualification, or HSC without a board, reports no
  qualification or board issue until a register number input has been
  shown.
- The date of birth is never required, also not for Matric or CBSE.
- A mark or percentage that `Number` cannot read is not a validation error;
  NaN is posted and travels as `null`.
- The token fallback is a truthiness test: a stored `last_token` of 0 gives
  101, not 1.
- The stored age can be `null` (no date of birth) or NaN (an unreadable
  date), and it replaces any age the client sent.

## Model

| member | source | states |
|---|---|---|
| Fields.PropertyNameInjective | client/src/types/index.ts:1-37 | distinct document fields have distinct property names, so records keyed by field are records keyed by property name |
| StudentForm.SchemaIssues | client/src/components/StudentForm.tsx:9-14 | definition of the per-field checks, with lengths in UTF-16 code units as `.min` counts them; their properties are stated by CommonFieldsAlwaysChecked, NameLengthInCharacters, ContactAccepted and UndefinedRegisterNumber |
| StudentForm.RefineIssues | client/src/components/StudentForm.tsx:33-75 | definition of the `superRefine` decision tree; its properties are stated by UgWithoutQualification, HscWithoutBoard, MarksAccumulate, PercentageRequirement, PgRequirements and RefineNeverRepeatsSchema |
| StudentForm.Validate | client/src/components/StudentForm.tsx:9-75 | definition of the resolver's issue list (field issues, then the refinement's unless the object was aborted); its properties are stated by RefinementIssue, UndefinedRegisterNumber, CommonFieldsAlwaysChecked, DobNeverChecked and PgRequirements |
| StudentForm.RefinementIssue | client/src/components/StudentForm.tsx:12-75 | a branch issue is reported iff the register number is defined and the refinement reports it, whatever the length and pattern checks found |
| StudentForm.UndefinedRegisterNumber | client/src/components/StudentForm.tsx:12 | an undefined register number is reported with the message "Required", and then only field issues are reported |
| StudentForm.ClassRunIff | client/src/components/StudentForm.tsx:13 | the `[\d\s-]{10,}$` tail matches iff at least ten characters remain and each is a digit, white space or '-' |
| StudentForm.ContactAccepted | client/src/components/StudentForm.tsx:13 | a contact number is accepted iff after an optional leading '+' there are at least ten characters, each a digit, white space or '-' |
| StudentForm.CommonFieldsAlwaysChecked | client/src/components/StudentForm.tsx:10-14 | whatever the course type, the name issue is reported iff the name is shorter than two UTF-16 code units, and the register number (undefined or empty), contact and age issues each iff their own rule fails |
| StudentForm.NameLengthInCharacters | client/src/components/StudentForm.tsx:10 | a name is too short iff it is empty or a single character of the Basic Multilingual Plane, so one emoji is long enough |
| StudentForm.RefineNeverRepeatsSchema | client/src/components/StudentForm.tsx:33-75 | the refinement reports only branch issues, never a per-field schema issue |
| StudentForm.DobNeverChecked | client/src/components/StudentForm.tsx:21 | changing the date of birth changes no issue, and no issue has the path `dob` |
| StudentForm.UgWithoutQualification | client/src/components/StudentForm.tsx:35-39 | UG without a qualification gets exactly one refinement issue, on `qualification`, which is reported only when the register number is defined |
| StudentForm.HscWithoutBoard | client/src/components/StudentForm.tsx:41-45 | UG/HSC without a board gets exactly one refinement issue, on `board`, which is reported only when the register number is defined |
| StudentForm.MarksAccumulate | client/src/components/StudentForm.tsx:47-52 | Matric/CBSE with a declared result gets one issue per missing mark (0 to 3), and none when the result is not declared |
| StudentForm.PercentageRequirement | client/src/components/StudentForm.tsx:53-59 | for UG the percentage issue is reported iff the percentage is empty and the board is Other, or the qualification is Diploma with a declared result |
| StudentForm.PgRequirements | client/src/components/StudentForm.tsx:63-73 | with a defined register number, PG reports a missing degree and a missing status independently; Completed needs percentage or CGPA; Pursuing needs neither |
| StudentForm.Cutoff | client/src/components/StudentForm.tsx:115 | definition of the cutoff formula; its properties are stated by CutoffMonotone, CutoffEffectSpec, SubmittedCutoff and StudentList.EditedCutoffFormula |
| StudentForm.CutoffMonotone | client/src/components/StudentForm.tsx:115 | raising a mark never lowers the cutoff, a maths mark weighs twice a physics or chemistry mark, and physics and chemistry are interchangeable |
| StudentForm.CutoffEffect | client/src/components/StudentForm.tsx:109-122 | definition of the effect; its properties are stated by CutoffEffectSpec |
| StudentForm.CutoffEffectSpec | client/src/components/StudentForm.tsx:109-122 | the cutoff is set to maths + (physics + chemistry) / 2 only when all three marks are entered and numeric; a missing mark clears the shown cutoff and keeps the form's value; a non-numeric one changes nothing |
| StudentForm.BaseData | client/src/components/StudentForm.tsx:137-144 | definition of the base object; its properties are stated by NormalizeBase |
| StudentForm.UgData | client/src/components/StudentForm.tsx:148-169 | definition of the UG assignments; their properties are stated by SchoolBoardKeys, OtherBoardKeys, DiplomaKeys and SubmittedCutoff |
| StudentForm.PgData | client/src/components/StudentForm.tsx:170-177 | definition of the PG assignments; their properties are stated by PgKeys and ValidPgSubmission |
| StudentForm.Normalize | client/src/components/StudentForm.tsx:137-177 | definition of the submitted object; its properties are stated by NormalizeBase, BranchOwnsNoBaseField, the four key-set lemmas, NoServerField and SubmissionWellFormed |
| StudentForm.BranchOwnsNoBaseField | client/src/components/StudentForm.tsx:148-177 | a branch adds only course-specific fields and the percentage, never a base field |
| StudentForm.NormalizeBase | client/src/components/StudentForm.tsx:137-146 | every submission carries name, numeric age, course type, register number, contact and `update_count` 1 |
| StudentForm.SchoolBoardKeys | client/src/components/StudentForm.tsx:150-160 | Matric/CBSE posts exactly the base fields, qualification, board, dob and result flag, plus marks and cutoff iff the result is declared |
| StudentForm.OtherBoardKeys | client/src/components/StudentForm.tsx:161-163 | any other board posts exactly the base fields, qualification, board and percentage |
| StudentForm.DiplomaKeys | client/src/components/StudentForm.tsx:164-169 | a Diploma posts exactly the base fields, qualification and result flag, plus the percentage iff the result is declared |
| StudentForm.PgKeys | client/src/components/StudentForm.tsx:170-177 | PG posts exactly the base fields, degree and status, plus a filled-in percentage or CGPA only when Completed |
| StudentForm.SubmissionWellFormed | client/src/components/StudentForm.tsx:137-177 | a submission uses only the form's own property names, so the posted object is a well-formed record |
| StudentForm.NoServerField | client/src/components/StudentForm.tsx:137-177 | a submission never carries a field the server writes (id, counters, timestamps, health, token) |
| StudentForm.ValidUgSubmission | client/src/components/StudentForm.tsx:148-163 | on a valid UG form the qualification, and for HSC the board, survive JSON encoding; an Other-board percentage comes from a non-empty entry |
| StudentForm.ValidPgSubmission | client/src/components/StudentForm.tsx:170-172 | on a valid PG form a non-empty degree and the status survive JSON encoding |
| StudentForm.SubmittedCutoff | client/src/components/StudentForm.tsx:155-159 | with numeric marks P, C, M the submission carries the three marks and the cutoff M + (P + C) / 2 |
| Js.ParseNumeral | client/src/components/StudentForm.tsx:139 | definition of `Number` on a string; its properties are stated by IntegerNumber and BlankNumber |
| Js.ToNumber | client/src/components/StudentForm.tsx:111-113 | definition of `Number`; its properties are stated by IntegerNumber and BlankNumber |
| Js.Utf16Length | client/src/components/StudentForm.tsx:10-14 | a string's JavaScript length lies between its number of characters and twice that, and is 0 only for the empty string |
| Js.Utf16LengthOfBmp | client/src/components/StudentForm.tsx:10-14 | on text within the Basic Multilingual Plane the JavaScript length is the number of characters |
| Js.AstralCharLength | client/src/components/StudentForm.tsx:10 | a character outside the Basic Multilingual Plane has JavaScript length 2 |
| Js.IntegerNumber | client/src/components/StudentForm.tsx:139 | a string of decimal digits reads as the integer it spells |
| Js.BlankNumber | client/src/components/StudentForm.tsx:139 | an empty or all-white-space string reads as 0 |
| Js.ToJson | client/src/api/studentApi.ts:27 | undefined properties are dropped, NaN arrives as null, every other property arrives unchanged, and nothing is added |
| Js.IncludesIffOccurs | client/src/components/StudentList.tsx:74-75 | `includes` holds iff the term occurs at some position of the text |
| StudentsRoute.AgeOn | server/src/routes/students.ts:35-39 | the age is the number of birthdays reached by today: the last one reached and the next one not |
| StudentsRoute.AgeValue | server/src/routes/students.ts:30-40 | the stored age is null iff there is no date of birth, the completed years for a readable date, NaN otherwise |
| StudentsRoute.StoredAge | server/src/routes/students.ts:30-40 | the route's step-by-step age computation yields `AgeValue` |
| StudentsRoute.NextToken | server/src/routes/students.ts:46-58 | the token is 101 without a counter or with `last_token` 0, else `last_token + 1` |
| StudentsRoute.TokensContinue | server/src/routes/students.ts:49-61 | from a positive counter c the next n tokens are c+1 .. c+n in order |
| StudentsRoute.TokensStartAt101 | server/src/routes/students.ts:46-62 | a day without a counter hands out 101 .. 100+n in order |
| StudentsRoute.Rejection | server/src/routes/students.ts:13-69 | definition of the refusal order; its properties are stated by RejectionCases and Lifecycle.ValidFormPassesRouteChecks |
| StudentsRoute.RejectionCases | server/src/routes/students.ts:13-69 | a registration goes ahead iff there is a student with a truthy register number no stored record holds, and neither the query nor the transaction fails; a duplicate is refused |
| StudentsRoute.Registration | server/src/routes/students.ts:71-80 | definition of the stored document; its properties are stated by RegistrationFields, RegistrationToken and RegistrationWellFormed |
| StudentsRoute.RegistrationWellFormed | server/src/routes/students.ts:71-80 | the stored document of a well-formed body is well-formed |
| StudentsRoute.RegistrationFields | server/src/routes/students.ts:72-80 | the stored record keeps every submitted field except id, created_at, health, age, token_number and token_date, which the server sets (health defaulting to null) |
| StudentsRoute.RegistrationToken | server/src/routes/students.ts:78-79 | the stored record carries the token and its date, and the submitted register number |
| StudentsRoute.UpdateData | server/src/routes/students.ts:245-249 | the update writes the body's fields, with the server's update count and timestamp overriding the body's |
| StudentsRoute.UpdateWellFormed | server/src/routes/students.ts:245-251 | merging a well-formed body's update into a well-formed record keeps it well-formed |
| StudentsRoute.CountersStep | server/src/routes/students.ts:128 | a missing visit count becomes 1, a missing update count 2, and a numeric count n becomes n + 1 |
| StudentsRoute.PrintLines | server/src/routes/students.ts:156-206 | definition of the receipt lines; their properties are stated by TokenLine and AcademicLine |
| StudentsRoute.TokenLine | server/src/routes/students.ts:176-178 | the receipt has a token line iff the token is truthy; it is the third line and the only double-height one |
| StudentsRoute.AcademicLine | server/src/routes/students.ts:186-187 | for UG the academic line shows the board if present, else the qualification, upper-cased |
| StudentsRoute.KeyByIndex | server/src/routes/students.ts:211-214 | the response object has exactly the keys 0..n-1, key i holding the i-th pushed line |
| StudentsRoute.Route.TakeToken | server/src/routes/students.ts:48-62 | the counter then holds exactly the returned token, and the day's issued tokens stay 101, 102, ... without gaps (the class invariant `Valid`, which also keeps every stored record well-formed) |
| StudentsRoute.Route.Post | server/src/routes/students.ts:8-94 | a refused registration (missing student or register number, duplicate, query or transaction failure) changes neither collection; otherwise the counter advances, and the record with the server's fields is stored under the new id unless the final write fails |
| StudentsRoute.Route.View | server/src/routes/students.ts:118-133 | a missing id gives 404 and no change; otherwise only `visit_count` changes, to (old or 0) + 1, and the reply carries it |
| StudentsRoute.Route.Update | server/src/routes/students.ts:235-252 | a missing id gives 404 and no change; otherwise the update data is merged into the stored record and unmentioned fields stay |
| StudentsRoute.Route.Delete | server/src/routes/students.ts:225-231 | the record is removed, and a missing id also succeeds |
| StudentsRoute.Route.Print | server/src/routes/students.ts:140-216 | a missing id gives 404; otherwise the receipt lines keyed by position, or a failure when a field cannot be upper-cased or formatted |
| StudentList.EditedCutoff | client/src/components/StudentList.tsx:46 | definition of the recomputed cutoff; its properties are stated by EditedCutoffFormula and Lifecycle.EditStoresCutoff |
| StudentList.EditedCutoffFormula | client/src/components/StudentList.tsx:46 | numeric marks give the form's cutoff formula |
| StudentList.HandleUpdate | client/src/components/StudentList.tsx:37-51 | no call without a record or its id; otherwise the record is sent unchanged except that the cutoff is recomputed iff all three marks are truthy |
| StudentList.EditedRecordWellFormed | client/src/components/StudentList.tsx:44-47 | the record with the recomputed cutoff is well-formed when the edited one is |
| StudentList.ZeroMarkKeepsCutoff | client/src/components/StudentList.tsx:45 | a mark of 0 counts as not entered |
| StudentList.Filter | client/src/components/StudentList.tsx:73-76 | definition of the search filter; its properties are stated by FilterMembership, FilterIsSubsequence, MatchIgnoresCase and EmptyTermKeeps |
| StudentList.FilterMembership | client/src/components/StudentList.tsx:73-76 | a record is listed iff it was loaded and its name or register number contains the term, ignoring case |
| StudentList.FilterIsSubsequence | client/src/components/StudentList.tsx:73-76 | the filtered list is a subsequence of the loaded list in the same order |
| StudentList.FieldMatchesIffOccurs | client/src/components/StudentList.tsx:74-75 | a field matches iff it is a string in whose lower-case form the lower-cased term occurs |
| StudentList.MatchIgnoresCase | client/src/components/StudentList.tsx:73-76 | terms that differ only in case select the same records |
| StudentList.EmptyTermKeeps | client/src/components/StudentList.tsx:73-76 | an empty term keeps exactly the records with a name or a register number |
| StudentList.VisitsShown | client/src/components/StudentList.tsx:353 | an absent visit count shows as 0, a truthy one as itself |
| StudentList.UpdatesShown | client/src/components/StudentList.tsx:356 | an absent update count shows as 1, a truthy one as itself |
| Lifecycle.ValidFormPassesRouteChecks | server/src/routes/students.ts:13-28 | a valid form posts a truthy register number, so the route refuses it only for a duplicate or a store failure |
| Lifecycle.RegisteredCounters | client/src/components/StudentList.tsx:353-356 | a posted body without a visit count and with update count 1 is stored showing 0 visits and 1 update, with the server's age |
| Lifecycle.NewRecordCounters | client/src/components/StudentForm.tsx:137-144 | a registered form shows 0 visits and 1 update, and its age is the server's whatever the form said |
| Lifecycle.ViewAddsVisit | server/src/routes/students.ts:128-131 | after a view the list shows one more visit |
| Lifecycle.UpdateAddsUpdate | server/src/routes/students.ts:245-251 | after an update the list shows one more update, whatever the body said about the count |
| Lifecycle.EditStoresCutoff | client/src/components/StudentList.tsx:44-50 | an edit with three non-zero marks stores maths + (physics + chemistry) / 2 |
| Lifecycle.SameDayRegistrations | server/src/routes/students.ts:46-79 | two students with different register numbers registering on a fresh store on the same day are both stored, under their new ids and nothing else, with tokens 101 and 102 and that day's date, and the day's counter then holds 102 |

## Left out

- Listing all students (`GET /`, students.ts:97-115) is a plain read of the collection and is not modelled.
- Store failures other than those of a registration (the duplicate query, the counter transaction, the final write) are not modelled: `View`, `Update`, `Delete` and `Print` assume the store answers.
- Concurrency: each request is one atomic step; the race between the duplicate check and the insert, and transaction retries, are not modelled.
- The counter document's `date` property always equals its key and is not kept; a counter is its `last_token`.
- Firestore's handling of dotted field paths and of undefined values in an update body is not modelled; an update merges top-level properties.
- Number formatting is abstract: a receipt line that interpolates a value keeps the value, and `toFixed(2)` keeps the exact real; JavaScript floating point is modelled by exact reals.
- Js.ParseNumeral, Js.ToNumber: `Number(...)` is modelled on decimal notation with an optional sign and surrounding white space; exponent, hexadecimal and `Infinity` forms are read as NaN, where JavaScript reads a number. The number inputs accept exponent notation, so for an age such as `1e1` the model posts `null` where the client posts 10, and marks written with an exponent give no cutoff in the model where the client computes one.
- Case mapping is ASCII only; non-ASCII letters keep their case.
- The date-of-birth parse, `toISOString`, `toLocaleString` and `toLocaleDateString` are parameters, so the difference between the UTC date key and the local date is not analysed.
- A form enum left as `null` or `''` is modelled like `undefined` and is posted as absent.
- StudentsRoute.Route.Print: the receipt lines come from the `PrintLines` function rather than from individual pushes; a TypeError part-way through is modelled as the whole request failing, which is what the client sees.
- StudentList.Filter requires names and register numbers to be strings or absent, as the client's record type declares; for other values the source throws while rendering.
- StudentsRoute.Route.Post and StudentsRoute.Route.Update require a well-formed body: a record that holds a property both under its own field and as an unknown extra property is not an object JavaScript can build.
- JSX rendering, modals, the app-print URL launch, the API client, login, polling, server wiring and the Firestore setup are outside the core.
