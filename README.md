# Experience letter: the letter-data logic

This project models the data logic of the Angular component
`ExperienceLetterComponent`, which fills in an employee experience letter,
and proves properties of that model in Dafny. The component keeps a letter
record (`letterData`) and a seven-control reactive form (`letterForm`), and
shows either the form or a preview of the letter (`showForm`).

- `generateLetter` checks the form, turns the three ISO date inputs into
  long-form dates such as "31st August 2025", copies four more values into
  the letter, and switches to the preview.
- `toggleForm` switches between the two views.
- The template addresses the employee through `getFirstName`, which strips a
  leading honorific and takes the first word, and through three pronoun
  getters keyed on the title.
- `getTodayDate` supplies the default issue date as "YYYY-MM-DD" text.

Modules:

- `Wrappers`: `Option`.
- `Decimal`: the decimal text JavaScript renders for a non-negative integer
  (`${n}`, `String(n)`), its digit value, and `padStart`.
- `Text`: `indexOf` for a character, and `split` on a single character with
  its inverse `Join`.
- `Dates`: the ordinal suffix, the month table, `formatDate` and its long
  form, the reading of "YYYY-MM-DD" text into a calendar date, and the text
  `getTodayDate` builds.
- `Names`: the honorific regular expression `/^(Mr\.?|Ms\.?|Mrs\.?)\s*/i`,
  `getFirstName` and the pronoun getters.
- `ExperienceLetter`:
  - the `LetterData` and `FormValue` records;
  - the form's validity;
  - the specification function `Generated` of `generateLetter`;
  - the class `ExperienceLetterComponent` with its fields `showForm`,
    `letterData` and `letterForm`.

Each operation has a partner it is proved against:

- The long form is read back by `ReadLongForm`, which inverts it.
- ISO text and `getTodayDate`'s text are round-tripped in both directions.
- `Split` is inverted by `Join`.
- `OrdinalSuffix` agrees with an independent statement of the English
  ordinal rule for every day of a month.
- `generateLetter`'s effect is tied to `Generated`. Lemmas about `Generated`
  state what it keeps, what it forgets, that it is idempotent, and that the
  dates and addressing survive the copy.

Two facts about the code shape the model.

- **Title is required.** The title control carries `Validators.required`
  like the other six controls, so the form is invalid when the title is
  empty (`ExperienceLetter.FormValid`).
- **The raw date fields of `letterData` are never refreshed.**
  - `generateLetter` formats the form's inputs and never writes
    `letterData.dateInput`, `startDateInput` or `endDateInput`; the contract
    of `ExperienceLetter.Generated` states that all three are kept.
  - The seeded start and end inputs are empty while their display dates are
    not (`ExperienceLetter.SeededDatesNotFromInputs`).

## Model

| member | source | states |
|---|---|---|
| `Decimal.Show` | src/app/experience-letter/experience-letter.component.ts:100 | the decimal text of a number is non-empty, all digits, one digit exactly below 10, has no leading zero unless it is "0", and reads back as the number |
| `Decimal.ShowValue` | src/app/experience-letter/experience-letter.component.ts:100 | conversely every numeral without a superfluous leading zero is the rendering of its value |
| `Decimal.ValueLeadingZero` | src/app/experience-letter/experience-letter.component.ts:71-72 | proof step of the ISO round trip: a leading '0' does not change a numeral's value |
| `Decimal.PadStart` | src/app/experience-letter/experience-letter.component.ts:71-72 | `padStart` yields max(length, width) characters, ends with the original text, and is filled with the fill character before it |
| `Decimal.LeadingDigits` | src/app/experience-letter/experience-letter.component.ts:100 | reading step of `ReadLongForm`, the inverse of the long form: the run of digits at the start of a text is all digits and is followed by a non-digit or the end |
| `Decimal.LeadingDigitsOfNumeral` | src/app/experience-letter/experience-letter.component.ts:100 | proof step of the long-form round trip: a numeral followed by a text starting with a non-digit has exactly the numeral as its leading run |
| `Text.IndexOf` | src/app/experience-letter/experience-letter.component.ts:105 | the position of the first occurrence of a character, or the length when it does not occur |
| `Text.Split` | src/app/experience-letter/experience-letter.component.ts:105 | `split(' ')` gives at least one piece, no piece holds the separator, the first piece is the text before the first separator, and joining the pieces gives the text back |
| `Text.SplitJoin` | src/app/experience-letter/experience-letter.component.ts:105 | splitting the join of separator-free pieces gives those pieces back |
| `Dates.DaysInMonth` | src/app/experience-letter/experience-letter.component.ts:79 | a month has 28 to 31 days, 31 exactly for January, March, May, July, August, October and December |
| `Dates.OrdinalSuffix` | src/app/experience-letter/experience-letter.component.ts:90-98 | the suffix is one of st, nd, rd, th; it is "th" for every day from 4 to 20; and for every day 1 to 31 it is the English ordinal suffix (11, 12, 13 take "th") |
| `Dates.MonthName` | src/app/experience-letter/experience-letter.component.ts:80-83 | each of the twelve month names is at least three letters long |
| `Dates.MonthIndexOfName` | src/app/experience-letter/experience-letter.component.ts:80-83 | the twelve month names are distinct: each name is found at its own index |
| `Dates.FormatDate` | src/app/experience-letter/experience-letter.component.ts:76-100 | the result is "" exactly when the input is "", and text that is not a date renders as "NaNth undefined NaN" |
| `Dates.FormatDateReadsBack` | src/app/experience-letter/experience-letter.component.ts:76-100 | the date is read back from the long form `formatDate` renders: no information is lost |
| `Dates.ReadLongFormOfLongForm` | src/app/experience-letter/experience-letter.component.ts:100 | the long form "day+suffix month year" of every date reads back as that date |
| `Dates.ReadLongFormOfText` | src/app/experience-letter/experience-letter.component.ts:100 | proof step of the long-form round trip: day digits, their suffix, a space, then a month and year that read as the date make a text that reads as the date |
| `Dates.ParseIsoDate` | src/app/experience-letter/experience-letter.component.ts:79 | a date read from "YYYY-MM-DD" text exists in the calendar and has a year of at most four digits |
| `Dates.ParseIsoDateDenotes` | src/app/experience-letter/experience-letter.component.ts:79 | text is read as a date exactly when its three numerals are that date's and the date exists |
| `Dates.TwoDigits` | src/app/experience-letter/experience-letter.component.ts:71-72 | `padStart(2, '0')` of a number gives at least two digits, and exactly two digits worth that number below 100 |
| `Dates.TwoDigitsOfText` | src/app/experience-letter/experience-letter.component.ts:71-72 | every two-digit text with a non-zero value is the padding of that value |
| `Dates.ShowFourDigits` | src/app/experience-letter/experience-letter.component.ts:73 | a year from 1000 to 9999 renders as four characters |
| `Dates.IsoDateText` | src/app/experience-letter/experience-letter.component.ts:68-74 | the text `getTodayDate` builds for a date with a four-digit year, a month below 99 and a day below 100 holds that date's own year, month number and day |
| `Dates.IsoDateTextParses` | src/app/experience-letter/experience-letter.component.ts:68-74 | the text `getTodayDate` builds for a real date with a four-digit year is read back as that date |
| `Dates.ParsedIsoDateText` | src/app/experience-letter/experience-letter.component.ts:68-74 | conversely ISO text whose year has no leading zero is exactly the text `getTodayDate` builds for the date it denotes |
| `Dates.FormatIsoDateText` | src/app/experience-letter/experience-letter.component.ts:68-100 | today's default date text formats as today's long form |
| `Dates.FormatSeededDate` | src/app/experience-letter/experience-letter.component.ts:20 | "2025-08-31" formats as the seeded issue date "31st August 2025" |
| `Dates.FormatSeededStartDate` | src/app/experience-letter/experience-letter.component.ts:24 | "2025-04-23" formats as the seeded start date "23rd April 2025" |
| `Dates.FormatSeededEndDate` | src/app/experience-letter/experience-letter.component.ts:26 | "2025-08-03" formats as the seeded end date "3rd August 2025" |
| `Dates.FormatDayFirstDate` | src/app/experience-letter/experience-letter.component.ts:79 | a day-first date such as "31/08/2025" renders as "NaNth undefined NaN" |
| `Names.AfterOptionalDot` | src/app/experience-letter/experience-letter.component.ts:105 | the `\.?` step consumes one character, exactly when the honorific is followed by a dot, and nothing otherwise |
| `Names.HonorificMatch` | src/app/experience-letter/experience-letter.component.ts:105 | the honorific alternatives match inside the name: nothing matches exactly when the name begins with neither "mr" nor "ms" in any case, and a match is the two letters plus the following dot when there is one |
| `Names.MrsMatchesAsMr` | src/app/experience-letter/experience-letter.component.ts:105 | alternatives are tried in order, so "Mrs" is matched by its "Mr" alternative |
| `Names.LeadingSpaces` | src/app/experience-letter/experience-letter.component.ts:105 | the `\s*` step consumes exactly the white space at the start |
| `Names.StripHonorific` | src/app/experience-letter/experience-letter.component.ts:105 | the replacement leaves a suffix of the name: all of it when no honorific matches; otherwise what is removed is the honorific, its optional dot and white space only, and what is left is empty or starts with a non-space |
| `Names.FirstName` | src/app/experience-letter/experience-letter.component.ts:103-107 | the first name is never empty and holds no space; it is "Employee" when the stripped name is empty or starts with a space, and the stripped name's text up to its first space otherwise |
| `Names.FirstNameDefault` | src/app/experience-letter/experience-letter.component.ts:106 | an empty name, or one starting with a space, is addressed as "Employee" |
| `Names.LeadingSpacesOfRun` | src/app/experience-letter/experience-letter.component.ts:105 | a run of white space followed by a non-space is consumed exactly |
| `Names.FirstNameAfterHonorific` | src/app/experience-letter/experience-letter.component.ts:105-106 | a two-letter honorific, an optional dot, white space, a word and a space-led rest give that word as the first name |
| `Names.StripHonorificOfTitle` | src/app/experience-letter/experience-letter.component.ts:105 | after a two-letter honorific and an optional dot, the replacement removes exactly the leading white space of what follows |
| `Names.FirstNameOfSeededEmployee` | src/app/experience-letter/experience-letter.component.ts:22 | "Mr Manvendra Singh" is addressed as "Manvendra" |
| `Names.FirstNameAfterDottedTitle` | src/app/experience-letter/experience-letter.component.ts:105 | "Mr. John Smith" is addressed as "John": the dot goes with the honorific |
| `Names.FirstNameCutsNameBeginningWithMr` | src/app/experience-letter/experience-letter.component.ts:105 | with no word boundary, "Mrinal Sen" is addressed as "inal" |
| `Names.FirstNameOfMrs` | src/app/experience-letter/experience-letter.component.ts:105 | "Mrs Jane" is addressed as "s" |
| `Names.SubjectPronoun` | src/app/experience-letter/experience-letter.component.ts:109-111 | "he" exactly when the title is "Mr", "she" otherwise |
| `Names.PossessivePronoun` | src/app/experience-letter/experience-letter.component.ts:113-115 | "his" exactly when the title is "Mr", "her" otherwise |
| `Names.ObjectPronoun` | src/app/experience-letter/experience-letter.component.ts:117-119 | "him" exactly when the title is "Mr", "her" otherwise |
| `ExperienceLetter.SeededLetterData` | src/app/experience-letter/experience-letter.component.ts:18-32 | the seeded letter holds today's text as its raw issue date and empty raw start and end dates |
| `ExperienceLetter.SeededLetterAddressing` | src/app/experience-letter/experience-letter.component.ts:22-31 | the seeded letter addresses "Manvendra" as "he" |
| `ExperienceLetter.SeededDatesNotFromInputs` | src/app/experience-letter/experience-letter.component.ts:24-27 | the seeded start and end dates are not the formatting of the seeded raw inputs |
| `ExperienceLetter.InitialFormValue` | src/app/experience-letter/experience-letter.component.ts:35-43 | the form starts with today's date and "Mr" and is invalid |
| `ExperienceLetter.FormValid` | src/app/experience-letter/experience-letter.component.ts:35-43 | the form is valid exactly when each of its seven controls, the title included, is non-empty |
| `ExperienceLetter.Generated` | src/app/experience-letter/experience-letter.component.ts:57-63 | generating keeps the company, HR signatory and company full name, and the letter's three raw date inputs: the `*Input` fields are not refreshed from the form |
| `ExperienceLetter.GeneratedForgetsOldEntries` | src/app/experience-letter/experience-letter.component.ts:57-63 | the overwritten fields do not depend on the old letter |
| `ExperienceLetter.GeneratedIdempotent` | src/app/experience-letter/experience-letter.component.ts:50-66 | generating twice from the same form is generating once |
| `ExperienceLetter.GeneratedDatesOfValidForm` | src/app/experience-letter/experience-letter.component.ts:57-59 | a valid form yields three non-empty dates, and any input that is not a date shows as "NaNth undefined NaN" |
| `ExperienceLetter.GeneratedDatesReadBack` | src/app/experience-letter/experience-letter.component.ts:57-59 | every date the form holds is read back from the letter's long form |
| `ExperienceLetter.GeneratedDateOfToday` | src/app/experience-letter/experience-letter.component.ts:57 | left at today's default, the letter's issue date is today's long form |
| `ExperienceLetter.GeneratedAddressing` | src/app/experience-letter/experience-letter.component.ts:61-62 | the letter addresses the employee the form names, with the masculine pronouns exactly for the title "Mr" |
| `ExperienceLetter.ExperienceLetterComponent.constructor` | src/app/experience-letter/experience-letter.component.ts:14-44 | the component starts in the form view, with the seeded letter and the initial form for today's text |
| `ExperienceLetter.ExperienceLetterComponent.ToggleForm` | src/app/experience-letter/experience-letter.component.ts:46-48 | the view flag is negated and the letter and form are unchanged |
| `ExperienceLetter.ExperienceLetterComponent.GenerateLetter` | src/app/experience-letter/experience-letter.component.ts:50-66 | an invalid form leaves the view and the letter unchanged; a valid one shows the preview with the letter `Generated` from the old letter and the form; the form is unchanged |
| `ExperienceLetter.ToggleTwice` | src/app/experience-letter/experience-letter.component.ts:46-48 | toggling twice restores the view, with the letter and form untouched |
| `ExperienceLetter.GenerateOnOpening` | src/app/experience-letter/experience-letter.component.ts:34-54 | generating on a fresh component keeps the form view and the seeded letter, addressed to "Manvendra" as "he" |
| `ExperienceLetter.FillAndGenerate` | src/app/experience-letter/experience-letter.component.ts:50-66 | after a valid form is generated, the preview shows, addresses the form's employee with the form's pronouns, reads back the form's issue date, keeps the company name, and a second generation changes nothing |

## Left out

- `generatePDF` (src/app/experience-letter/experience-letter.component.ts:121-171) is left out. It looks up the page, rasterises it with `html2canvas`, builds a PDF with `jsPDF`, names the file from a clock reading and reports failures with an alert. All of that is foreign calls and I/O, and its image scaling is floating-point arithmetic.
- The clock read of `getTodayDate` (`new Date()`) is a parameter: the calendar date is passed to `IsoDateText`, and the constructor takes the resulting text. The source calls `getTodayDate` twice during construction. The model passes one text to both, so it does not capture a midnight falling between the two calls.
- `Dates.ParseIsoDate`: JavaScript's `Date` parser is modelled only on "YYYY-MM-DD" text with a four-digit year, a month from 01 to 12 and a day inside that month. Every other text is treated as an Invalid Date. JavaScript engines also accept other date formats, and some roll impossible days over into the next month. The model assumes the date inputs hold only what an HTML date picker produces, so it does not capture those parses.
- `Dates.FormatDate` does not model the time-zone shift. JavaScript reads ISO date text as midnight UTC, while `getDate` reports the local day, so west of UTC the shown day is one earlier. The model assumes a time zone at or east of UTC.
- `Dates.FormatDate` renders an Invalid Date as "NaNth undefined NaN", the text the source's template literal produces from `NaN` and an undefined month. This rendering is library behaviour, written out rather than derived.
- `markAllAsTouched` and the rest of Angular's form machinery (touched state, change detection, template bindings) are left out. Validity is modelled as every control being non-empty, which is what `Validators.required` checks on text. A user's edits of the form are modelled by assigning `letterForm`.
- Text is modelled as sequences of Unicode scalar values, while JavaScript strings are UTF-16 code units. The regular expression's `\s` class is the set of white-space characters JavaScript defines. The `i` flag is modelled only for the ASCII letters of the honorifics.
- The title is a free string in the model, and the pronoun lemmas hold for every string. The model does not assume that the title is one of Mr, Ms and Mrs, the choices the template offers, because nothing in the component restricts the value.
- src/app/app.component.ts is not part of this model. It is the application shell: a template, styles and a title constant.
