# Form template matcher: verified model

This project models the two pieces of logic in the form template matcher.

- **The field-type classifier** (`FormValidator`, form_validator.py). It has three validators:
  - a Russian mobile phone written `+7 XXX XXX XX XX`;
  - a date in `DD.MM.YYYY` or `YYYY-MM-DD` form, with numeric range checks;
  - an e-mail address `local@domain.tld`.

  A dispatcher tries date, then phone, then e-mail, and otherwise answers `text`. A per-field lifting classifies every value of a field map.
- **The template store** (`FormTemplateDB`, database.py). This is an insertion-ordered table of templates. Each template is a string map. Its `name` key is the display name, and every other key maps a field name to its expected type label. The first-match search returns the first stored template whose required fields all occur in a candidate map with equal values. Extra candidate keys are allowed. If no template qualifies, the search returns nothing.

Modules:

- `Wrappers` (wrappers.dfy): the `Option` type, standing for Python's `X | None`.
- `FormValidator` (form_validator.dfy): pure predicates and functions, with lemmas about them.
  - Each anchored regular expression becomes a character-level predicate. The fixed-width patterns (phone and the two date shapes) are sequences of one-character atoms. The e-mail pattern is an existential split at the `@` and at the last `.`.
  - `re.match` with `^…$` also accepts one final `"\n"`, because `$` matches just before a newline that ends the string. Every validator models this.
  - `\d` is an ASCII digit.
  - `\s` is exactly the set of characters for which Python's `str.isspace` holds.
- `Database` (database.dfy): the class `FormTemplateDB`.
  - The table is a `seq` field that `AddTemplate` extends.
  - `FindMatchingTemplate` keeps the source's nested loop, its `matched` flag, the `break` and the early return.
  - It is proved equal to the functional specification `MatchingTemplate`, built on `FirstMatch`: the first index whose template satisfies `Matches`.
  - `FindMatchingTemplate` and `GetAllTemplates` have no `modifies` clause, so they cannot change the store.

Two behaviours of the code worth stating on their own:

- A template with no key besides `name` matches every candidate, including the empty map (database.py:14-21). `EmptyCandidate` and `EmptyCandidateSearch` state this.
- database.py does not skip malformed stored records: every stored template takes part in the search. Neither does the model.

## Model

| member | source | states |
|---|---|---|
| FormValidator.IsSpace | form_validator.py:7 | `\s` in a str pattern: exactly the code points for which `str.isspace` holds (tab to carriage return, the file/group/record/unit separators, space, next line, no-break space, ogham space mark, the en quad to hair space range, line and paragraph separators, narrow no-break space, medium mathematical space, ideographic space) |
| FormValidator.Matches | form_validator.py:7-8 | `re.match` of a fixed-width pattern anchored by `^` and `$`: one pattern atom per character over the whole value, or over the whole value but one final newline |
| FormValidator.ValidatePhone | form_validator.py:6-8 | validate_phone: the anchored phone pattern matches the value |
| FormValidator.MatchesLength | form_validator.py:7-8 | a value accepted by an anchored pattern has the pattern's length, or that length plus one final newline |
| FormValidator.PhonePatternShape | form_validator.py:7 | the phone pattern matches a whole string exactly when it is `+7`, a whitespace character, 3 digits, whitespace, 3 digits, whitespace, 2 digits, whitespace, 2 digits |
| FormValidator.PhoneIff | form_validator.py:6-8 | validate_phone accepts a value iff it has the phone shape, or has that shape followed by one final newline |
| FormValidator.PhoneLength | form_validator.py:6-8 | every accepted phone has 16 characters, or 17 with a final newline |
| FormValidator.PhoneFacts | form_validator.py:6-8 | an accepted phone starts with `+` and contains no `@` |
| FormValidator.PhoneExamples | test_app.py:122-139 | the two valid phones are accepted; `89031234567`, `+79031234567`, `7 903 123 45 67`, `+7 903 123 45 6`, `+7 903 123 45 678` and `телефон` are rejected |
| FormValidator.ValidateDate | form_validator.py:11-31 | validate_date: if the dotted pattern matches, the answer is whether day (characters 0-1), month (3-4) and year (6-9) are in range; otherwise, if the ISO pattern matches, whether day (8-9), month (5-6) and year (0-3) are; otherwise false. A range failure on the dotted shape does not try the ISO shape |
| FormValidator.DatePatternsShape | form_validator.py:12-13 | each date pattern matches a value iff the value has that shape (`DD.MM.YYYY` with digits at all other positions, or `YYYY-MM-DD`), optionally followed by one final newline |
| FormValidator.DecimalValueDigits | form_validator.py:17-25 | the decimal value of a 2- or 4-digit part is its positional value, as `int` computes it |
| FormValidator.DottedDateIff | form_validator.py:12-21 | a `DD.MM.YYYY` value, with or without a final newline, is a date iff 1 ≤ MM ≤ 12, 1 ≤ DD ≤ 31 and YYYY ≥ 1900; there is no month-length or leap-year check |
| FormValidator.IsoDateIff | form_validator.py:23-31 | a `YYYY-MM-DD` value, with or without a final newline, is a date iff the same bounds hold for its day, month and year |
| FormValidator.DateShape | form_validator.py:11-31 | every accepted date has one of the two shapes, possibly followed by one newline, and so starts with a digit; every other shape is rejected |
| FormValidator.DateHasNoAt | form_validator.py:11-31 | an accepted date contains no `@` |
| FormValidator.DottedMay27Example | test_app.py:144 | `27.05.2025` is accepted |
| FormValidator.DottedNewYearExample | test_app.py:145 | `01.01.2020` is accepted |
| FormValidator.DottedFeb31Example | form_validator.py:18 | `31.02.2020` is accepted: the day is only bounded by 31 |
| FormValidator.DottedBadDayExample | test_app.py:152 | `32.05.2025` is rejected |
| FormValidator.DottedBadMonthExample | test_app.py:153 | `27.13.2025` is rejected |
| FormValidator.DottedDateExamples | test_app.py:141-160 | `27.05.2025`, `01.01.2020` and `31.02.2020` are accepted; `32.05.2025` (bad day) and `27.13.2025` (bad month) are rejected |
| FormValidator.IsoMay27Example | test_app.py:146 | `2025-05-27` is accepted |
| FormValidator.IsoNewYearExample | test_app.py:147 | `2020-01-01` is accepted |
| FormValidator.IsoDateExamples | test_app.py:141-160 | `2025-05-27` and `2020-01-01` are accepted |
| FormValidator.NonDateExamples | test_app.py:149-160 | `27/05/2025`, `2025/05/27`, `27.05.25` and `not-a-date` are rejected |
| FormValidator.ValidateEmail | form_validator.py:34-36 | validate_email: the value, or the value without one final newline, splits into a non-empty run of `[a-zA-Z0-9._%+-]`, `@`, a non-empty run of `[a-zA-Z0-9.-]`, `.` and two or more ASCII letters up to the end |
| FormValidator.EmailSplitAtUnique | form_validator.py:35 | in a value of the e-mail shape, the `@` that separates local part and domain is its only `@` |
| FormValidator.EmailBodyFacts | form_validator.py:35 | a string of the e-mail shape has exactly one `@`; the part before it is non-empty; the part after it holds a `.` followed by at least two ASCII letters up to its end |
| FormValidator.EmailFacts | form_validator.py:34-36 | every value validate_email accepts has those properties, either itself or after one final newline is dropped |
| FormValidator.EmailHasAt | form_validator.py:34-36 | an accepted e-mail starts with a local-part character and has an `@` followed later by a `.` |
| FormValidator.EmailFromParts | form_validator.py:35-36 | a non-empty local part, `@`, a non-empty domain, `.` and a label of at least two letters always form an accepted e-mail |
| FormValidator.EmailPlainExample | test_app.py:165 | `test@example.com` is accepted |
| FormValidator.EmailSubdomainExample | test_app.py:166 | `user.name@domain.co.uk` is accepted |
| FormValidator.EmailTaggedExample | test_app.py:167 | `user+tag@example.org` is accepted |
| FormValidator.EmailRejectedExamples | test_app.py:169-179 | `invalid`, `invalid@`, `invalid@domain` and `no-at-sign` are rejected |
| FormValidator.EmailAtFirstExample | test_app.py:172 | `@domain.com` is rejected: the local part may not be empty |
| FormValidator.DetectFieldType | form_validator.py:39-47 | the result is always one of `date`, `phone`, `email` and `text`; it is `date` iff the value is a date; `phone` iff it is not a date and is a phone; `email` iff it is neither and is an e-mail; `text` iff it is none of the three |
| FormValidator.ValidatorsExclusive | form_validator.py:40-47 | no value is accepted by two validators, so the dispatch order never decides between two answers |
| FormValidator.DetectFieldTypeOrderFree | form_validator.py:40-47 | as a consequence, the result is `phone` exactly when the value is a phone and `email` exactly when it is an e-mail |
| FormValidator.DetectDateAndPhoneExamples | test_app.py:184-186 | `27.05.2025` and `2025-05-27` are classified `date`; `+7 903 123 45 67` is classified `phone` |
| FormValidator.DetectEmailExample | test_app.py:187 | `test@example.com` is classified `email` |
| FormValidator.DetectTextExamples | test_app.py:188-190 | `plain text`, `12345` and the empty string are classified `text` |
| FormValidator.DetectOutOfRangeDateExample | test_app.py:152 | `32.05.2025` is not a date and is classified `text` |
| FormValidator.DetectLaterIsoDateExample | test_app.py:204-211 | `2024-01-15` is classified `date` |
| FormValidator.DetectFieldTypes | form_validator.py:50-52 | the result has exactly the keys of the input, and maps each key to the classification of its own value |
| FormValidator.DetectFieldTypesUpdate | form_validator.py:50-52 | changing one field's value changes only that field's type, which becomes the classification of the new value |
| FormValidator.DetectFieldTypesRemove | form_validator.py:50-52 | dropping a field drops its type and leaves the other types unchanged |
| FormValidator.DetectFieldTypesExample | test_app.py:197-214 | the five-field form of the test is classified `date`, `phone`, `email`, `text`, `date`, key by key |
| Database.TemplateFields | database.py:14 | the fields of a template are all its entries except `name`, with their values unchanged |
| Database.Matches | database.py:14-20 | the inner loop's verdict: every entry of the template other than `name` occurs in the candidate with an equal value |
| Database.FirstMatch | database.py:13-23 | if the result is an index, the template there matches and no earlier one does; if it is None, no template matches |
| Database.MatchingTemplate | database.py:13-23 | the search's result: the template at the first matching index, or None when no index matches |
| Database.FirstMatchAt | database.py:13-21 | if template i matches and no earlier one does, the search yields i |
| Database.FirstMatchNone | database.py:13-23 | if no template matches, including in an empty store, the search yields None |
| Database.FormTemplateDB.constructor | database.py:5-7 | the store opens with the templates already in the table |
| Database.FormTemplateDB.AddTemplate | database.py:9-10 | the table grows by exactly the inserted template at its end, and earlier templates are unchanged |
| Database.FormTemplateDB.GetAllTemplates | database.py:25-26 | returns the whole table in insertion order, without changing it |
| Database.FormTemplateDB.FindMatchingTemplate | database.py:12-23 | returns the first template in store order whose fields all occur in the candidate with equal values; returns None iff no template qualifies; changes nothing |
| Database.CandidateNameIgnored | database.py:14 | a `name` entry in the candidate, whether present, absent or different, never affects a match |
| Database.TemplateNameIgnored | database.py:14 | the template's own display name never affects a match |
| Database.SupersetTolerance | database.py:16-17 | a template that matches a candidate also matches every map that extends the candidate |
| Database.FirstMatchSuperset | database.py:13-21 | extending the candidate never loses a match; the first match can only move earlier |
| Database.RequiredField | database.py:17-18 | removing any field of a template from the candidate, or changing its value, makes that template fail |
| Database.EmptyCandidate | database.py:14-21 | a template matches the empty candidate iff it has no key besides `name` |
| Database.NameOnlyMatchesAll | database.py:14-21 | a template with no key besides `name` matches every candidate |
| Database.EmptyCandidateSearch | database.py:13-23 | searching with the empty candidate finds a template iff the store holds one with no key besides `name` |
| Database.FirstMatchAppend | database.py:9-23 | appending a template keeps an existing first match; it can only turn a miss into a match at the new last index |
| Database.MatchingTemplateSound | database.py:13-21 | a returned template is an element of the store and is matched by the candidate |
| Database.OrderFormExample | test_app.py:51-60 | in the three-template store, the order-form fields find `Форма заказа` |
| Database.UserDataExample | test_app.py:62-69 | `login`/`tel` find `Данные пользователя` |
| Database.ProbeExample | test_app.py:71-78 | `f_name1`/`f_name2` find `Проба` |
| Database.ExtraFieldsExample | test_app.py:80-89 | the user-data fields plus two unknown fields still find `Данные пользователя` |
| Database.NoMatchExamples | test_app.py:91-120 | `{customer}`, `{login: text, tel}`, two unknown fields, and `{f_name1}` alone all find nothing |
| Database.StoreFixture | test_app.py:10-60 | a fresh store with the three test templates added lists their three names in insertion order, and its search for the order-form fields returns `Форма заказа` |

## Left out

- app.py, the command-line front end (argument parsing, printing, JSON output). It is plumbing around the two modelled operations.
- TinyDB persistence: the JSON file, table creation and document ids (database.py:1,6-7). The table is an in-memory sequence. The constructor receives its stored contents. `all()` is taken to return templates in insertion order.
- The `except ValueError` branches of validate_date (form_validator.py:20-21,28-29). Once a digit-only pattern has matched, the conversion to `int` cannot fail, so no parse error is modelled.
- FormValidator.IsDigit: `\d` is modelled as the ASCII digits only. Python's `\d` also accepts other Unicode decimal digits, and `int` would convert them.
- The rest of Python's regular-expression engine. Only the three anchored patterns are modelled, each as a predicate.
- FormValidator.DetectFieldTypes: the key order of the resulting dict is not modelled. A Dafny map has no order, so only equality of key sets and per-key values is stated.
- Database.FormTemplateDB.FindMatchingTemplate: the inner loop visits the template's fields in an unspecified order, not in dict insertion order. Its result does not depend on that order.
- Type labels are compared as plain strings. Nothing checks that a stored label is one of `date`, `phone`, `email` or `text`.
