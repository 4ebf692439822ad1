# checkin-app, modelled in Dafny

checkin-app is a self-service check-in web application for a holiday
rental. It has four parts:

- a React client (`client/src/App.jsx`). A guest picks a language and goes
  through a wizard of steps: house guides, a guest count, and a
  registration form with validation (`client/src/formValidation.js`). The
  form can read the passport number from a photo with an in-browser OCR
  (`client/src/passportOcr.js`);
- an admin page (`client/src/AdminPage.jsx`). It logs in with a passkey,
  lists and soft-deletes guests, and edits the step templates. It carries
  its own base64url codec for WebAuthn buffers;
- an Express/SQLite server (`server/server.js`). It keeps one-time
  WebAuthn challenges and admin sessions in in-memory maps, guards the
  admin endpoints, stores check-ins and their passport photos, and
  serves the step templates;
- a Python runner (`server/tools/paddle_ocr_runner.py`). It reads a
  passport number, a nationality and an age out of PaddleOCR text.

This project models those parts and proves what they promise.

| file | module | models |
|---|---|---|
| `prelude.dfy` | `Prelude` | Option, ASCII character classes, JavaScript and Python whitespace, strip/split/join, substring search, first-match search, decimal printing |
| `base64.dfy` | `Base64` | the base64 (section 4 of RFC 4648) and base64url (section 5) alphabets, the forgiving decoder behind `atob`, and the round trip |
| `records.dfy` | `Records` | the stored guest and check-in record shared by server and admin page, and the soft-delete update |
| `form_validation.dfy` | `FormValidation` | `parseAge`, `validateGuestForm` and `isRegistrationValid` |
| `app_steps.dfy` | `AppSteps` | the step datatype, `buildDefaultSteps`, `normalizeSteps`, `getBuiltinStepFallback` and `normalizeCompletionTemplate` |
| `app_wizard.dfy` | `AppWizard` | the wizard state (class `Wizard`) and its handlers: next, step click, guest list edits, submit, reset |
| `admin_page.dfy` | `AdminPage` | `bufferToBase64Url` and `base64UrlToBuffer` over byte arrays, the guest rows, and the record and step-template editors |
| `passport_ocr.dfy` | `PassportOcr` | the MRZ and labelled-number scanners, `isLikelyPassportDocument`, and `runLocalPassportOCR` over the detector's answers |
| `ocr_runner.dfy` | `OcrRunner` | the runner's text normalisation and passport-number strategies |
| `ocr_fields.dfy` | `OcrFields` | `_parse_date_token`, `extract_age` and the other field readers |
| `ocr_nationality.dfy` | `OcrNationality` | `extract_nationality` with its keyword table and label rule |
| `admin_server.dfy` | `AdminServer` | the server state (class `Server`): challenges, sessions, passkeys and check-ins, with every admin and guest endpoint of the core |

Conventions used throughout:

- The outside world comes in as parameters: the clock (`Date.now()`,
  `date.today()`), the random bytes behind challenges and session tokens,
  the uuid of a new check-in, `encodeURIComponent`, and the OCR engine's
  or text detector's output.
- A JSON field that is absent, or has the wrong type, is `None` in an
  `Option`. JavaScript truthiness on a string therefore reads "present and
  non-empty".
- Characters are ASCII. Case mapping, `\d`, `\w` and `\b` are the ASCII
  ones.
- Every regular expression of the source is written out as an explicit
  scanner. A comment at each scanner records the leftmost, greedy match
  the engine would find.
- Both expiry checks in the server use a strict `<`, so a challenge or
  session is still good at its exact expiry time.

Where the repository's tests and its code disagree, the model follows the
code:

- `client/test/passportOcr.test.js:5-14` expects `L898902C3` for a valid
  MRZ and `''` for a wrong check digit. The code never strips or checks the
  check digit: on both data lines it returns the ten characters with the
  check digit appended (`PassportOcr.MrzPairKeepsCheckDigit`).
- `server/test/integration.test.js:152-166` sends the bootstrap token as
  `Authorization: Bearer …` and expects `rp` in the answer. The server
  reads the token only from `x-admin-token` or the body, and it answers
  with `{ challenge }` alone.
- `server/test/integration.test.js:99-106` calls
  `/api/completion-template`, which `server/server.js` does not define.
- The integration test sets `PORT`, `DB_PATH` and `UPLOAD_DIR`. The server
  hard-codes all three (`server/server.js:11,18-19`). Only `ADMIN_API_TOKEN`
  is read from the environment (`AdminServer.AdminApiToken`).

## Model

| member | source | states |
|---|---|---|
| FormValidation.GuestTemplate | client/src/App.jsx:34-43 | a new guest carries the given id and type, is a resident, is editable, has every text field empty, no passport photo and OCR status `idle` |
| FormValidation.FilledIff | client/src/formValidation.js:8 | `s?.trim()` is truthy exactly when the text has a character that is not JavaScript whitespace |
| FormValidation.LeadingDigits | client/src/formValidation.js:1 | the digits `parseInt` reads: a prefix of the text, all digits, followed by a non-digit or the end |
| FormValidation.ParseIntPrefix | client/src/formValidation.js:1 | `parseInt` gives NaN exactly when no digit follows the optional sign |
| FormValidation.ParseAge | client/src/formValidation.js:1 | `parseAge` succeeds only when the trimmed text starts with a digit or a sign; the value it then gives is stated for all inputs by ParseAgeOfInteger |
| FormValidation.ParseAgeOfDigits | client/src/formValidation.js:1 | digits followed by a non-digit suffix parse to the decimal value of the digits, so `'17.9'` gives 17 |
| FormValidation.ParseAgeOfInteger | client/src/formValidation.js:1 | for any leading whitespace, an optional `+` or `-`, a non-empty run of digits and a rest that does not start with a digit, `parseAge` gives the digits' decimal value, negated after `-` |
| FormValidation.ParseAgeOfDecimal | client/src/formValidation.js:1 | the decimal text of every natural number parses back to that number |
| FormValidation.ParseAgeTrimExample | client/test/formValidation.test.js:25 | `parseAge(' 16 ')` is 16 |
| FormValidation.ParseAgeNaNExample | client/test/formValidation.test.js:26 | `parseAge('abc')` is NaN |
| FormValidation.ParseAgeFractionExample | client/test/formValidation.test.js:27 | `parseAge('17.9')` is 17 |
| FormValidation.NegativeAge | client/src/formValidation.js:1 | `parseAge('-1')` is -1, which the age range then rejects |
| FormValidation.ValidAge | client/src/formValidation.js:6-7 | the age is valid exactly when it parses to an integer in 0..120 inclusive |
| FormValidation.ValidateGuestForm | client/src/formValidation.js:3-21 | one conjunction for the early returns: a filled name, a valid age, a guardian's name and phone under 18, an address for residents and a phone from 16, and a nationality, passport number and photo for visitors |
| FormValidation.AllValid | client/src/formValidation.js:25 | `every`: every guest of the list is valid |
| FormValidation.IsRegistrationValid | client/src/formValidation.js:23-26 | true exactly for a non-empty array of guests that are all valid |
| FormValidation.AllValidAppend | client/src/formValidation.js:25 | a joined list is valid exactly when both parts are |
| FormValidation.ResidentUnder16Example | client/test/formValidation.test.js:30-33 | a resident of 15 with a guardian needs no phone; the test's blank-address guest is rejected (already by the guardian rule, as it has no guardian), and so is the same guest with a guardian, by the address rule alone |
| FormValidation.Resident16Example | client/test/formValidation.test.js:35-38 | the test's resident of 16 without a phone is rejected (already by the guardian rule, as it has no guardian), so is the same guest with a guardian, by the phone rule alone, and with a phone and a guardian it is accepted |
| FormValidation.MinorExample | client/test/formValidation.test.js:40-43 | a minor without a guardian's name is rejected, and accepted with one |
| FormValidation.VisitorExample | client/test/formValidation.test.js:45-50 | a visitor is rejected without a nationality, with a blank passport number or with no photo, and accepted with all three |
| FormValidation.AgeBoundsExample | client/test/formValidation.test.js:52-57 | ages 0 and 120 are accepted, -1 and 121 rejected |
| FormValidation.RegistrationExample | client/test/formValidation.test.js:59-63 | the empty list is rejected, a resident with a visitor accepted, and the list is rejected when the visitor has an empty photo |
| FormValidation.AdultResidentValid | client/test/formValidation.test.js:5-12 | the test file's default resident is valid |
| Records.MarkDeleted | server/server.js:407-415 | every guest whose `String(id)` is the given id gets the flag, and nothing else in it changes; every other guest is unchanged; the length is kept |
| Records.MarkDeletedTwice | client/src/AdminPage.jsx:390-400 | of two marks of the same guest, the later one wins |
| Records.MarkDeletedRestores | client/src/AdminPage.jsx:390-400 | deleting and then restoring a guest that was not deleted gives the list back |
| Base64.Encode | client/src/AdminPage.jsx:133 | `btoa`'s output length is a multiple of 4, four characters per started 3-byte group |
| Base64.UrlEncode | client/src/AdminPage.jsx:133 | the URL-safe encoding has no `=`, `+` or `/` |
| Base64.Latin1 | client/src/AdminPage.jsx:129-132 | `String.fromCharCode` per byte: one code unit per byte, with the byte's value |
| Base64.CharCodes | client/src/AdminPage.jsx:141-143 | the bytes of a string exist exactly when no code unit exceeds 255, and are its code units |
| Base64.Btoa | client/src/AdminPage.jsx:133 | `btoa` fails exactly on a string with a code unit of 256 or more |
| Base64.Indices | client/src/AdminPage.jsx:139 | the alphabet positions exist exactly when every character is in the standard alphabet, and they map back to the characters |
| Base64.StripPadding | client/src/AdminPage.jsx:139 | removing the padding leaves a prefix of the text |
| Base64.ForgivingDecode | client/src/AdminPage.jsx:139 | `atob` accepts only text whose length without whitespace and padding is not 1 modulo 4 |
| Base64.Atob | client/src/AdminPage.jsx:139 | `atob` succeeds exactly when the forgiving decoder does, and returns its bytes as code units |
| Base64.AtobBtoa | client/src/AdminPage.jsx:133-139 | `atob(btoa(s)) == s` for every string `btoa` accepts |
| AdminPage.BufferToBase64Url | client/src/AdminPage.jsx:127-134 | the loop and the three replacements give exactly the unpadded URL-safe base 64 encoding of the buffer (section 5 of RFC 4648) |
| AdminPage.BtoaOfLatin1 | client/src/AdminPage.jsx:129-133 | `btoa` of the byte string is the standard base 64 encoding of the bytes |
| AdminPage.StdToUrlOfEncode | client/src/AdminPage.jsx:133 | the three replacements turn the standard encoding into the URL-safe unpadded one |
| AdminPage.UrlEncodeAlphabet | client/src/AdminPage.jsx:133 | the output uses only `A-Z`, `a-z`, `0-9`, `-` and `_` |
| AdminPage.PadEnd | client/src/AdminPage.jsx:138 | `padEnd` keeps the text and fills up to the target length with the pad character |
| AdminPage.Padded | client/src/AdminPage.jsx:137-138 | after the replacements and `padEnd`, the length is a multiple of 4 |
| AdminPage.UrlDecode | client/src/AdminPage.jsx:136-139 | the bytes `base64UrlToBuffer` decodes: the forgiving decode of the padded standard form; UrlRoundTrip states that decoding an encoding gives the bytes back |
| AdminPage.Base64UrlToBuffer | client/src/AdminPage.jsx:136-145 | fails exactly when the URL-safe decoding fails; otherwise a fresh array holding the decoded bytes |
| AdminPage.CodeUnits | client/src/AdminPage.jsx:140-143 | the index loop fills a fresh array of the text's length with each code unit, reduced to a byte as `Uint8Array` stores it |
| AdminPage.UrlRoundTrip | client/src/AdminPage.jsx:127-145 | decoding the encoding of any bytes gives the bytes back |
| AdminPage.GroupRows | client/src/AdminPage.jsx:376-380 | one row per guest of a record, in order, each remembering its record |
| AdminPage.FlatRows | client/src/AdminPage.jsx:376-380 | `flatMap` yields exactly as many rows as there are guests in all records |
| AdminPage.RowsPartition | client/src/AdminPage.jsx:381-382 | active and deleted rows split the flat rows: each row is in exactly one of them, decided by `deleted === true` |
| AdminPage.RowsKeepOrder | client/src/AdminPage.jsx:376-382 | the flat, active and deleted rows of joined record lists are the joined rows, so relative order is kept |
| AdminPage.SetGuestDeleted | client/src/AdminPage.jsx:390-399 | only the record with the given id changes, and in it only the soft-delete flag of the matching guests |
| AdminPage.ToggleGuestDeleted | client/src/AdminPage.jsx:385-405 | the list changes only when the server call succeeds, and then as above |
| AdminPage.ToggleMovesRow | client/src/AdminPage.jsx:390-400 | after the update a matching guest's `deleted === true` is the requested flag, and every other guest is unchanged |
| AdminPage.WithField | client/src/AdminPage.jsx:408-409 | setting a text field keeps the step's id, enabled flag and type |
| AdminPage.UpdateStepField | client/src/AdminPage.jsx:408-411 | only steps with the given id change, and only in that field; the length is kept |
| AdminPage.ToggleStepEnabled | client/src/AdminPage.jsx:413-416 | only steps with the given id change, and only by flipping `enabled` |
| AdminPage.ToggleTwice | client/src/AdminPage.jsx:413-416 | toggling the same step twice restores the list |
| AdminPage.AddCustomStep | client/src/AdminPage.jsx:418-424 | exactly one step is appended after the old ones: custom, enabled, empty content, a `custom-` id and the default titles |
| AdminPage.RemoveCustomStep | client/src/AdminPage.jsx:426-429 | the result holds exactly the steps whose id differs |
| AdminPage.RemoveCustomStepOrder | client/src/AdminPage.jsx:426-429 | filtering distributes over joined lists, so order is kept, and a list without the id is unchanged |
| AdminPage.RemoveAddedStep | client/src/AdminPage.jsx:418-429 | removing a just-added step gives the list back |
| AppSteps.BuiltinOf | client/src/App.jsx:416-468 | a step id resolves to a built-in step only when that step's name is exactly the id |
| AppSteps.BuiltinOfName | client/src/App.jsx:416-468 | every built-in step's name resolves back to that same step |
| AppSteps.TranslatedStepIds | client/src/App.jsx:266-392 | every language that has translations lists the ten built-in step ids in the same order as the default language |
| AppSteps.ZhHansIds | client/src/App.jsx:279-290 | the simplified-Chinese step list carries the ten built-in ids in order |
| AppSteps.ZhHantIds | client/src/App.jsx:304-315 | the traditional-Chinese step list carries the ten built-in ids in order |
| AppSteps.EnIds | client/src/App.jsx:329-340 | the English step list carries the ten built-in ids in order |
| AppSteps.JpIds | client/src/App.jsx:354-365 | the Japanese step list carries the ten built-in ids in order |
| AppSteps.KoIds | client/src/App.jsx:379-390 | the Korean step list carries the ten built-in ids in order |
| AppSteps.BuildDefaultSteps | client/src/App.jsx:394-402 | the default steps are the ten built-in ids in order, all enabled, built-in and with empty content, with the title and subtitle of the language's translated step, or of the Japanese step when the language has no translations |
| AppSteps.NewStepId | client/src/App.jsx:255 | a generated step id begins with "custom-" followed by the time-and-random stamp |
| AppSteps.NormalizeStep | client/src/App.jsx:406-413 | a normalized step always has a non-empty id and keeps a given one; it is enabled unless stored as false; it is custom exactly when stored as "custom"; missing texts become empty |
| AppSteps.NormalizeSteps | client/src/App.jsx:404-414 | a stored value that is not an array yields the fallback; otherwise each stored step is normalized in place, keeping the count and order |
| AppSteps.SerializeAll | client/src/App.jsx:479-481 | saving writes one stored record per step, in order |
| AppSteps.NormalizeStored | client/src/App.jsx:404-414 | reloading steps that were saved with ids gives back exactly the saved steps |
| AppSteps.NormalizeIdempotent | client/src/App.jsx:404-414 | normalizing, saving and normalizing again changes nothing |
| AppSteps.DefaultStepsStored | client/src/App.jsx:394-414 | the default steps survive a save and reload unchanged |
| AppSteps.GetBuiltinStepFallback | client/src/App.jsx:469-472 | the fallback content is empty for an unknown step or a step without a fallback; otherwise it comes from the language's table, or from the Japanese table when the language is unknown |
| AppSteps.Either | client/src/App.jsx:498-501 | a non-empty value wins over the fallback; an empty one yields the fallback |
| AppSteps.NormalizeCompletionTemplate | client/src/App.jsx:497-502 | a missing template yields the fallback; otherwise each of the four fields keeps its non-empty stored value and falls back field by field |
| AppSteps.CompletionTemplateFields | client/src/App.jsx:497-502 | a template with all fields filled is kept as is, and a complete fallback always yields a complete template |
| AppSteps.CompletionTemplateIdempotent | client/src/App.jsx:497-502 | normalizing a normalized template changes nothing |
| AppWizard.EffectiveSteps | client/src/App.jsx:945-948 | the wizard always shows at least one step and only enabled ones: the enabled configured steps, or the default steps when none are enabled |
| AppWizard.IdsOf | client/src/App.jsx:619 | the submitted-id set holds exactly the ids of the submitted guests |
| AppWizard.MarkSubmitted | client/src/App.jsx:618-624 | guests whose id was submitted become read-only and are otherwise unchanged; all other guests are untouched, in the same order |
| AppWizard.SubmittedLeavesNonePending | client/src/App.jsx:618-624 | after a successful submission of the pending guests no guest is pending any more |
| AppWizard.NoneEditable | client/src/App.jsx:892 | a guest list with no editable guest has no pending guests |
| AppWizard.AddGuest | client/src/App.jsx:802 | adding a guest appends one fresh adult template and keeps the earlier guests in place |
| AppWizard.RemoveGuest | client/src/App.jsx:803 | removing keeps exactly the guests whose id differs from the removed one |
| AppWizard.RemoveGuestOrder | client/src/App.jsx:803 | removal works piecewise over a split list, keeping order, and leaves a list without that id unchanged |
| AppWizard.ApplyEdit | client/src/App.jsx:804 | editing a field never changes the guest's id, kind or editability |
| AppWizard.UpdateGuest | client/src/App.jsx:804 | an edit changes only the guests carrying the id, keeps the length and keeps the set of ids |
| AppWizard.SubmitGuests | client/src/App.jsx:604-631 | an empty submission succeeds and changes nothing; a failed server call changes nothing; a successful one marks the submitted guests read-only and sets the history flag |
| AppWizard.StepClick | client/src/App.jsx:990-1001 | clicking a step either moves to it or leaves the wizard unchanged |
| AppWizard.Clamp | client/src/App.jsx:795-800 | when some configured step is enabled, the current step ends up inside the enabled steps, by resetting it to the first step when needed |
| AppWizard.Reset | client/src/App.jsx:634-640 | starting over yields step 0, not completed, not agreed, no pets, no history and a single fresh adult guest |
| AppWizard.Next | client/src/App.jsx:889-920 | `handleNext` on the wizard state; NextElsewhere, NextOnRegistration, CompletionNeedsAgreement and NextKeepsGuests state its behaviour, and Wizard.HandleNext that the method performs it |
| AppWizard.NextElsewhere | client/src/App.jsx:889-920 | off the registration step, Next advances to the following step, and on the last step completes the wizard unless the rules step is present and not yet agreed to |
| AppWizard.NextOnRegistration | client/src/App.jsx:889-910 | on the registration step, Next submits the pending guests; a failed submission leaves the wizard unchanged, a successful one advances or completes and marks those guests read-only |
| AppWizard.CompletionNeedsAgreement | client/src/App.jsx:889-920 | the wizard completes only from the last step, and off the registration step only once the rules have been agreed to when the rules step is shown |
| AppWizard.NextKeepsGuests | client/src/App.jsx:889-920 | Next never adds, removes or edits guests; it can only make a guest read-only |
| AppWizard.StepClickAccess | client/src/App.jsx:990-1001 | with a history every step can be opened; without one only welcome, count and registration can, and any other click changes nothing |
| AppWizard.ClampInRange | client/src/App.jsx:795-800 | after clamping, the current step indexes a step the wizard actually shows |
| AppWizard.Wizard.constructor | client/src/App.jsx:551-561 | a new visit starts in the reset state with no configured steps |
| AppWizard.Wizard.HandleGuestSubmit | client/src/App.jsx:604-631 | the wizard's new state and the returned flag are those of the submission on the old state |
| AppWizard.Wizard.HandleNext | client/src/App.jsx:889-920 | the wizard's new state is Next of the old state over the steps shown |
| AppWizard.Wizard.HandleStepClick | client/src/App.jsx:990-1001 | the wizard's new state is the step click on the old state |
| AppWizard.Wizard.ClampStep | client/src/App.jsx:795-800 | the wizard's new state is the clamped old state |
| AppWizard.Wizard.ResetCheckinProcess | client/src/App.jsx:634-640 | the wizard's new state is the reset state |
| AppWizard.Wizard.EnsureGuest | client/src/App.jsx:734-738 | an empty guest list gets one fresh adult guest; a non-empty one and everything else is unchanged |
| PassportOcr.CollapseSpaces | client/src/passportOcr.js:28 | collapsing whitespace leaves only single spaces and the input's non-space characters |
| PassportOcr.RemoveSpaces | client/src/passportOcr.js:10 | removing whitespace keeps only the input's non-space characters |
| PassportOcr.MrzLines | client/src/passportOcr.js:7-11 | the upper-cased lines, split on line breaks and stripped of whitespace, never include an empty line |
| PassportOcr.MrzMatchAt | client/src/passportOcr.js:16 | a match at a position is 9 or 10 characters of the machine-readable alphabet taken from the cleaned line at that position, ending in a digit |
| PassportOcr.MrzMatch | client/src/passportOcr.js:16 | the leftmost match is 9 or 10 characters of the machine-readable alphabet |
| PassportOcr.MrzLineCandidate | client/src/passportOcr.js:14-21 | a line yields a candidate only when it contains "<<", and the candidate is 6 to 10 upper-case letters and digits |
| PassportOcr.MrzScan | client/src/passportOcr.js:6-25 | the value `extractMrzPassportNumber` returns, over the cleaned lines; MrzScanFirst states it and ExtractMrzPassportNumber that the loop computes it |
| PassportOcr.MrzScanFirst | client/src/passportOcr.js:13-24 | the scan returns "" exactly when no line yields a candidate; otherwise it returns the first line's candidate, 6 to 10 letters and digits, from a line containing "<<" |
| PassportOcr.MrzKeepsCheckDigit | client/src/passportOcr.js:14-21 | a `<<` line of machine-readable characters that starts with nine letters and digits and then a digit yields all ten characters, the check digit included, whatever that digit is |
| PassportOcr.NoDigitNoCandidate | client/src/passportOcr.js:16-17 | a line without digits yields no candidate |
| PassportOcr.MrzPairKeepsCheckDigit | client/src/passportOcr.js:13-24 | for a name line without digits followed by such a data line the scan returns the document number with its check digit appended, so it neither strips nor checks that digit |
| PassportOcr.ExtractMrzPassportNumber | client/src/passportOcr.js:6-25 | the loop returns what the machine-readable-zone scan of the text specifies |
| PassportOcr.ScanMrzLines | client/src/passportOcr.js:13-24 | the loop over the lines returns the first candidate of the line specification |
| PassportOcr.LabelCandidatesHasEnd | client/src/passportOcr.js:29 | the optional separators between the keyword and the number may all be absent |
| PassportOcr.NumberAt | client/src/passportOcr.js:29 | the number after the label is 6 to 10 upper-case letters and digits read from the text at that position |
| PassportOcr.LabeledAtShape | client/src/passportOcr.js:29 | a label match at a position yields 6 to 10 letters and digits that really follow "PASSPORT" there |
| PassportOcr.LabeledAtFinds | client/src/passportOcr.js:29 | "PASSPORT" followed directly by a number always matches |
| PassportOcr.ExtractLabeled | client/src/passportOcr.js:27-31 | `extractLabeledPassportNumber` over the normalized text; LabeledShape states the shape and origin of its result and LabeledComplete that a present number is found |
| PassportOcr.LabeledShape | client/src/passportOcr.js:27-31 | a labelled number is 6 to 10 letters and digits that follow some "PASSPORT" in the text |
| PassportOcr.LabeledComplete | client/src/passportOcr.js:27-31 | whenever "PASSPORT" is directly followed by a number the labelled reader finds some number |
| PassportOcr.ExtractPassportNumber | client/src/passportOcr.js:33-37 | the labelled number wins when there is one; otherwise the machine-readable-zone number is used |
| PassportOcr.TrimStartKeeps | client/src/passportOcr.js:4 | trimming the front keeps a word that does not start with a trimmed character, shifted by the amount trimmed |
| PassportOcr.TrimEndKeeps | client/src/passportOcr.js:4 | trimming the end keeps a word that does not end with a trimmed character |
| PassportOcr.TrimKeepsOccurrence | client/src/passportOcr.js:4 | trimming keeps every occurrence of a word free of trimmed characters |
| PassportOcr.LowerKeepsOccurrence | client/src/passportOcr.js:40 | lower-casing keeps an occurrence, lower-cased |
| PassportOcr.LowerPassport | client/src/passportOcr.js:1 | the keyword "PASSPORT" lower-cases to the listed keyword "passport" |
| PassportOcr.LabeledHasKeyword | client/src/passportOcr.js:39-41 | text with a labelled number contains the keyword "passport" after normalization |
| PassportOcr.KeywordSurvives | client/src/passportOcr.js:4-40 | an upper-case "PASSPORT" anywhere in the text survives normalization and lower-casing |
| PassportOcr.PassportHasNoSpace | client/src/passportOcr.js:4 | the label contains no whitespace, so normalization cannot break it |
| PassportOcr.IsLikelyPassportDocument | client/src/passportOcr.js:39-46 | the three tests of `isLikelyPassportDocument` as one disjunction; KeywordMakesLikely and LabeledImpliesLikely state what makes it true |
| PassportOcr.KeywordMakesLikely | client/src/passportOcr.js:39-46 | normalized text containing "passport" is judged a passport |
| PassportOcr.LabeledImpliesLikely | client/src/passportOcr.js:27-46 | any text from which a labelled number is read is judged a passport |
| PassportOcr.Judge | client/src/passportOcr.js:123-124 | one attempt's verdict is the passport judgement and the number read from the same text |
| PassportOcr.Attempts | client/src/passportOcr.js:119-146 | the retry loop from a given attempt with the detector as an oracle; AttemptsSuccess states when it succeeds and ThirdAttemptRejects the third attempt's failure |
| PassportOcr.LocalOcr | client/src/passportOcr.js:96-147 | `runLocalPassportOCR`; LocalOcrContract states the attempt bound, the no-detector reply and the success condition, and RunLocalPassportOcr that the method computes it |
| PassportOcr.AttemptsSuccess | client/src/passportOcr.js:119-146 | the attempts succeed exactly when some remaining attempt's text is a passport with a number; a success reports the first such attempt, its text and its number |
| PassportOcr.LocalOcrContract | client/src/passportOcr.js:96-147 | without a text detector the result is the fixed unsupported reply; otherwise one to three attempts are made and a success carries a non-empty number read from a passport-like text |
| PassportOcr.ThirdAttemptRejects | client/src/passportOcr.js:135-137 | when the first two attempts fail and the third text is not a passport, the reply is a failure with the third text after three attempts |
| PassportOcr.ThirdAttemptNotPassport | client/src/passportOcr.js:135-137 | the same early failure holds for the real passport judgement |
| PassportOcr.RunLocalPassportOcr | client/src/passportOcr.js:96-147 | the loop returns the attempt specification's result and calls the detector once per attempt, at most three times |
| OcrRunner.MrzCharValue | server/tools/paddle_ocr_runner.py:9-16 | a character's value in the check-digit sum is at most 35 |
| OcrRunner.MrzCharValueInjective | server/tools/paddle_ocr_runner.py:9-16 | distinct letters and digits have distinct values; digits are worth 0-9 and letters 10-35 |
| OcrRunner.Weight | server/tools/paddle_ocr_runner.py:20-23 | positions are weighted 7, 3, 1 in turn |
| OcrRunner.CheckDigit | server/tools/paddle_ocr_runner.py:19-24 | the check digit is the digit whose value is the weighted sum modulo 10 |
| OcrRunner.MrzCheckDigit | server/tools/paddle_ocr_runner.py:19-24 | the loop returns the one-character check digit the weighted-sum definition specifies |
| OcrRunner.CheckDigitDetectsDigitError | server/tools/paddle_ocr_runner.py:19-24 | changing any one digit of a field to another digit changes its check digit |
| OcrRunner.SpecimenCheckDigit | server/tools/paddle_ocr_runner.py:19-24 | the check digit of the field "L898902C3" is 6 |
| OcrRunner.PyLines | server/tools/paddle_ocr_runner.py:31 | the kept lines are exactly the non-blank ones, none of them blank |
| OcrRunner.Compact | server/tools/paddle_ocr_runner.py:43 | the compacted text holds no whitespace |
| OcrRunner.RemoveFillers | server/tools/paddle_ocr_runner.py:38 | removing fillers keeps only the other characters of the field and never lengthens it |
| OcrRunner.Search | server/tools/paddle_ocr_runner.py:44 | a search returns the leftmost position where the pattern matches, and none when it matches nowhere |
| OcrRunner.PersonalDataShape | server/tools/paddle_ocr_runner.py:44 | the personal-data pattern is nine document-number characters, a check digit, three letters and seven digits, and its compact-parse extension agrees with it on those first 21 places |
| OcrRunner.CleanMrz | server/tools/paddle_ocr_runner.py:31 | a cleaned line holds only upper-case letters, digits and "<" |
| OcrRunner.MrzLines | server/tools/paddle_ocr_runner.py:31 | every cleaned line holds only upper-case letters, digits and "<" |
| OcrRunner.TwoLineAt | server/tools/paddle_ocr_runner.py:33-40 | a line pair yields a number only when the first line starts with "P<", the second's tenth character is a digit equal to the check digit of its first nine, and the result is those nine without fillers, 6 to 9 long |
| OcrRunner.CompactMrz | server/tools/paddle_ocr_runner.py:42-51 | the compact parse yields only numbers 6 to 9 characters long |
| OcrRunner.LabeledAt | server/tools/paddle_ocr_runner.py:54 | a labelled number at a position is 6 to 10 letters and digits |
| OcrRunner.Labeled | server/tools/paddle_ocr_runner.py:53-56 | the labelled parse yields 6 to 10 letters and digits |
| OcrRunner.MarkerEnd | server/tools/paddle_ocr_runner.py:59 | the marker ends after "PASSPORT" and inside the text |
| OcrRunner.NearAt | server/tools/paddle_ocr_runner.py:62 | a nearby token is one or two letters and seven or eight digits, 8 to 10 characters |
| OcrRunner.NearMarker | server/tools/paddle_ocr_runner.py:58-64 | the nearby-line parse yields 8 to 10 letters and digits |
| OcrRunner.GenericAt | server/tools/paddle_ocr_runner.py:67 | a standalone token is 8 to 10 letters and digits |
| OcrRunner.GenericToken | server/tools/paddle_ocr_runner.py:66-68 | the fallback parse yields 8 to 10 letters and digits |
| OcrRunner.PassportNumberOf | server/tools/paddle_ocr_runner.py:27-68 | `extract_passport_number`; FirstStrategySteps states the order of the five strategies and PassportNumberShape that the result is empty exactly when all fail, otherwise 6-10 upper-case letters or digits |
| OcrRunner.FirstStrategySteps | server/tools/paddle_ocr_runner.py:27-68 | the five strategies are tried in the source's order and the first that yields a number wins |
| OcrRunner.TwoLineSound | server/tools/paddle_ocr_runner.py:32-40 | a two-line result comes from some adjacent pair of lines |
| OcrRunner.TwoLineShape | server/tools/paddle_ocr_runner.py:32-40 | a two-line result is 6 to 9 upper-case letters and digits |
| OcrRunner.CompactShape | server/tools/paddle_ocr_runner.py:42-51 | a compact result is made of upper-case letters and digits |
| OcrRunner.ApplyShape | server/tools/paddle_ocr_runner.py:27-68 | every strategy yields a well-formed number or nothing |
| OcrRunner.PassportNumberShape | server/tools/paddle_ocr_runner.py:27-68 | the passport number is empty or 6 to 10 upper-case letters and digits, and it is empty exactly when no strategy matches |
| OcrRunner.TwoLineAccepts | server/tools/paddle_ocr_runner.py:33-40 | a "P<" line followed by a filler-free field with its correct check digit yields that field |
| OcrRunner.TwoLineRejects | server/tools/paddle_ocr_runner.py:37 | a wrong check digit rejects the line pair |
| OcrRunner.SpecimenTwoLine | server/tools/paddle_ocr_runner.py:32-40 | the specimen pair with check digit 6 yields "L898902C3" and with 5 yields nothing |
| OcrRunner.NoFillers | server/tools/paddle_ocr_runner.py:38 | a field without fillers is unchanged by filler removal |
| OcrRunner.ExtractPassportNumber | server/tools/paddle_ocr_runner.py:27-68 | the method returns the passport number the strategy specification defines |
| OcrRunner.ScanLinePairs | server/tools/paddle_ocr_runner.py:32-40 | the loop over line pairs returns the first pair's number, as specified |
| OcrRunner.IsLikelyPassport | server/tools/paddle_ocr_runner.py:71-78 | `is_likely_passport` as written, including its redundant `'<' in t`; IsLikelyPassportIff states the if-and-only-if and IsLikelyPassportMonotone that appending text keeps a true verdict |
| OcrRunner.IsLikelyPassportIff | server/tools/paddle_ocr_runner.py:71-78 | a text is a likely passport exactly when it holds a passport keyword, or "P<", or at least two field hints |
| OcrRunner.IsLikelyPassportMonotone | server/tools/paddle_ocr_runner.py:71-78 | appending text never makes a likely passport unlikely |
| OcrFields.StrippedLines | server/tools/paddle_ocr_runner.py:94 | the name reader's lines are the non-blank lines, each stripped, in order |
| OcrFields.CleanName | server/tools/paddle_ocr_runner.py:82 | a cleaned name line keeps only letters, commas and whitespace |
| OcrFields.NamePartsShape | server/tools/paddle_ocr_runner.py:86 | the comma-separated parts are non-empty and contain no commas |
| OcrFields.NormalizeName | server/tools/paddle_ocr_runner.py:81-89 | `_normalize_name`: clean, then swap "SURNAME, GIVEN"; no contract of its own: NormalizeNameSwaps states the swap and NormalizeNameText that the output holds only upper-case letters and whitespace |
| OcrFields.NormalizeNameText | server/tools/paddle_ocr_runner.py:81-89 | a normalized name holds only upper-case letters and spaces |
| OcrFields.NormalizeCleanedText | server/tools/paddle_ocr_runner.py:83-89 | the same holds for every cleaned line |
| OcrFields.NormalizeNameSwaps | server/tools/paddle_ocr_runner.py:85-88 | "SURNAME, GIVEN" is normalized to "GIVEN SURNAME" |
| OcrFields.CleanNameKeeps | server/tools/paddle_ocr_runner.py:82 | cleaning keeps an upper-case "SURNAME, GIVEN" line unchanged |
| OcrFields.NamePartsOfPair | server/tools/paddle_ocr_runner.py:86 | such a line splits into exactly the surname and the given name |
| OcrFields.NameAfterLabel | server/tools/paddle_ocr_runner.py:96-99 | a labelled name comes from the line after one containing "NAME" and is its non-empty normalization |
| OcrFields.LastIndex | server/tools/paddle_ocr_runner.py:102 | the greedy surname group ends at the last "<<" that still leaves a given-name group |
| OcrFields.MrzNameAt | server/tools/paddle_ocr_runner.py:102 | an MRZ name match yields a non-empty surname group and given-name group of letters and fillers |
| OcrFields.NameWords | server/tools/paddle_ocr_runner.py:104-105 | turning fillers into spaces leaves only letters and spaces |
| OcrFields.FillersToSpaces | server/tools/paddle_ocr_runner.py:104-105 | replacing fillers by spaces in a group of letters and fillers leaves letters and spaces |
| OcrFields.MrzName | server/tools/paddle_ocr_runner.py:101-108 | the MRZ name is non-empty and holds only upper-case letters and spaces |
| OcrFields.LabelledNameText | server/tools/paddle_ocr_runner.py:95-99 | a labelled name holds only upper-case letters and spaces |
| OcrFields.NameOf | server/tools/paddle_ocr_runner.py:92-109 | `extract_name` on the upper-cased text; no contract of its own: NameOfText states every result is upper-case letters and spaces, NameOfLabelled that a labelled name wins over the MRZ, and ExtractName that the loop computes it |
| OcrFields.NameFrom | server/tools/paddle_ocr_runner.py:92-109 | the strategies of `extract_name` in order: the line after a NAME line, else the MRZ name, else empty; stated through the NameOf lemmas |
| OcrFields.NameOfText | server/tools/paddle_ocr_runner.py:92-109 | every extracted name, possibly empty, holds only upper-case letters and spaces |
| OcrFields.LabelledNameFirst | server/tools/paddle_ocr_runner.py:95-99 | the first "NAME" line whose next line normalizes to a non-empty name decides the name |
| OcrFields.NameOfLabelled | server/tools/paddle_ocr_runner.py:92-99 | a labelled name wins over the MRZ name |
| OcrFields.ExtractName | server/tools/paddle_ocr_runner.py:92-109 | the loop returns the specified name, which holds only letters and spaces |
| OcrFields.DaysInMonth | server/tools/paddle_ocr_runner.py:122 | a month has 28 to 31 days, following the Gregorian leap-year rule |
| OcrFields.MonthNumber | server/tools/paddle_ocr_runner.py:115-118 | a month abbreviation maps to its number 1-12 exactly when it is one of the twelve listed names |
| OcrFields.Two | server/tools/paddle_ocr_runner.py:120 | two digits read as a number below 100 |
| OcrFields.Four | server/tools/paddle_ocr_runner.py:120 | four digits read as a number below 10000 |
| OcrFields.MonthFormDate | server/tools/paddle_ocr_runner.py:120-121 | the DDMONYYYY form applies only to a nine-character token of that shape |
| OcrFields.Checked | server/tools/paddle_ocr_runner.py:122-126 | building a date succeeds exactly when it is a real calendar date |
| OcrFields.NumericDate | server/tools/paddle_ocr_runner.py:124-128 | the numeric forms never raise: a failed format falls through to the next |
| OcrFields.ZeroForO | server/tools/paddle_ocr_runner.py:114 | the corrected O-to-0 rule of "## Findings": every letter O becomes the digit 0, except inside the month of a nine-character DDMONYYYY token (as written, line 114 replaces every O) |
| OcrFields.ParseDateToken | server/tools/paddle_ocr_runner.py:112-129 | the corrected `_parse_date_token` of "## Findings": it never raises, and a parsed date is a real calendar date (as written, an impossible DDMONYYYY date raises and OCT/NOV never parse; see ParseDateTokenAsWritten) |
| OcrFields.Pad2 | server/tools/paddle_ocr_runner.py:120 | a two-digit rendering reads back as the same number |
| OcrFields.Pad4 | server/tools/paddle_ocr_runner.py:120 | a four-digit rendering reads back as the same number |
| OcrFields.DateText | server/tools/paddle_ocr_runner.py:120 | a DDMONYYYY rendering is nine characters long |
| OcrFields.MonthFormText | server/tools/paddle_ocr_runner.py:120 | a date's DDMONYYYY rendering is nine characters long |
| OcrFields.MonthNamesCapital | server/tools/paddle_ocr_runner.py:115-118 | each month name is three capitals and maps back to its own number |
| OcrFields.DateTextShape | server/tools/paddle_ocr_runner.py:120 | the rendering has the DDMONYYYY shape and reads back as its day, month and year |
| OcrFields.ParseDateTokenRoundTrip | server/tools/paddle_ocr_runner.py:112-122 | every real date written as DDMONYYYY parses back to itself |
| OcrFields.ParseDateTokenAsWritten | server/tools/paddle_ocr_runner.py:112-129 | `_parse_date_token` as written: every O becomes 0 before the month is read, and `date(...)` on the DDMONYYYY form is unguarded; ParseDateTokenAsWrittenMissesOctNov and ImpossibleDate state the two defects of "## Findings" |
| OcrFields.ParseDateTokenAsWrittenMissesOctNov | server/tools/paddle_ocr_runner.py:114-122 | as written, a DDMONYYYY date in October or November is never parsed, because the O of OCT and NOV becomes 0 |
| OcrFields.ImpossibleDate | server/tools/paddle_ocr_runner.py:120-122 | as written, an impossible DDMONYYYY date raises an error; the corrected parser reports no date |
| OcrFields.NoLetterO | server/tools/paddle_ocr_runner.py:114 | a DDMONYYYY rendering outside October and November contains no letter O |
| OcrFields.AgeOnCompletedYears | server/tools/paddle_ocr_runner.py:145 | the age is the number of completed years: the last birthday is not after today and the next one is |
| OcrFields.DateMatchAt | server/tools/paddle_ocr_runner.py:140 | a date token at a position is nine characters of DDMONYYYY or ten of a numeric form |
| OcrFields.DateTokens | server/tools/paddle_ocr_runner.py:140 | every found token has one of the three date shapes |
| OcrFields.TokenAge | server/tools/paddle_ocr_runner.py:141-147 | a token yields an age only in 0-120, and an error exactly when parsing it raises |
| OcrFields.PivotYearWindow | server/tools/paddle_ocr_runner.py:156 | a two-digit MRZ year becomes the year ending in those digits within the last hundred years |
| OcrFields.MrzBirthDate | server/tools/paddle_ocr_runner.py:149-158 | an MRZ birth date is a real calendar date |
| OcrFields.MrzAge | server/tools/paddle_ocr_runner.py:149-164 | an MRZ age is in 0-120 |
| OcrFields.TokenAgesDecide | server/tools/paddle_ocr_runner.py:141-147 | the first token with an outcome gives an age in 0-120 or an error |
| OcrFields.BirthAgeDecides | server/tools/paddle_ocr_runner.py:137-147 | the birth-line scan gives an age in 0-120 or an error |
| OcrFields.AgeFrom | server/tools/paddle_ocr_runner.py:132-166 | `extract_age` over a given date parser: birth lines first, then the MRZ birth date; AgeFromRange states any age is in 0-120 and AgeFromNeverRaises that it raises only through the parser |
| OcrFields.AgeOfAsWritten | server/tools/paddle_ocr_runner.py:132-166 | `extract_age` as written, with the as-written parser; ImpossibleBirthDate shows `BIRTH 31FEB1990` raising through it ("## Findings") |
| OcrFields.AgeOf | server/tools/paddle_ocr_runner.py:132-166 | `extract_age` with the corrected parser; AgeOfDecides states it never raises and gives an age in 0-120 or none, and ExtractAge that the loops compute it |
| OcrFields.AgeFromRange | server/tools/paddle_ocr_runner.py:132-166 | any age read is in 0-120 |
| OcrFields.TokenAgesNeverRaise | server/tools/paddle_ocr_runner.py:141-147 | with a parser that never raises, the token scan never raises |
| OcrFields.BirthAgeNeverRaises | server/tools/paddle_ocr_runner.py:137-147 | the same holds for the birth-line scan |
| OcrFields.AgeFromNeverRaises | server/tools/paddle_ocr_runner.py:132-166 | the same holds for the whole age reader |
| OcrFields.AgeOfDecides | server/tools/paddle_ocr_runner.py:132-166 | with the corrected parser the age reader never raises and gives an age in 0-120 or none |
| OcrFields.OneBirthLine | server/tools/paddle_ocr_runner.py:137-147 | a single birth line with one token is decided by that token |
| OcrFields.BirthLineTokens | server/tools/paddle_ocr_runner.py:138-140 | "BIRTH " followed by a DDMONYYYY token mentions birth and holds just that token |
| OcrFields.ImpossibleBirthDate | server/tools/paddle_ocr_runner.py:137-147 | as written, "BIRTH" followed by an impossible date makes the age reader raise; corrected, it finds no age |
| OcrFields.ExtractAge | server/tools/paddle_ocr_runner.py:132-166 | with the corrected parser, the method returns the specified age, always in 0-120, or none (as written, an impossible DDMONYYYY date raises through it; see AgeOfAsWritten) |
| OcrFields.ScanDateTokens | server/tools/paddle_ocr_runner.py:141-147 | with the corrected parser, the loop returns the first token's outcome, and that outcome is always an age |
| OcrNationality.TablesShape | server/tools/paddle_ocr_runner.py:169-185 | every three-letter code in the country table has three letters, every keyword is longer than three letters, and every two-letter code has two |
| OcrNationality.Lookup | server/tools/paddle_ocr_runner.py:195-207 | a lookup finds a value only when the table holds that key with that value, and finds nothing only when no entry has the key |
| OcrNationality.LookupAt | server/tools/paddle_ocr_runner.py:205 | looking up the first entry with a given key returns that entry's value |
| OcrNationality.MrzNationality | server/tools/paddle_ocr_runner.py:190-194 | the nationality read from the machine-readable zone is three upper-case letters |
| OcrNationality.MrzFieldUpper | server/tools/paddle_ocr_runner.py:192 | the three characters after the document number and its check digit are letters |
| OcrNationality.LabelAt | server/tools/paddle_ocr_runner.py:201 | the word after a "NATIONALITY" label is 3 to 15 upper-case letters |
| OcrNationality.LabelledNationality | server/tools/paddle_ocr_runner.py:201-203 | the first labelled nationality is 3 to 15 upper-case letters |
| OcrNationality.LabelAtInText | server/tools/paddle_ocr_runner.py:201 | the labelled word is part of the text |
| OcrNationality.LabelledInText | server/tools/paddle_ocr_runner.py:201-203 | the first labelled word is part of the text |
| OcrNationality.KeywordTestUnreachable | server/tools/paddle_ocr_runner.py:197-207 | when no keyword occurs in the text, the labelled word is never a keyword, so the keyword-table test after the label can never succeed |
| OcrNationality.KeywordOrder | server/tools/paddle_ocr_runner.py:197-199 | keywords are tried in table order and the first one contained in the text decides the code and raw value |
| OcrNationality.KeywordIsEntry | server/tools/paddle_ocr_runner.py:197-199 | a keyword hit is an entry of the keyword table |
| OcrNationality.MrzConsistent | server/tools/paddle_ocr_runner.py:193-195 | an MRZ result keeps the three-letter code as raw and maps it through the country table, or gives an empty code when the code is unknown |
| OcrNationality.KeywordConsistent | server/tools/paddle_ocr_runner.py:197-199 | a keyword result is consistent with the tables and has a non-empty raw value |
| OcrNationality.LabelledConsistent | server/tools/paddle_ocr_runner.py:201-208 | a labelled result maps a known three-letter code through the table, and otherwise gives an empty code with the raw word |
| OcrNationality.NationalityFrom | server/tools/paddle_ocr_runner.py:188-210 | the three strategies of `extract_nationality` in order (MRZ, keyword, label) over given tables; NationalityFromConsistent states the code and raw value agree with the tables |
| OcrNationality.NationalityOf | server/tools/paddle_ocr_runner.py:188-210 | `extract_nationality` on the upper-cased text with the source's tables; NationalityConsistent, MrzDecides and KeywordDecides state its results |
| OcrNationality.NationalityFromConsistent | server/tools/paddle_ocr_runner.py:188-210 | for any well-shaped tables, every reader result is consistent with them, and an empty raw value always comes with an empty code |
| OcrNationality.NationalityConsistent | server/tools/paddle_ocr_runner.py:188-210 | the nationality read from any text is consistent with the source's two tables, and an empty raw value comes with an empty code |
| OcrNationality.MrzDecides | server/tools/paddle_ocr_runner.py:192-195 | the MRZ code wins: raw is the three-letter code, and the code is empty exactly when the table lacks it, otherwise it is the table's entry |
| OcrNationality.KeywordDecides | server/tools/paddle_ocr_runner.py:197-199 | without an MRZ, the first keyword in table order occurring in the text decides the nationality |
| AdminServer.AdminApiToken | server/server.js:28 | the bootstrap token is never empty: a non-empty environment value is used, and otherwise "8808" |
| AdminServer.HexDigit | server/server.js:152 | a nibble is written as a lower-case hexadecimal digit |
| AdminServer.HexDigitInjective | server/server.js:152 | distinct nibbles are written as distinct digits |
| AdminServer.Hex | server/server.js:152 | the hexadecimal form of the random bytes has two digits per byte and only hexadecimal digits |
| AdminServer.HexInjective | server/server.js:151-155 | distinct random byte strings give distinct session tokens |
| AdminServer.SessionToken | server/server.js:157-173 | the token is what follows "Bearer " in the authorization header; otherwise a non-empty session header; otherwise a non-empty query token; otherwise empty |
| AdminServer.BearerFirst | server/server.js:158-161 | a bearer header decides the token whatever the other two carry |
| AdminServer.NonBearerIgnored | server/server.js:159 | an authorization header without the "Bearer " prefix is ignored |
| AdminServer.TokenFromRequest | server/server.js:157-173 | a non-empty token always comes from one of the three places the request offers |
| AdminServer.IssuedChallenge | server/server.js:136-149 | a freshly issued challenge is accepted exactly for its own purpose and until its expiry time inclusive |
| AdminServer.ChallengeSingleUse | server/server.js:142-145 | once consumed, a challenge is never accepted again |
| AdminServer.ConsumeUnknown | server/server.js:143-144 | consuming an unknown challenge leaves the store unchanged |
| AdminServer.IssuedSession | server/server.js:175-178 | a freshly issued session is accepted until its expiry time inclusive |
| AdminServer.RemovedSession | server/server.js:179 | a removed session is never accepted again |
| AdminServer.RemovingOtherSession | server/server.js:179 | removing one session does not affect any other |
| AdminServer.EmptyTokenRefused | server/server.js:178 | the empty token is never accepted |
| AdminServer.ParseRecordData | server/server.js:122-129 | stored guest data that does not parse reads as no guests; otherwise it is the stored list |
| AdminServer.UploadsUrlPrefix | server/server.js:196-197 | the removed prefix lies within the photo value and ends with "/uploads/" |
| AdminServer.RawUploadName | server/server.js:195-197 | stripping the uploads prefix never lengthens the value |
| AdminServer.ToAdminImageUrl | server/server.js:186-200 | an empty or missing photo and a value already under "/api/admin/uploads/" are returned as they are; any other value becomes the admin upload URL of its file name carrying the session token |
| AdminServer.PlainNameUrl | server/server.js:195-199 | a bare file name is served through the admin upload URL unchanged |
| AdminServer.UploadsPathUrl | server/server.js:197-199 | a "/uploads/" path is served through the admin upload URL of the name after it |
| AdminServer.ListedGuest | server/server.js:216-220 | a listed guest keeps its id and other fields, and its deleted flag is true exactly when it was stored as true |
| AdminServer.ListedGuests | server/server.js:215-220 | a listed record holds one listed guest per stored guest, in order |
| AdminServer.DataUrlType | server/server.js:95 | a recognised data URL names a non-empty media type made of the characters the pattern allows, followed by ";base64," |
| AdminServer.ExtensionOfType | server/server.js:100 | the file extension of "type/subtype" is the subtype |
| AdminServer.SavedImageType | server/server.js:92-97 | a photo is saved only when it is a "data:image" URL whose media type is in the allowed set |
| AdminServer.SaveImage | server/server.js:90-120 | saving keeps every other field; a photo that is not an allowed data URL is kept as is; an allowed one is replaced by the file name "<id>_passport.<subtype>" |
| AdminServer.DataUrlTypeOf | server/server.js:95 | a data URL with an allowed-character type and a single-line payload is recognised with that type |
| AdminServer.AllowedSaved | server/server.js:95-111 | every allowed image type is saved under the guest's id with its subtype as extension |
| AdminServer.AllowedTypesShape | server/server.js:20-27 | every allowed type is "image/" followed by a lower-case subtype, all of allowed characters |
| AdminServer.RunExact | server/server.js:95 | a run of matching characters ending before a non-matching one has exactly that length |
| AdminServer.OtherPhotoKept | server/server.js:92-117 | a photo that does not start with "data:image" is kept unchanged |
| AdminServer.StoredForm | server/server.js:477 | a stored guest keeps its id and fields, carries the saved photo, and has a boolean deleted flag that is true only when it was posted as true |
| AdminServer.StoredGuests | server/server.js:477 | the stored list holds one stored guest per posted guest, in order |
| AdminServer.MarkGuests | server/server.js:407-415 | the loop yields the marked list and reports whether some guest carried the id |
| AdminServer.Server.constructor | server/server.js:131-132 | a started server has the configured bootstrap token and no challenges, sessions, credentials or records |
| AdminServer.Server.CreateChallenge | server/server.js:136-140 | the challenge is the URL-safe Base64 of the random bytes and is stored with its purpose and an expiry five minutes on |
| AdminServer.Server.ConsumeChallenge | server/server.js:142-149 | the reply is whether the challenge was known, of the same purpose and not expired, and the challenge is gone afterwards in every case |
| AdminServer.Server.CreateSessionToken | server/server.js:151-155 | the token is the hexadecimal form of the random bytes and is stored with an expiry a day on |
| AdminServer.Server.RequireAdminAuth | server/server.js:175-184 | a request passes exactly when its token is accepted; a refused non-empty token is removed |
| AdminServer.Server.Status | server/server.js:252-260 | the status reports whether any credential is registered |
| AdminServer.Server.RegisterOptions | server/server.js:262-282 | with a credential registered the reply is 403; without the right non-empty bootstrap token it is 401; otherwise a register challenge is issued |
| AdminServer.Server.RegisterVerify | server/server.js:284-303 | a missing challenge or credential id gives 400; the challenge is consumed; a refused one gives 400; an accepted one registers the credential id |
| AdminServer.Server.AuthOptions | server/server.js:305-323 | with no credential the reply is 404; otherwise an auth challenge is issued together with every registered credential id |
| AdminServer.Server.AuthVerify | server/server.js:325-350 | a missing field gives 400; the challenge is consumed; a refused one gives 400; an unknown credential gives 401; otherwise a new session is issued |
| AdminServer.Server.Logout | server/server.js:352-356 | a refused request gives 401; the caller's token is removed either way |
| AdminServer.Server.PatchGuest | server/server.js:379-430 | a refused request gives 401, a non-boolean flag 400, an unknown record 404, unparsable data 500, a missing guest 404; otherwise only the guests carrying the id get the flag |
| AdminServer.Server.Submit | server/server.js:466-496 | a missing or empty guest list gives 400; otherwise the stored form of the guests is saved under the new id with today's date, and a taken id fails with the database's error |
| AdminServer.BootstrapToken | server/server.js:263 | the bootstrap token is a non-empty header, else a non-empty body value, else empty |
| AdminServer.NoBootstrapRefused | server/server.js:263-274 | a request without any bootstrap token can never open registration |
| AdminServer.SubmittedListed | server/server.js:122-129 | a submitted record reads back as the stored guests |
| AdminServer.PatchedListed | server/server.js:407-415 | after a patch the listing shows the new flag on the patched guests and the others exactly as before |

## Left out

- Unicode: `toUpperCase`, Python `upper()`, `\d`, `\w`, `\b` and `str.isdigit` work on all of Unicode. The model has ASCII only, so characters that upper-case into ASCII (such as `ß` or `ﬁ`) and non-ASCII digits are not covered.
- `strptime` in `_parse_date_token` also takes one-digit days and months. The model reads only the two-digit forms the token regex lets through.
- `main()` of the runner (PaddleOCR import and call, `argv`, JSON printing) is I/O; the model starts from the recognised text lines.
- `(text or '')` and the other `None` guards of the runner: the model's inputs are always strings.
- `Date.now()` and `date.today()` are parameters (`now`, `today`); time does not advance inside a call.
- `crypto.randomBytes`, `uuidv4`, and `Math.random`/`Date.now` inside `createStepId` are parameters. Their freshness is not assumed: a repeated token overwrites its map entry, as `Map.set` does, and a repeated check-in id gives SQLite's UNIQUE error.
- WebAuthn signature, attestation and counter checks: the source has none. Its verify endpoints trust the posted `credentialId`, and so does the model.
- Express routing, SQLite callbacks and their 500 answers, and the `fs` write in `saveImagesLocally` (a failed write keeps the guest unchanged) are left out. The model keeps the credential table and the check-in rows as maps.
- The uploads endpoint (`path.join`/`startsWith` traversal check and `sendFile`) and `GET /api/admin/session` are left out. Only the `requireAdminAuth` gate in front of them is modelled.
- `GET /api/records` returns the rows newest first (`ORDER BY created_at DESC`). The model keeps the rows in a map and does not model their order, and the admin page takes the records list as given; `submittedAt` is taken as given.
- `GET /api/steps` and `PUT /api/admin/steps` store and serve template data and are not part of this model; `server/stepTemplates.js` and `server/completionTemplates.js` are static content.
- JSON values that are not strings: in the passkey verify endpoints (`server/server.js:284-350`) a truthy non-string `challenge` passes the presence test and is refused as "Invalid or expired challenge", and a truthy non-string `credentialId` is stored or looked up as given, while the model reads both as absent and answers "challenge and credentialId are required"; numeric ids, a truthy non-string `passportPhoto` (which throws, giving a 500), a non-boolean `deleted` (read here as absent), and a stored `guests` that parses to a non-array (which throws in `map`).
- `encodeURIComponent` is an uninterpreted parameter `encode`; only its use in the image URL is modelled.
- The browser side: React rendering and JSX, `TextDetector`, `createImageBitmap`, canvas and the float grayscale loop, `FileReader`, `localStorage`/`sessionStorage`, `DOMPurify`, the rich-text editor, the `fetch` client `DB`, the zip-code lookup, CSV export, and `navigator.credentials`.
- AppSteps.GetBuiltinStepFallback: an id such as `constructor` that names an `Object.prototype` member is treated as unknown.
- AdminPage.FlatRows: a record's `guests` list is always present in the model, so the `group.guests || []` default never applies. The row keys are built as in the source, but their uniqueness is not claimed.
- The admin page's `todayCount` and `visibleRows` are left out: they only shape the display and depend on the browser clock.
- FormValidation.ParseAge: `parseInt` is exact here; for digit strings past 2^53 JavaScript's float rounding is not modelled.
- FormValidation.ValidateGuestForm: the `!guest || typeof guest !== 'object'` branch is left out, because a modelled guest is always a record.
- OcrNationality.KeywordTestUnreachable proves that the `raw in NATIONALITY_KEYWORDS` test of `extract_nationality` is dead code. The model keeps the test so that it follows the source.

## Findings

| source | as written | input that shows it | evidently intended | confidence | as-written member | corrected member |
|---|---|---|---|---|---|---|
| server/tools/paddle_ocr_runner.py:114-122 | every `O` of the token becomes `0` before the `DDMONYYYY` month name is read, so `OCT` and `NOV` are no longer month names | `12OCT1985` | October and November dates parse like the other months | not executed | OcrFields.ParseDateTokenAsWrittenMissesOctNov | OcrFields.ParseDateTokenRoundTrip |
| server/tools/paddle_ocr_runner.py:120-122,137-147 | `date(...)` on a `DDMONYYYY` token that names no real day raises `ValueError`, and `extract_age` does not catch it, so the whole run fails | `BIRTH 31FEB1990` | an impossible date counts as no date, as in the `strptime` branch | not executed | OcrFields.ImpossibleBirthDate | OcrFields.AgeOfDecides |
