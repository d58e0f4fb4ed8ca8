# vitech-auth-pages: the account store and its rules, in Dafny

This project models the logic core of the vitech-auth-pages front end and proves
properties about it. That core is the local account store, the services and
validators that guard it, and the small state machines around it. Everything is
written as immutable datatypes and pure functions: `state -> (state, result)`.
The browser's `localStorage`, the clock and the random ids are parameters.

| Dafny module | file | models |
|---|---|---|
| `DataService` | data_service.dfy | `src/services/dataService.js`: users, the session pointer, addresses and payment methods |
| `Records`, `Items` | records.dfy, items.dfy | the user and item records, the shallow `{ ...a, ...b }` merges, and the per-user list operations of the store |
| `AuthService` | auth_service.dfy | `src/services/authService.js`: login, register, logout, `isLoggedIn`, password change, profile update, and the three regex validators |
| `FormValidation` | form_validation.dfy | `src/utils/validation.js`: string-returning validators, the three schemas, `validateForm` |
| `ValidationSystem` | validation_system.dfy | `src/lib/validation.js`: accumulating validators, required-value exceptions, `validateForm` with rule lists, password strength |
| `Rules` | rules.dfy | the regular expressions of `src/lib/constants.js` and of the auth service, as character-class predicates |
| `Formatters` | formatters.dfy | `src/utils/formatters.js`: phone clean and format, card masking |
| `PaymentForm` | payment_form.dfy | the pure logic of `PaymentManager.js`: input formatting, submit checks, the record handed to the store |
| `ClearAdmin` | clear_admin.dfy | `src/utils/clearAdminData.js` |
| `Storage` | storage.dfy | `src/lib/storage.js`: the prefixed key/value store, the TTL envelope, watchers, backup and restore |
| `Notifications` | notifications.dfy | `src/services/notificationService.js` |
| `AppContext` | app_context.dfy | `appReducer` and `initialState` of `src/context/AppContext.js` |
| `ErrorHandler` | error_handler.dfy | `src/lib/errorHandler.js`: error classes, `handleError`, friendly messages, the bounded log |
| `ErrorMapping` | error_mapping.dfy | `src/utils/errorHandler.js`: the older error mapping and its factories |
| `FileValidation`, `ImageUtils` | file_validation.dfy, image_utils.dfy | `validateFile` and `isImageFile`; `validateImageFile` |
| `Wrappers`, `Seqs`, `Text` | wrappers.dfy, seqs.dfy, text.dfy | `Option`/`Result`, `filter`/`find`/`findIndex`, and the JavaScript string behaviour the core relies on |

Strings are sequences of Unicode scalar values. The JavaScript `.length` is the
UTF-16 length (`Text.JsLength`). `\d`, `\D` and `\s` follow the ECMAScript
definitions. `toLowerCase` is modelled for ASCII and Latin-1 capitals, and
`toUpperCase` for ASCII letters. Integers are unbounded. The ids the source takes
from `Date.now()` are `int` parameters, and so are the `Date.now()` timestamps of
notifications and storage entries. ISO timestamps from `toISOString` are opaque strings.

### Where the code and its description disagree

The model follows the code in each of these cases.

- Three message keys are missing. `src/utils/validation.js` reads
  `MESSAGES.PASSWORD_WEAK`, `MESSAGES.ADMIN_BLOCKED` and
  `MESSAGES.PASSWORD_MISMATCH`, but in `src/lib/constants.js` those keys exist only
  under `MESSAGES.ERROR`. Those branches therefore return `undefined`, which
  `validateForm` treats as passing. In the model this is `FormValidation.Check.Undefined`.
- The password pattern in `VALIDATION_RULES` has no end anchor and no repetition
  count. Only the first character after the lookaheads must be a password
  character (`Rules.PasswordPatternTest`).
- The admin check in `removeAdminAccount` never fires. It looks the session up in
  the list the admins were already removed from, so an admin's session pointer is
  left dangling (`DataService.AdminSessionDangles`).
- `src/utils/errorHandler.js` reads `MESSAGES.VALIDATION_ERROR` and similar keys.
  `src/constants/index.js` has no such keys, so the literal fallbacks are always
  used.

## Model

| member | source | states |
|---|---|---|
| DataService.Initialize | src/services/dataService.js:10-21 | a missing list becomes empty and a missing pointer becomes `'null'`; afterwards no user is named exactly `admin`, and a present pointer is kept |
| DataService.ClearAllData | src/services/dataService.js:203-207 | after clearing, the store is an empty list with no session |
| DataService.RemoveAdminAccount | src/services/dataService.js:210-220 | exactly the users named `admin` are dropped and the session pointer is never changed, because the logout branch is dead |
| DataService.AdminSessionDangles | src/services/dataService.js:210-220 | an admin's session survives the removal of the admin and then resolves to no user |
| DataService.UserIndex | src/services/dataService.js:58-61 | the index found is the first user with that id; absence means no user has it |
| DataService.AllUsersListsLookups | src/services/dataService.js:25-42 | `getAllUsers` is the list the lookups search: an id is found iff a listed user has it, and whatever a lookup returns is a listed user |
| DataService.GetUserById | src/services/dataService.js:28-31 | returns the first user with the id, or nothing exactly when no user has it |
| DataService.GetUserByUsername | src/services/dataService.js:33-37 | returns the first user whose non-empty trimmed, lower-cased username equals the query's; nothing iff no user matches |
| DataService.GetUserByEmail | src/services/dataService.js:39-42 | returns the first user with exactly that email (case-sensitive); nothing iff none has it |
| DataService.FirstUsernameMatchFound | src/services/dataService.js:33-37 | whichever user is the first match is the one returned |
| DataService.FirstEmailMatchFound | src/services/dataService.js:39-42 | whichever user is the first email match is the one returned |
| DataService.UsernameLookupIgnoresNormalization | src/services/dataService.js:33-37 | looking up the normalised query finds the same user as the raw query |
| DataService.CreateUser | src/services/dataService.js:44-56 | exactly one record is appended at the end; the others and the pointer are unchanged; the record's addresses and payment methods are empty whatever the input held |
| DataService.CreateThenGet | src/services/dataService.js:44-56 | with a fresh id, the created record is what a lookup by that id returns |
| DataService.UpdateUser | src/services/dataService.js:58-67 | an unknown id writes nothing and returns nothing; otherwise only the matched user changes, to the shallow merge, and it is returned |
| DataService.GetCurrentUser | src/services/dataService.js:70-76 | no session iff the pointer is empty or `'null'`; an active session is the stored user whose id the pointer parses to; otherwise the session dangles |
| DataService.SetCurrentUser | src/services/dataService.js:78-80 | the pointer is exactly `id.toString()`, parses back to the id, and is never read as "no session"; users are unchanged |
| DataService.ClearCurrentUser | src/services/dataService.js:82-84 | afterwards there is no session and users are unchanged |
| DataService.SetThenGetCurrent | src/services/dataService.js:70-80 | pointing the session at a stored id makes the current user the first user with that id |
| DataService.AddItem | src/services/dataService.js:87-101 | an unknown user writes nothing; otherwise exactly that user's collection grows by one item at the end, which is the default iff the collection was empty |
| DataService.AddAddress | src/services/dataService.js:87-101 | the address form of the add behaviour |
| DataService.AddPaymentMethod | src/services/dataService.js:145-159 | the payment-method form of the add behaviour |
| DataService.UpdateItem | src/services/dataService.js:103-118 | nothing is written when the user or the item is missing; otherwise only the first item with the id is merged and returned |
| DataService.UpdateAddress | src/services/dataService.js:103-118 | the address form of the update behaviour |
| DataService.UpdatePaymentMethod | src/services/dataService.js:161-176 | the payment-method form of the update behaviour |
| DataService.DeleteItem | src/services/dataService.js:120-129 | `false` and no write for an unknown user; otherwise `true`, and exactly the items with the id are removed, with nothing re-flagged |
| DataService.DeleteAddress | src/services/dataService.js:120-129 | the address form of the delete behaviour |
| DataService.DeletePaymentMethod | src/services/dataService.js:178-187 | the payment-method form of the delete behaviour |
| DataService.SetDefaultItem | src/services/dataService.js:131-142 | `false` and no write for an unknown user; otherwise each item's flag becomes "its id is the target" |
| DataService.SetDefaultAddress | src/services/dataService.js:131-142 | the address form of the set-default behaviour |
| DataService.SetDefaultPaymentMethod | src/services/dataService.js:189-200 | the payment-method form of the set-default behaviour |
| DataService.SetDefaultIdempotent | src/services/dataService.js:131-142 | setting the same default twice leaves the store as setting it once |
| DataService.DeleteDefaultDoesNotPromote | src/services/dataService.js:87-129 | add two addresses to a user with none, then delete the first (the default): the second survives and is still not the default |
| Records.MergeItem | src/services/dataService.js:109-112 | each key the update carries overrides, every other key is kept, and the key set is the union |
| Records.MergeUser | src/services/dataService.js:62 | each field the update carries overrides and every other field is kept; profile keys are the union |
| Records.MergeNothing | src/services/dataService.js:62 | merging the empty object changes nothing |
| Records.MergeUserIdempotent | src/services/dataService.js:62 | applying the same update twice equals applying it once |
| Records.MergePasswordOnly | src/services/authService.js:85 | merging `{ password }` changes only the password |
| Records.RemoveAdmins | src/services/dataService.js:212 | the result holds no user named exactly `admin`, and every other user exactly as often as before |
| Records.RemoveAdminsAppend | src/services/dataService.js:212 | removing admins works piecewise over a concatenation, so the users kept stay in their order |
| Records.RemoveAdminsIdempotent | src/services/dataService.js:211-213 | removing admins twice is removing them once |
| Items.NewItem | src/services/dataService.js:91-95 | the new item is the default iff the list was empty; the caller's id overrides the fresh one |
| Items.IndexOf | src/services/dataService.js:107 | the index found is the first item with the id; absence means no item has it |
| Items.UpdateFirst | src/services/dataService.js:107-114 | only the first item with the id is merged and the length is kept; nothing when no item has it |
| Items.RemoveId | src/services/dataService.js:124 | no item with the id survives, and every other item stays exactly as often as before |
| Items.RemoveIdAppend | src/services/dataService.js:124 | deletion works piecewise over a concatenation, so the items kept stay in their order |
| Items.MarkDefault | src/services/dataService.js:135-137 | each item keeps everything but its flag, which becomes "its id is the target" |
| Items.MarkDefaultCount | src/services/dataService.js:135-137 | after re-flagging, the number of defaults is the number of items carrying the target id |
| Items.MarkDefaultExactlyOne | src/services/dataService.js:135-137 | with unique ids, exactly one default when the target exists and none when it does not |
| Items.MarkDefaultIdempotent | src/services/dataService.js:135-137 | re-flagging twice equals re-flagging once |
| Items.NewItemKeepsAtMostOneDefault | src/services/dataService.js:91-96 | appending a new item keeps at most one default |
| Items.RemoveIdNeverPromotes | src/services/dataService.js:124 | deletion never increases the number of defaults |
| Items.RemoveOnlyDefault | src/services/dataService.js:124 | deleting the only default item leaves no default |
| AuthService.ValidatePassword | src/services/authService.js:117-121 | true iff the password matches the full-match rule: at least 8 characters from `[A-Za-z0-9@$!%*?&]`, with a lower-case letter, an upper-case letter, a digit and a symbol |
| AuthService.ValidateEmail | src/services/authService.js:124-127 | true iff the email splits as non-blank segment, `@`, segment, `.`, segment |
| AuthService.ValidateUsername | src/services/authService.js:130-134 | true iff 3 to 20 characters, all from `[A-Za-z0-9_]` |
| AuthService.ValidUsernameSurvivesNormalize | src/services/authService.js:130-134 | an accepted username has nothing to trim, and its lower-cased form is accepted too |
| AuthService.Login | src/services/authService.js:5-13 | succeeds iff the first case- and blank-insensitive username match holds exactly that password; success points the session at that user; failure is the same single message and writes nothing |
| AuthService.LoginFindsFirstMatch | src/services/authService.js:5-13 | the first match's own password signs that user in |
| AuthService.Register | src/services/authService.js:16-49 | refuses `admin`, then a taken username, then a taken email, then a weak password, in that order and without writing; otherwise appends the user under its normalised username and signs it in |
| AuthService.RegisterThenLogin | src/services/authService.js:5-49 | after registering, logging in with the same raw username and password returns the new user and leaves the store unchanged |
| AuthService.Logout | src/services/authService.js:52-55 | always succeeds, keeps users, and leaves no session |
| AuthService.IsLoggedIn | src/services/authService.js:63-65 | true iff the pointer is non-empty and not `'null'`, whether or not it names a stored user |
| AuthService.HasActiveSession | src/services/authService.js:63-65 | the intended test: true iff the pointer parses to the id of a stored user |
| AuthService.StalePointerCountsAsLoggedIn | src/services/authService.js:63-65 | with no users, a pointer `"7"` counts as signed in but is not an active session |
| AuthService.GuardsUseActiveSession | src/services/authService.js:68-94 | the password change and the profile update report "not signed in" exactly when there is no active session |
| AuthService.LogoutEndsSession | src/services/authService.js:52-65 | after logout neither test reports a session |
| AuthService.ChangePassword | src/services/authService.js:68-87 | fails on no session, then a wrong current password, then a weak new one, without writing; success changes only that user's password |
| AuthService.ChangePasswordKeepsSession | src/services/authService.js:68-87 | after a successful change, the session resolves to the updated user |
| AuthService.UsernameClashMeansHeld | src/services/authService.js:97-102 | the lookup-based username check fires iff another user's username matches case-insensitively |
| AuthService.EmailClashMeansHeld | src/services/authService.js:105-110 | the lookup-based email check fires iff another user holds exactly that email |
| AuthService.UpdateProfile | src/services/authService.js:90-114 | with a session, refuses a username and then an email held by another user; otherwise shallow-merges the data into the user without validating it |
| AuthService.UpdateOwnIdentityAccepted | src/services/authService.js:96-110 | resubmitting one's own username and email never clashes |
| FormValidation.ValidateEmail | src/utils/validation.js:12-20 | `''` iff the input is non-empty and matches the email pattern; otherwise the required or the invalid message |
| FormValidation.ValidatePassword | src/utils/validation.js:22-38 | checks empty, too short, too long, then the pattern, first failure wins; a pattern failure yields `undefined`, so the result is falsy iff the length is in [8,128] |
| FormValidation.ValidateUsername | src/utils/validation.js:40-59 | checks empty, length, characters, then `admin`; the `admin` branch yields `undefined`, so the result is falsy iff the username matches the 3-20 word pattern |
| FormValidation.ValidateConfirmPassword | src/utils/validation.js:61-65 | an empty confirmation gets a message; a mismatch yields `undefined`; falsy iff the confirmation is non-empty |
| FormValidation.ValidateRequired | src/utils/validation.js:67-72 | the field-is-required message iff the value is empty or blank |
| FormValidation.ValidateName | src/utils/validation.js:74-83 | required message for a blank name; `''` iff not blank, untrimmed length in [2,50], and every character a letter, in À-ÿ or a space |
| FormValidation.ValidatePhone | src/utils/validation.js:85-112 | `''` iff empty, or ten digits after removing non-digits with a valid prefix; the "digits only" message is never produced |
| FormValidation.ValidateForm | src/utils/validation.js:138-152 | every field is visited; a field is in `errors` iff its result is truthy, holding that text; `isValid` iff no result was truthy |
| FormValidation.Gather | src/utils/validation.js:142-149 | the loop records exactly the truthy results under their names and nothing else |
| FormValidation.SchemasDistinct | src/utils/validation.js:115-135 | the three schemas have distinct field names |
| FormValidation.AdminUsernamePasses | src/utils/validation.js:52-54 | `Admin` gets `undefined`, which the form treats as passing |
| FormValidation.MismatchedConfirmationPasses | src/utils/validation.js:126 | a non-empty confirmation that differs from the password passes the sign-up form |
| FormValidation.ProfilePhoneOptional | src/utils/validation.js:129-135 | a profile form without a phone passes the phone field |
| FormValidation.StrongPasswordPassesForm | src/utils/validation.js:22-38 | every password the auth service accepts, up to 128 characters, passes the form |
| FormValidation.SpacedPasswordPassesForm | src/utils/validation.js:22-38 | the form passes `Aa1@ xyz`, which the auth service refuses |
| ValidationSystem.Finish | src/lib/validation.js:40-45 | valid iff no check failed; with `throwOnError` the first failure is thrown for the field |
| ValidationSystem.Missing | src/lib/validation.js:23-28 | an empty value throws iff required, and is otherwise valid with no errors |
| ValidationSystem.ValidateEmail | src/lib/validation.js:20-46 | required by default; valid iff at most 254 units and matching the pattern on the raw input |
| ValidationSystem.ValidatePassword | src/lib/validation.js:49-92 | required by default; every failing check is reported in order, and the report carries the strength and requirement flags |
| ValidationSystem.PasswordChecksPass | src/lib/validation.js:59-77 | no check fails iff the length is within bounds, the pattern matches and any confirmation agrees; the mismatch is reported iff a confirmation differs |
| ValidationSystem.ValidateUsername | src/lib/validation.js:95-131 | required by default; the checks run on the trimmed, lower-cased name, which is also returned |
| ValidationSystem.UsernameChecksPass | src/lib/validation.js:105-123 | no check fails iff the normalised name matches the 3-20 word pattern and is not reserved |
| ValidationSystem.ValidatePhone | src/lib/validation.js:134-167 | optional by default; checks run on the digit projection, which is returned; a wrong length always brings the pattern error with it |
| ValidationSystem.ValidateName | src/lib/validation.js:170-202 | required by default; the checks run on the trimmed name, which is returned |
| ValidationSystem.NameChecksPass | src/lib/validation.js:180-194 | no check fails iff the trimmed length is in [2,50] and the name pattern matches |
| ValidationSystem.EmptyNameFailures | src/lib/validation.js:182-194 | a name that trims to nothing fails the minimum length and the pattern, not the maximum |
| ValidationSystem.BlankNameReportsTwoErrors | src/lib/validation.js:170-202 | a blank name is not missing: it is reported with two errors instead of throwing |
| ValidationSystem.ValidateRequired | src/lib/validation.js:205-210 | throws iff the value is empty or blank |
| ValidationSystem.PasswordStrength | src/lib/validation.js:286-302 | the score is the number of true checks among six, at most 6; weak iff at most 2, medium iff 3-4, strong iff at least 5 |
| ValidationSystem.PasswordRequirements | src/lib/validation.js:305-313 | each flag holds iff its containment or length test holds |
| ValidationSystem.StrengthCountsRequirements | src/lib/validation.js:286-313 | the strength score is the five requirement flags plus the 12-character bonus |
| ValidationSystem.AcceptedPasswordIsStrong | src/lib/validation.js:49-92 | every password the validator accepts is rated strong |
| ValidationSystem.PatternPasswordIsStrong | src/lib/validation.js:286-302 | at least eight units plus the pattern make a strong rating |
| ValidationSystem.RegisterValidator | src/lib/validation.js:15-17 | the new validator replaces any of that name and the others are kept |
| ValidationSystem.ApplyBuiltIn | src/lib/validation.js:265-283 | the five built-in names dispatch to their validators; a registered custom name runs its validator; any other name throws a non-validation error |
| ValidationSystem.NameValidatorIsNotBuiltIn | src/lib/validation.js:265-283 | `name` is not a built-in validator name, so with no custom validators it throws |
| ValidationSystem.RunRules | src/lib/validation.js:225-237 | a field passes iff all its rules pass; otherwise its outcome is that of the first rule that does not pass |
| ValidationSystem.Rethrown | src/lib/validation.js:244-246 | a failing field is rethrown as a validation error |
| ValidationSystem.ValidateForm | src/lib/validation.js:213-262 | every field is visited in order; a field is in `results` unless a foreign exception was swallowed, and in `errors` iff it fails; with `throwOnFirstError`, the first failing field's error is thrown instead |
| ValidationSystem.Collect | src/lib/validation.js:219-259 | the field loop records each outcome under its name, stopping only at the first failure when throwing |
| Rules.EmailScanMatchesRegex | src/lib/constants.js:46 | the scanning email test accepts exactly the strings the email regex matches |
| Rules.StrongPasswordMatchesRegex | src/services/authService.js:119 | the containment form of the password rule is exactly the full-match regex |
| Rules.StrongPasswordPassesPattern | src/lib/constants.js:31 | every password the full rule accepts passes the unanchored pattern |
| Rules.PatternAcceptsSpace | src/lib/constants.js:31 | the unanchored pattern accepts a password with a space, which the full rule refuses |
| Formatters.CleanPhoneNumber | src/utils/formatters.js:29-32 | the result is all digits, is the digit projection of the input, and leaves an all-digit input unchanged |
| Formatters.CleanPhoneIdempotent | src/utils/formatters.js:29-32 | cleaning twice is cleaning once |
| Formatters.FormatPhoneNumber | src/utils/formatters.js:10-22 | ten digits come out as `ddd ddd dddd`; any other count as the bare digits; empty for an empty input |
| Formatters.FormatThenClean | src/utils/formatters.js:10-32 | round trip: cleaning the formatted number gives the clean number |
| Formatters.FormatCardNumber | src/utils/formatters.js:68-77 | with at least four digits, the mask and the last four digits; otherwise the input unchanged |
| Formatters.MaskRevealsLastFour | src/utils/formatters.js:68-77 | the only digits a masked number shows are the last four |
| Formatters.MaskHasNoDigits | src/utils/formatters.js:74 | the mask itself contains no digit |
| PaymentForm.GroupCard | src/features/profile/components/PaymentManager.js:166 | one space is added per full group of four that another digit follows |
| PaymentForm.GroupCardLayout | src/features/profile/components/PaymentManager.js:166 | every fifth character is a space and the others are the digits in order |
| PaymentForm.GroupCardEnds | src/features/profile/components/PaymentManager.js:166 | the grouping starts and ends with a digit of the number, never a space |
| PaymentForm.GroupCardDigits | src/features/profile/components/PaymentManager.js:165-166 | removing the spaces gives back the digits |
| PaymentForm.FormatCardInput | src/features/profile/components/PaymentManager.js:163-167 | the formatted input holds exactly the digits typed |
| PaymentForm.FormatExpiryInput | src/features/profile/components/PaymentManager.js:168-172 | fewer than four digits stay as typed digits; otherwise a slash follows the first two |
| PaymentForm.ExpiryInputDigits | src/features/profile/components/PaymentManager.js:170-171 | the slash is the only character added |
| PaymentForm.ExpiryInputShape | src/features/profile/components/PaymentManager.js:168-172 | the formatted expiry has the `MM/YY` shape iff exactly four digits were typed |
| PaymentForm.InputChange | src/features/profile/components/PaymentManager.js:162-176 | only the named input changes, formatted for the card number and expiry and verbatim otherwise |
| PaymentForm.EditPrefill | src/features/profile/components/PaymentManager.js:56-65 | editing shows `****` and the stored last four, the stored card type, and the stored expiry and name |
| PaymentForm.SubmitCheck | src/features/profile/components/PaymentManager.js:76-92 | rejects a missing field, then a digit count outside [13,19], then an expiry not shaped `dd/dd`, first failure wins; the month is not checked |
| PaymentForm.PaymentData | src/features/profile/components/PaymentManager.js:97-102 | the record holds type, expiry, name and only the last four digits, which end the typed digits |
| PaymentForm.Submit | src/features/profile/components/PaymentManager.js:73-122 | a refused form writes nothing; an accepted one adds the card, or updates the card being edited, and reports the outcome |
| PaymentForm.UndefinedHasNoDigits | src/features/profile/components/PaymentManager.js:61 | the prefill of a card without `last4` has no digits |
| PaymentForm.PrefillDigits | src/features/profile/components/PaymentManager.js:61 | a prefill cleans to at most four digits |
| PaymentForm.EditWithoutRetypingRefused | src/features/profile/components/PaymentManager.js:56-92 | submitting an edit without retyping the number is always refused and writes nothing |
| PaymentForm.AddedCardKeepsLastFour | src/features/profile/components/PaymentManager.js:97-108 | the added card carries the last four typed digits and is the default iff it is the user's first |
| ClearAdmin.StoredUsers | src/utils/clearAdminData.js:4 | a missing entry reads as the empty list |
| ClearAdmin.PointedUser | src/utils/clearAdminData.js:11 | the first user whose `id.toString()` is the pointer, or none iff no id renders to it |
| ClearAdmin.ClearAdminData | src/utils/clearAdminData.js:2-23 | an unreadable list gives `false` and no write; otherwise the admins are filtered out, and the pointer is reset iff it named an admin of the list before filtering |
| ClearAdmin.NoAdminToPoint | src/utils/clearAdminData.js:9-15 | no session pointer refers to an admin of a list without admins |
| ClearAdmin.ClearAdminIdempotent | src/utils/clearAdminData.js:3-18 | a second run changes nothing and succeeds |
| ClearAdmin.ClearedPointerNamesNoAdmin | src/utils/clearAdminData.js:9-15 | after a run, the session pointer refers to no admin of the stored list |
| Storage.GetKey | src/lib/storage.js:202-204 | the stored key is the prefix followed by the name |
| Storage.GetKeyInjective | src/lib/storage.js:202-204 | distinct names never share a stored key |
| Storage.Wire | src/lib/storage.js:41 | the JSON round trip drops `undefined` properties and keeps array lengths |
| Storage.WirePlain | src/lib/storage.js:41 | a value without `undefined` inside survives the round trip unchanged |
| Storage.WireIsPlain | src/lib/storage.js:41 | what comes out of the round trip has no `undefined` inside |
| Storage.WireIdempotent | src/lib/storage.js:41 | a second round trip changes nothing |
| Storage.Prop | src/lib/storage.js:65-70 | a property read yields the field of an object, else `undefined` |
| Storage.Decompress | src/lib/storage.js:219-222 | decompressing the JSON text of a value gives the value back |
| Storage.SetItem | src/lib/storage.js:17-51 | fails with a storage error iff compression meets `undefined`; otherwise exactly the key's entry is replaced |
| Storage.GetItem | src/lib/storage.js:54-87 | a missing, unreadable or `null` entry gives the default; an expired one gives the default and is removed; a live one gives its `data`, decompressed (default if that fails) when flagged; only expiry changes storage |
| Storage.SetThenGet | src/lib/storage.js:17-87 | a write without expiry reads back as the value as JSON carries it, at any later time, compressed or not |
| Storage.EnvelopeWire | src/lib/storage.js:21-41 | the stored envelope's `data`, `ttl` and `compressed` properties are what was written |
| Storage.TtlEntry | src/lib/storage.js:24 | a write with a TTL stores the instant `now + ttl` and counts as expired exactly when the clock is past it |
| Storage.TtlBoundary | src/lib/storage.js:64-68 | an entry is still read at exactly its expiry instant, and read as the default and removed once past it |
| Storage.RemoveItem | src/lib/storage.js:90-102 | exactly that key's entry goes |
| Storage.Clear | src/lib/storage.js:105-121 | every prefixed key goes and every other key stays unchanged |
| Storage.GetKeys | src/lib/storage.js:129-134 | the names listed are exactly those with an entry under the prefix |
| Storage.HasItem | src/lib/storage.js:124-126 | holds iff some stored key is the prefix followed by the name, expired or not |
| Storage.HasItemUntilRead | src/lib/storage.js:54-126 | an absent name reads as the default; an expired entry is still held until a read returns the default and removes it |
| Storage.ClearEmptiesKeys | src/lib/storage.js:105-134 | after clearing, no name is listed |
| Storage.Watch | src/lib/storage.js:156-160 | the callback joins the key's set and other keys are untouched |
| Storage.Unwatch | src/lib/storage.js:163-171 | the callback leaves the key's set, and the key goes once its set is empty |
| Storage.WatchThenUnwatch | src/lib/storage.js:156-172 | unwatching a freshly added callback restores the listeners |
| Storage.TakeBackup | src/lib/storage.js:237-250 | the backup holds each listed name's current value; expired entries are removed as a side effect |
| Storage.SetAll | src/lib/storage.js:263-265 | every write succeeds iff no value is `undefined`; keys outside the prefix are never touched |
| Storage.Restore | src/lib/storage.js:253-271 | a backup without `data` is refused with no change; otherwise it succeeds iff no value is `undefined`, never touches unprefixed keys, and on success holds exactly the backup's names, each reading back as its value as JSON carries it |
| Storage.SetAllAfterClear | src/lib/storage.js:253-271 | writing entries over a cleared store holds exactly their names, each reading back |
| Storage.SetAllKeys | src/lib/storage.js:263-265 | after a successful restore, exactly the restored names are held |
| Storage.SetAllReadsBack | src/lib/storage.js:263-265 | with distinct names, each restored name reads back as its value as JSON carries it |
| Storage.SetAllFrame | src/lib/storage.js:263-265 | writing other names leaves a name's entry as it was |
| Storage.RestoreReadsBack | src/lib/storage.js:253-271 | restoring a backup of defined values succeeds and brings every value back |
| Notifications.Add | src/services/notificationService.js:9-27 | the counter always advances; the record is appended with the counter as id unless the caller gives one, and that id is returned |
| Notifications.Remove | src/services/notificationService.js:30-33 | no record with the id survives and every other record stays exactly as often as before |
| Notifications.RemoveAppend | src/services/notificationService.js:30-33 | removal works piecewise over a concatenation, so the records kept stay in their order, whatever their ids |
| Notifications.Clear | src/services/notificationService.js:36-39 | the list is emptied and nothing else changes |
| Notifications.GetAll | src/services/notificationService.js:42-44 | a copy equal to the list |
| Notifications.Subscribe | src/services/notificationService.js:47-48 | the listener is appended |
| Notifications.Unsubscribe | src/services/notificationService.js:49-51 | every occurrence of that listener goes and every other listener stays exactly as often as before |
| Notifications.SubscribeThenUnsubscribe | src/services/notificationService.js:47-52 | unsubscribing a newly subscribed listener restores the listener list |
| Notifications.WithDefaults | src/services/notificationService.js:62-93 | the caller's options override the type, message and duration defaults |
| Notifications.Notify | src/services/notificationService.js:62-93 | `success`, `error`, `warning`, `info`: one record appended after the others, its type and message from the shortcut unless the options give them, duration 0 for `error` and the options' otherwise; the id returned is the record's |
| Notifications.AddThenRemove | src/services/notificationService.js:9-33 | with ordered ids, removing the record just added by the id `add` returned restores the list |
| Notifications.NotifyThenRemove | src/services/notificationService.js:30-93 | dismissing a shortcut's notification by its returned id restores the list, and the ids stay ordered |
| Notifications.InitialOrdered | src/services/notificationService.js:2-6 | the fresh service has ordered ids |
| Notifications.AddKeepsOrder | src/services/notificationService.js:9-16 | adding without an explicit id keeps the ids increasing and below the counter |
| Notifications.ExplicitIdBreaksOrder | src/services/notificationService.js:10-14 | a caller-supplied id can break the order |
| Notifications.FilterKeepsOrder | src/services/notificationService.js:31 | filtering a list with increasing ids keeps them increasing |
| Notifications.RemoveKeepsOrder | src/services/notificationService.js:30-33 | removing keeps the ids ordered |
| Notifications.AddedIdIsFresh | src/services/notificationService.js:9-14 | with ordered ids, `add` hands out an id no stored record has |
| AppContext.Reduce | src/context/AppContext.js:25-64 | each action sets its own fields and keeps the rest; setting the user picks the profile or login page; setting an error ends loading; reset restores the initial state; unknown actions change nothing |
| AppContext.ReduceIdempotent | src/context/AppContext.js:25-64 | dispatching the same action twice equals dispatching it once |
| AppContext.ReduceAllAppend | src/context/AppContext.js:25-64 | dispatching two batches in turn equals dispatching their concatenation |
| AppContext.ResetForgetsHistory | src/context/AppContext.js:59-60 | whatever came before a reset is forgotten |
| AppContext.ThemeNeedsThemeAction | src/context/AppContext.js:54-60 | only theme and reset actions change the theme |
| AppContext.LoggedInStaysOnProfile | src/context/AppContext.js:27-37 | a signed-in user stays on the profile page until a page, user or reset action |
| ErrorHandler.ValidationError | src/lib/errorHandler.js:30-34 | code `VALIDATION_ERROR`, status 400, with the field and value in the details |
| ErrorHandler.AuthError | src/lib/errorHandler.js:36-40 | code `AUTH_ERROR`, status 401, with the action in the details |
| ErrorHandler.NetworkError | src/lib/errorHandler.js:42-46 | code `NETWORK_ERROR`, status 500, with the url and method in the details |
| ErrorHandler.FileError | src/lib/errorHandler.js:48-52 | code `FILE_ERROR`, status 400, with the file name and size in the details |
| ErrorHandler.StorageError | src/lib/errorHandler.js:54-58 | code `STORAGE_ERROR`, status 500, with the key in the details |
| ErrorHandler.SubclassStatuses | src/lib/errorHandler.js:30-58 | validation and file errors are 400 with different codes; auth is 401; network and storage are 500 |
| ErrorHandler.ErrorCode | src/lib/errorHandler.js:117-122 | only the names `ValidationError` and `NetworkError` get their own code; everything else is generic |
| ErrorHandler.Process | src/lib/errorHandler.js:92-111 | an `AppError` passes through; another `Error` is wrapped with its code and status 500; any other value becomes a generic 500 |
| ErrorHandler.FriendlyMessage | src/lib/errorHandler.js:136-151 | validation, auth and file errors show their own message unless it is empty; network and storage show fixed text; other codes show the generic text |
| ErrorHandler.FriendlyMessageNonEmpty | src/lib/errorHandler.js:136-151 | the user never sees an empty message |
| ErrorHandler.FriendlyMessageIgnoresDetails | src/lib/errorHandler.js:136-151 | the text shown depends only on the code and the message |
| ErrorHandler.ToEntry | src/lib/errorHandler.js:155-158 | a log entry carries the error's serialised fields and the generated id |
| ErrorHandler.LogError | src/lib/errorHandler.js:153-163 | the entry goes first, the older entries follow in order, and the log is capped at 100 |
| ErrorHandler.LogKeepsNewest | src/lib/errorHandler.js:153-163 | the log holds the last 100 entries logged (all when fewer), newest first |
| ErrorHandler.GetErrorLog | src/lib/errorHandler.js:194-196 | a copy with the same entries in the same order |
| ErrorHandler.ClearErrorLog | src/lib/errorHandler.js:198-200 | the log is emptied |
| ErrorHandler.HandleError | src/lib/errorHandler.js:92-115 | the processed error's entry goes to the front of the log, older entries follow and the log stays capped at 100; the caller gets the friendly message and the code, status and timestamp of that entry, under its own id |
| ErrorHandler.ReportMatchesLog | src/lib/errorHandler.js:113-134 | the user's report and the newest log entry agree on the code and status |
| ErrorHandler.ForeignErrorsAre500 | src/lib/errorHandler.js:97-111 | anything that is not an `AppError` is reported with status 500 |
| ErrorHandler.HandledValidationError | src/lib/errorHandler.js:92-151 | a handled validation error keeps its 400 and shows its own non-empty message |
| ErrorHandler.NetworkMessageHidden | src/lib/errorHandler.js:142-143 | a network error's own message is never shown |
| ErrorMapping.HandleError | src/utils/errorHandler.js:29-63 | an `AppError` maps to its own triple; the names `ValidationError` and `NetworkError` map to their fixed text, code and status; anything else to the generic triple; `null` or `undefined` throws |
| ErrorMapping.CreateValidationError | src/utils/errorHandler.js:68-70 | code `VALIDATION_ERROR`, status 400 |
| ErrorMapping.CreateAuthError | src/utils/errorHandler.js:75-77 | code `AUTH_ERROR`, status 401 |
| ErrorMapping.CreateNetworkError | src/utils/errorHandler.js:82-84 | code `NETWORK_ERROR`, status 500 |
| ErrorMapping.FactoriesRoundTrip | src/utils/errorHandler.js:32-84 | an error built by a factory is reported with exactly what it was built from |
| ErrorMapping.ForeignReportsFixedText | src/utils/errorHandler.js:40-62 | anything other than an `AppError` is reported with fixed text, with 400 only for the name `ValidationError` |
| FileValidation.SizeLimit | src/utils/fileValidation.js:44 | the limit of the upper-cased category, else the 5 MB image limit |
| FileValidation.SizeMessage | src/utils/fileValidation.js:46-47 | the 5 MB and 10 MB limits are named in whole megabytes |
| FileValidation.FirstError | src/utils/fileValidation.js:43-65 | size first, then the image whitelist for avatar and image, then the document whitelist for document; `''` exactly when every check passes |
| FileValidation.Warnings | src/utils/fileValidation.js:67-78 | the small-size and long-name warnings, only for image categories, each at most once and the small-size one first |
| FileValidation.IsImageFile | src/utils/fileValidation.js:100-102 | a type on the image whitelist always starts with `image/` |
| FileValidation.ImageCategoryMeansImageFile | src/utils/fileValidation.js:30-102 | within 5 MB, `validateFile` accepts an image or avatar exactly when `isImageFile` holds |
| FileValidation.ValidateFile | src/utils/fileValidation.js:30-82 | a missing file is rejected; otherwise valid iff within the size limit (equal is fine) and, for avatar, image and document, on that whitelist; valid iff there is no error; the error is the first failing check's text; an accepted file carries exactly its warnings, a rejected one none |
| FileValidation.UpperCaseDocumentSkipsTypeCheck | src/utils/fileValidation.js:44-65 | `DOCUMENT` gets the document size limit but skips the exact-case type check |
| FileValidation.AcceptedAvatarIsImage | src/utils/fileValidation.js:30-82 | an accepted avatar is a whitelisted image of at most 5 MB |
| FileValidation.SizeBoundary | src/utils/fileValidation.js:44-49 | a file exactly at the limit passes the size check and one byte more fails it |
| FileValidation.NameOnlyWarns | src/utils/fileValidation.js:67-82 | the name never changes the verdict or the error |
| FileValidation.SizeReportedFirst | src/utils/fileValidation.js:43-65 | an oversized file reports the size, whatever its type |
| FileValidation.TypeReportedWithinLimit | src/utils/fileValidation.js:43-65 | a file within its limit but of the wrong type is rejected with the image-only message for avatar and image, and the document-only message for document, with no warnings |
| ImageUtils.ValidateImageFile | src/utils/imageUtils.js:119-141 | a type error iff the type does not start with `image/`, a size error iff over 5 MB, a name error iff the name is over 100 units; nothing else, each at most once, in the order type, size, name; valid iff no error |
| ImageUtils.TypeErrorFirst | src/utils/imageUtils.js:122-125 | a type error, when present, comes first |
| ImageUtils.AllErrorsAccumulate | src/utils/imageUtils.js:119-141 | a file failing all three checks gets all three errors in order |
| ImageUtils.WhitelistIsImages | src/utils/fileValidation.js:13-19 | every whitelisted image type starts with `image/` |
| ImageUtils.AcceptedAvatarPassesImageCheck | src/utils/imageUtils.js:119-141 | an avatar `validateFile` accepts passes this check too, unless its name is over 100 units |
| ImageUtils.SvgOnlyPassesImageCheck | src/utils/imageUtils.js:122-125 | an SVG passes this check but not the avatar whitelist |
| Text.ParseInt | src/services/dataService.js:73-79 | `parseInt` gives `NaN` exactly when no digit follows the leading space and sign |
| Text.ParseIntOfIntToString | src/services/dataService.js:73-79 | `parseInt` of an integer's `toString()` gives the integer back |
| Seqs.Filter | src/services/dataService.js:124 | `filter`: every element passing the test is kept, and only such elements |
| Seqs.FilterMultiset | src/services/dataService.js:124 | each passing element is kept exactly as often as it occurs, and no other element |
| Seqs.FilterAppend | src/services/dataService.js:124 | filtering a concatenation is concatenating the filtered parts, so survivors keep their order |
| Seqs.FirstIndex | src/services/dataService.js:60 | `findIndex`: the first index passing the test, or none iff no element passes |
| Seqs.Find | src/services/dataService.js:30 | `find`: the first element passing the test, or none iff no element passes |
| Text.NormalizeIdempotent | src/services/dataService.js:34-36 | trimming and lower-casing twice is doing it once |

## Left out

- Timers: the automatic removal of notifications after their duration is not modelled.
- Listener callbacks: the notification listeners and storage watchers are never invoked. The model keeps only the subscribe and watch bookkeeping.
- Floating point and `Intl` are not modelled: `formatCurrency`, `formatDate`, `formatFileSize` and the storage size report.
- Encryption in storage is not modelled. It is switched off (`encryptionEnabled` is false), so its branches never run.
- Storage compression is not modelled directly. Whether a value is "large" is a parameter, because the JSON text length is not computed. A compressed value is stored as its JSON text, and that text is parsed back on reading.
- Storage.Decompress: a compressed entry whose `data` is a string or an array reads as the default. In the source, `JSON.parse` would coerce it to text and might succeed. `setItem` always stores compressed data as JSON text, so only entries written by other code differ.
- Storage quota and other `localStorage` exceptions are not modelled. The only write failure modelled is compressing `undefined`.
- Storage.Expired: only a numeric `ttl` can expire. JavaScript's `>` would also coerce a numeric-string or boolean `ttl`, whether given as the option or found in a stored entry written by other code; such entries never expire in the model.
- Storage.GetItem: reading an expired entry makes `getItem` and `removeItem` call each other. The model keeps the net effect (the default is returned and the entry removed) rather than the recursion.
- Storage.GetKeys: returns a set, because the order in which the browser lists its keys is not modelled.
- Ids and timestamps from `Date.now()`, `new Date().toISOString()` and `Math.random()` are parameters.
- The window error listeners and `sendToMonitoring` of the error handler are not modelled, and neither is console logging.
- The `create*Error` factories of `src/lib/errorHandler.js` (lines 203-221) are the five typed constructors. They are not modelled separately.
- ErrorHandler: `details` values are strings, numbers or `null`. The caller's context object is a string map, and the stack trace is not modelled.
- `null` and `undefined` payloads are both `None` in the reducer state, in notification options, and in the update data merged into a user.
- PaymentForm.EditPrefill: a stored card without a `type` is prefilled with `""`, where the source uses `undefined`. After a submit, the model therefore stores `type: ""`, where the source's JSON drops the property.
- DataService.CreateUser: a username, password or email the data lacks is stored as `""`, where the source stores no property at all. So `getUserByEmail("")` finds such a user in the model but not in the source, which compares `undefined === ""`.
- A corrupt `vitech_users` entry is not modelled for the account store: there, `JSON.parse` throws in `getAllUsers` and `initializeDefaultData`. Only `clearAdminData`, which catches the error, models an unreadable list.
- Text.ToLower: `toLowerCase` is modelled for ASCII and Latin-1 capitals only. Registration and profile updates store usernames without validating them, and the username lookup lower-cases them, so other capitals are compared unfolded.
- Text.ToUpperAscii: `toUpperCase` folds ASCII letters only. Categories with other letters are looked up unfolded.
- React components, hooks, the API clients and the image canvas helpers are outside the core.
- PaymentForm.Submit: each toast's text and kind are modelled, but its display and auto-dismissal are not. The form reset after a save is not modelled. Neither is the refresh of the displayed list, nor the `catch` around the store call, which the pure store cannot trigger.
- FormValidation: validators throw only when a `String` method is missing. Inputs are strings, so those `catch` branches are unreachable and not modelled.

## Findings

| source | as written | input that shows it | evidently intended | confidence | as-written member | corrected member |
|---|---|---|---|---|---|---|
| src/services/authService.js:63-65 | `isLoggedIn` compares `getCurrentUser()` with `null`, but a pointer naming no stored user yields `undefined` | pointer `"7"` with no users: `isLoggedIn()` is true | signed in only when the pointer resolves to a stored user | medium (not executed) | AuthService.IsLoggedIn, AuthService.StalePointerCountsAsLoggedIn | AuthService.HasActiveSession, AuthService.GuardsUseActiveSession |
