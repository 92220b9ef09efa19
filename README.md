# HMS accounts: a Dafny model

HMS is a Django hotel-management site. Its `accounts` application lets a hotel
owner register a hotel and log in with an e-mail address. It can reset a
forgotten password with a six-digit one-time code (OTP) sent by mail, and it
can change the hotel profile, the e-mail address or the password. This
project models that application's core: `accounts/views.py` and the
`Hotel` model of `accounts/models.py`.

- `text.dfy` (module `Text`) holds the string operations the views use:
  `strip`, `lower`, `split(...)[0]`, `split(...)[-1]`, `in` on strings and
  `str(n)`.
- `validators.dfy` (module `Validators`) holds the input checks the views
  share (each view applies its own selection, in its own order):
  - the e-mail pattern;
  - the hotel-name rules;
  - the mobile-number cleaning and rules;
  - the password rules and the common-password list;
  - the choice of logo extension from a data URL;
  - `get_client_ip`;
  - the escalating lockout table `get_lockout_time`.
- `hotel.dfy` (module `HotelModel`) holds the `Hotel` row: its column
  bounds, `__str__`, `get_logo_url`, and the upload path `hotel_logo_path`.
- `accounts.dfy` (module `Accounts`) holds the two module-level
  dictionaries of the views:
  - `login_attempts`, the failed logins per client address;
  - `otp_storage`, the pending reset code per address.

  Each view action is a pure step function from the old dictionary to the
  reply and the new dictionary. The class `AccountStore` keeps both
  dictionaries as fields. Its methods update them in place and are proved
  equal to the step functions. Lemmas chain the steps: five failures lock
  an address out; a lockout expires; a reset succeeds after send and
  verify; an expired or five-times-wrong code ends the reset.
- `registration.dfy` (module `Registration`) holds `register_view`: its
  field checks in order, the username search loop, and the `User` and
  `Hotel` rows it creates. It also holds the three actions of
  `update_profile_view`. Registration and the profile update take a
  `MobileStorage` argument: `AsTyped` is the program as written, which
  stores the mobile field as typed; `Digits` stores its cleaned digits, the
  correction of the finding below.

Time is an integer number of seconds. What the views ask of Django or the
outside world is passed in as a parameter:
- whether a user with an address exists;
- whether `authenticate` or `check_password` succeeded;
- the code `generate_otp` drew;
- whether the mail went out;
- the length base64 decoding yields, or none when decoding fails.

Two observations from the proofs:
- The common-password check of `register_view` and `update_password` can
  never reject anything. Every entry of the list lacks a special character,
  and the rule checked just before it requires one. This is
  `Validators.PolicyNeverReportsCommon`.
- The inactive-user 403 of `login_view` (lines 234-238) is modelled as a
  reply to a user that `authenticate` returned as inactive. Django's
  default backend never returns one, so that branch depends on the
  configured backend.

## Model

| member | source | states |
|---|---|---|
| Text.Lower | accounts/views.py:170 | `lower()`: same length; each letter lower-cased and every other character kept |
| Text.Strip | accounts/views.py:170 | `strip()`: the result starts and ends with no whitespace, occurs in the input right after the leading whitespace, and only whitespace follows it |
| Text.StripUnchanged | accounts/views.py:170 | a string with no whitespace at either end is its own strip |
| Text.FirstField | accounts/views.py:46 | `split(sep)[0]`: a prefix of the input without `sep`, followed by `sep` or the end |
| Text.LastField | accounts/models.py:6 | `split(sep)[-1]`: a suffix of the input without `sep`, preceded by `sep` or the start |
| Text.NatToStringInjective | accounts/views.py:525 | distinct counters give distinct decimal suffixes |
| Validators.CheckEmail | accounts/views.py:194-206 | no failure exactly when the address matches the e-mail pattern; "required" exactly for the empty address |
| Validators.EmailLocalPart | accounts/views.py:519 | for a matching address, the part before the first `@` is non-empty, is made of local-part characters and is followed by `@` |
| Validators.CheckHotelName | accounts/views.py:316-338 | no failure exactly for 2-200 characters from the allowed class; "required" exactly for the empty name |
| Validators.CleanMobile | accounts/views.py:373 | the separators `\s - ( ) +` are removed; no separator is left; a number without separators is unchanged |
| Validators.CleanMobileAppend | accounts/views.py:373 | cleaning a concatenation cleans each part |
| Validators.FormattedCleans | accounts/views.py:373 | a number written as separator runs and digit runs cleans to its digits |
| Validators.CheckMobile | accounts/views.py:367-405 | no failure exactly when the field is non-empty and its cleaned form is 10-15 digits that are neither one repeated digit nor inside or around a sequential run; "too long" only for more than 15 digits |
| Validators.NotSequential | accounts/views.py:399-405 | `15551234567` is neither inside nor around any sequential run |
| Validators.SampleMobileCleans | accounts/views.py:373 | `+1 (555) 123-4567` cleans to `15551234567` |
| Validators.SampleDigitsAcceptable | accounts/views.py:375-405 | `15551234567` passes every digit rule |
| Validators.RemoveSpaces | accounts/views.py:463 | `replace(' ', '')`: no space is left; every other character keeps its count; a string without spaces is unchanged; one character is dropped exactly when it is a space |
| Validators.RemoveSpacesAppend | accounts/views.py:463 | removing spaces from a concatenation removes them from each part, so the other characters keep their order |
| Validators.CheckPasswordStrength | accounts/views.py:752-792 | no failure exactly for a strong password (8-128 characters with upper, lower, digit and special); "required" exactly for the empty one |
| Validators.CheckPasswordPolicy | accounts/views.py:408-467 | no failure exactly when strong, not common and free of the hotel name; the hotel-name failure exactly when only that rule fails |
| Validators.LowerKeepsSpecial | accounts/views.py:457 | lower-casing keeps a special character |
| Validators.CommonPasswordsAlnum | accounts/views.py:450-455 | every entry of the common list is letters and digits |
| Validators.CommonPasswordsPlain | accounts/views.py:450-457 | no lower-cased entry of the list has a special character |
| Validators.StrongPasswordNeverCommon | accounts/views.py:444-461 | a password with a special character is never on the common list |
| Validators.PolicyNeverReportsCommon | accounts/views.py:457-461 | the policy never answers "too common" |
| Validators.LogoExtension | accounts/views.py:489-501 | png exactly when `png` is named; jpg exactly when `jpeg` or `jpg` is named without `png`; gif and webp exactly when named and no earlier type is; none exactly when no image type is named |
| Validators.CheckLogo | accounts/views.py:482-516 | nothing is uploaded exactly when `base64,` is absent; with the marker: invalid exactly when it occurs twice or the data does not decode, bad format exactly when one marker precedes no image type, too large exactly when the decoded data exceed 2 MB, and an upload otherwise, with the extension named before the marker |
| Validators.ClientIp | accounts/views.py:42-49 | the first comma-free field of X-Forwarded-For when that header is non-empty, else REMOTE_ADDR |
| Validators.LockoutMinutes | accounts/views.py:28-39 | zero exactly below five failures; at most ten; one of 0, 2, 3, 5, 10 |
| Validators.LockoutMonotone | accounts/views.py:28-39 | more failures never shorten the window |
| Validators.AttemptsUntilLockout | accounts/views.py:263-266 | between 1 and 5, and it reaches the next multiple of five |
| Validators.AnnouncedLockoutIsReal | accounts/views.py:263-272 | the lockout the warning announces is longer than zero minutes |
| HotelModel.Hotel.ToString | accounts/models.py:23-24 | the display string is the hotel name, within 200 characters for a row that fits its columns |
| HotelModel.Hotel.LogoUrl | accounts/models.py:26-29 | none exactly when no logo is set; otherwise `/media/` followed by the stored name |
| HotelModel.NewHotel | accounts/views.py:537-541 | a new row is active and has no logo or logo URL; it fits its columns when its fields do |
| HotelModel.FileExtension | accounts/models.py:6 | the text after the last dot, or the whole name |
| HotelModel.LogoPath | accounts/models.py:5-8 | every path starts with `hotel_logos/hotel_` |
| HotelModel.LogoPathCollision | accounts/models.py:5-8 | two uploads get the same path exactly when the user and the extension agree |
| Accounts.LockoutRemaining | accounts/views.py:177-192 | a wait exactly when the address has an entry, its count calls for a lockout and the window has not ended; the wait is positive and ends the window |
| Accounts.SplitWait | accounts/views.py:185-186 | minutes and seconds that add up to the wait, seconds below 60 |
| Accounts.RecordFailure | accounts/views.py:218-223 | the entry of the address counts one more failure at `now`; other addresses are untouched; every entry keeps a count of at least one |
| Accounts.FailureWarning | accounts/views.py:263-272 | a warning exactly with 1-3 attempts left, naming the lockout reached at the next multiple of five; never the lockout fields |
| Accounts.CredentialStep | accounts/views.py:214-277 | for well-formed input: success exactly for an authenticated, active user with a hotel; 401 exactly for an unknown address or a wrong password, counting a failure; 403 otherwise, tracker unchanged; the warning only after a wrong password, never the lockout fields |
| Accounts.LoginStep | accounts/views.py:167-277 | success exactly when not locked out, the address matches, the password is non-empty and the user authenticates, is active and has a hotel; 429 exactly when locked out; 400 exactly for a malformed address or an empty password; 403 exactly for an inactive or hotel-less user with the right password; 401 exactly for wrong credentials; the tracker is unchanged on 400, 403 and 429, counts a failure on 401 and drops the address on success; the lockout fields come exactly with 429, a warning only after a wrong password, and no extra field otherwise |
| Accounts.WarningAnnouncesRealLockout | accounts/views.py:263-272 | the warning after a wrong password names a lockout that will happen |
| Accounts.FailuresCounted | accounts/views.py:214-277 | up to five wrong attempts from a new address are each counted, with the last time kept |
| Accounts.FiveFailuresLockOut | accounts/views.py:177-192 | after five wrong attempts, any login from that address within two minutes gets 429 with the exact remaining wait |
| Accounts.LockoutExpires | accounts/views.py:181-183 | once the window has passed, the address may try again |
| Accounts.LockoutAtMostTenMinutes | accounts/views.py:28-39 | no wait exceeds ten minutes from the last failure |
| Accounts.OtpKey | accounts/views.py:624 | the key is `otp_` followed by the address |
| Accounts.OtpKeyInjective | accounts/views.py:624 | distinct addresses have distinct keys |
| Accounts.FreshOtp | accounts/views.py:637-644 | a new record: the code and address, created and sent now, no wrong attempts, not verified |
| Accounts.IssueOtp | accounts/views.py:622-658 | 429 with the store unchanged exactly within a minute of the last send; otherwise a fresh record is stored and the reply is 200 or 500 as the mail went out; the store stays well-formed |
| Accounts.SendOtpStep | accounts/views.py:594-658 | 400 exactly for an address that does not match; an unknown user gets 200 and nothing is stored; a known one gets `IssueOtp` |
| Accounts.ResendOtpStep | accounts/views.py:856-913 | as `send_otp`, except that only the empty address gets 400 |
| Accounts.VerifyOtpStep | accounts/views.py:661-712 | with no record or an empty field: 400, store unchanged; with an expired record: 400 and the record dropped; after five wrong codes: 429 and the record dropped; a wrong code counts one attempt; the right one marks the record verified |
| Accounts.ResetPasswordStep | accounts/views.py:715-830 | success exactly for a verified record with the same code, a strong password, a matching confirmation and an existing user; 404 exactly when only the user is missing; success drops the record, failure changes nothing |
| Accounts.CooldownBlocksReissue | accounts/views.py:626-633 | within a minute of a send, neither `send_otp` nor the resend view issues another code |
| Accounts.ResetFlowSucceeds | accounts/views.py:594-830 | send, verify within ten minutes, then reset with a strong password: each succeeds and the store ends as before minus the record |
| Accounts.ExpiredCodeRefused | accounts/views.py:681-687 | a code verified after ten minutes is refused even when right, and a reset can no longer follow |
| Accounts.WrongGuessesCounted | accounts/views.py:697-704 | each wrong code within the lifetime, up to the cap, adds one attempt and changes nothing else |
| Accounts.FiveWrongCodesLockOut | accounts/views.py:689-695 | after five wrong codes even the right one gets 429, the record is dropped and a reset fails |
| Accounts.AccountStore.constructor | accounts/views.py:21-25 | both dictionaries start empty |
| Accounts.AccountStore.CountFailure | accounts/views.py:218-223 | the tracker becomes `RecordFailure` of the old one |
| Accounts.AccountStore.CountWrongPassword | accounts/views.py:256-272 | the failure is counted and the reply detail is `FailureWarning` of the new count |
| Accounts.AccountStore.CheckLockout | accounts/views.py:177-192 | returns the wait of `LockoutRemaining` and changes nothing |
| Accounts.AccountStore.Login | accounts/views.py:167-277 | reply, detail and new tracker are those of `LoginStep` for the client address; the OTP store is untouched |
| Accounts.AccountStore.LoginFrom | accounts/views.py:177-277 | the same for a known client address |
| Accounts.AccountStore.Authenticate | accounts/views.py:214-277 | reply, detail and new tracker are those of `CredentialStep`; the OTP store is untouched |
| Accounts.AccountStore.Issue | accounts/views.py:622-658 | reply and new store are those of `IssueOtp` |
| Accounts.AccountStore.SendOtp | accounts/views.py:594-658 | reply and new store are those of `SendOtpStep` for the normalised address |
| Accounts.AccountStore.ResendOtp | accounts/views.py:856-913 | reply and new store are those of `ResendOtpStep` |
| Accounts.AccountStore.VerifyOtp | accounts/views.py:661-712 | reply and new store are those of `VerifyOtpStep` for the normalised address and stripped code |
| Accounts.AccountStore.VerifyCode | accounts/views.py:665-712 | the same for already normalised input |
| Accounts.AccountStore.ResetPassword | accounts/views.py:715-830 | reply and new store are those of `ResetPasswordStep` |
| Accounts.AccountStore.ForgotPassword | accounts/views.py:588-836 | each known action behaves as its step; any other action gets 400 and changes nothing |
| Registration.Folded | accounts/views.py:524 | exactly the lower-cased names |
| Registration.Candidate | accounts/views.py:519-526 | the base itself, then the base followed by the counter's digits |
| Registration.CandidateInjective | accounts/views.py:524-526 | distinct counters give distinct names, even ignoring case |
| Registration.TriedMembers | accounts/views.py:524-526 | the names tried so far are exactly the first candidates |
| Registration.TriedSize | accounts/views.py:524-526 | the first n candidates are n distinct names |
| Registration.TakenCandidatesBound | accounts/views.py:524-526 | no more candidates can be taken than there are registered names |
| Registration.FindUsername | accounts/views.py:519-526 | the loop ends with the first candidate not taken (ignoring case), all earlier ones taken, after at most as many tries as there are users |
| Registration.FoldedSize | accounts/views.py:524 | folding case never adds names |
| Registration.FirstFreeUnique | accounts/views.py:519-526 | there is only one first free candidate |
| Registration.StoredMobile | accounts/views.py:373-405 | corrected: what is stored for an accepted number is its cleaned form, 10-15 digits that fit the column and pass the rules again |
| Registration.StoreMobile | accounts/views.py:540 | as typed, the stripped field itself; as digits, the corrected form; an accepted number is never stored empty and passes the rules again |
| Registration.CheckNewEmail | accounts/views.py:340-364 | no failure exactly for a matching, short enough, unused address; "taken" exactly when only the address is in use |
| Registration.CheckNewPassword | accounts/views.py:407-480 | no failure exactly when the policy passes and the confirmation equals the password |
| Registration.CheckLaterFields | accounts/views.py:366-516 | no failure exactly when the mobile, password, confirmation and logo pass; never "taken" |
| Registration.CheckRegistration | accounts/views.py:315-516 | no failure exactly when every field is acceptable |
| Registration.EmailTakenReported | accounts/views.py:360-364 | "taken" exactly when the hotel name is valid and the well-formed address is in use |
| Registration.Prefix | accounts/views.py:532 | `s[:n]`: a prefix of at most n characters; all of `s` when it is short |
| Registration.RegisteredHotel | accounts/views.py:537-545 | the new row: this user, the stripped name, active, the number as stored, and the path of `logo.<ext>` exactly when a logo is uploaded |
| Registration.RawMobileOverflowsColumn | accounts/views.py:537-541 | as written: `+1 (555) 123-4567` passes every mobile rule, yet the row stores its 17 characters and no longer fits the 15-character column |
| Registration.RegisteredHotelFits | accounts/models.py:12-15 | corrected: the row of an acceptable registration that stores digits fits its columns |
| Registration.Register | accounts/views.py:305-560 | an account exactly when the form is acceptable; its user name is the first free candidate; the user gets the normalised address, the password and the first 30 characters of the name; the hotel row is `RegisteredHotel` |
| Registration.FieldChanges | accounts/views.py:988-993 | a non-empty name or number replaces the stored one, compared as given; changes are reported exactly when the row differs |
| Registration.UpdateProfileStep | accounts/views.py:962-1103 | success exactly when the non-empty name and number pass and the logo, if considered, is not rejected; a failure changes nothing; a given name and number are stored; the logo is cleared on a removal of an existing logo, set to `logo_<id>.<ext>` on an upload that is considered, and otherwise kept |
| Registration.NoChangesMeansUnchanged | accounts/views.py:1088-1103 | "No changes were made" only when the row is unchanged |
| Registration.ProfileMobileOverflowsColumn | accounts/views.py:1031-1035 | as written: storing the accepted `+1 (555) 123-4567` as typed takes a fitting row out of its column bounds |
| Registration.UpdateProfileKeepsColumns | accounts/models.py:12-15 | corrected: storing digits, a row within its column bounds stays within them |
| Registration.UpdateProfileIdempotent | accounts/views.py:962-1103 | sending the same form again, without a removal, changes nothing more |
| Registration.UpdateEmailStep | accounts/views.py:1106-1165 | 401 exactly for a wrong non-empty password; success exactly for a matching, short enough, new and unused address with the right password; only success changes the address |
| Registration.UpdateEmailKeepsDistinct | accounts/views.py:1143-1157 | a change keeps every user's address distinct, ignoring case |
| Registration.UpdatePasswordStep | accounts/views.py:1168-1280 | 401 exactly for a wrong non-empty current password; success exactly when the policy passes, the new password differs from the current one and the confirmation matches |

## Left out

- Sending mail, the ORM, `authenticate` and `check_password`, `login` and `logout`, and the clock are parameters, not modelled.
- The replies' message texts and the `redirect` fields are not modelled; a reply is its status and `success` flag, plus the lockout fields of `login_view`.
- The JSON-decoding 400s and the catch-all 500s of every view are not modelled.
- The GET branches of the views, `logout_view`, the templates, the URL configuration and the dashboard view of `core` are outside this model.
- The action dispatcher of `update_profile_view` (lines 954 and 1282-1286: the default action and "Invalid action") is not modelled; its three actions are.
- `generate_otp` and base64 decoding are parameters: the drawn code and the decoded length.
- Concurrent requests on the two dictionaries are not modelled; each view runs as one atomic step.
- Times are whole seconds, so `int(total_seconds())` truncating microseconds to a zero wait is not modelled.
- Letters, digits and case mapping are ASCII: `lower`, `isdigit` and the letter classes on non-ASCII characters are not modelled. Whitespace is Python's full class.
- Registration.UpdateProfileStep: it does not model `user.first_name` following a new hotel name (line 992); the `User` row is outside the profile outcome.
- Registration.Register: it does not model the storage suffix Django adds when a file name is already taken.
- Registration.UpdateProfileIdempotent: it does not cover a repeated form that asks both to remove the logo and to upload one; removal applies only when a logo exists, so the second request uploads again.
- The database used (HMS/settings.py:110-115, SQLite) does not enforce `max_length`. The finding below is therefore a stored value that breaks the declared column, not a failing insert.

## Findings

| source | as written | input that shows it | evidently intended | confidence | as-written member | corrected member |
|---|---|---|---|---|---|---|
| accounts/views.py:537-541 | registration stores the stripped mobile field as typed, separators included, after validating only its cleaned digits | `+1 (555) 123-4567`: 11 digits pass every rule, but 17 characters are stored in a `CharField(max_length=15)` | store the cleaned digits that were validated, at most 15 | not executed | Registration.RawMobileOverflowsColumn | Registration.RegisteredHotelFits |
| accounts/views.py:1031-1035 | `update_profile` compares and stores the stripped mobile field as typed, after validating only its cleaned digits | the same number sent to a row within its bounds | store the cleaned digits | not executed | Registration.ProfileMobileOverflowsColumn | Registration.UpdateProfileKeepsColumns |
