# BioGuard AI front end: a verified model of its authentication core

BioGuard AI's web front end logs users in with several factors. First the
password is checked. Then a face photo is sent for recognition. A six-digit
one-time password (OTP) sent by email is the fallback. The OTP step is forced
after three wrong passwords, or when the face check asks for it.

This project models the parts of the front end that hold state and make
decisions:

- **The login page** (`LoginModel`, `LoginPage`). It is a five-step machine:
  credentials, face, OTP, success and failed.
  - `LoginModel` gives its session as a value, with one transition function
    per handler.
  - `LoginPage.Page` is a class whose fields are the page's state variables.
    Its methods update those fields one by one, as the React setters do. Each
    method is proved to end in exactly the state the transition function
    describes. The top-level handlers (`HandleCredentials`, `BackFromFace`,
    `HandleFaceLogin`, `HandleOtpChange`, `HandleOtpPaste`, `HandleOtpVerify`,
    `HandleResend`, `ResetToLogin` and `Tick`) are also proved to keep the
    session invariant `Valid`: six slots, each empty or one digit, a countdown
    of at most 300 s, and an interval that runs only while time is left.
  - The one-second countdown interval is the explicit `Tick` method.
  - The `[step]` effect is `Enter`. It runs only on a real change of step.
    Entering the OTP step restarts the countdown at 300 and installs the
    interval. Any other step clears the interval.
- **The signup page** (`Signup`): the ordered validation of the information
  step, the success test of the registration reply, and the Back button.
- **The admin dashboard's log functions** (`AdminDashboard`): the status
  badge, the tab filter, the four counters and the per-day chart series.
- **The route guard** (`RouteGuard`): the three-way decision
  `ProtectedRoute` makes from the stored token and role.
- **The credential store** (`AuthStore`): `localStorage` as a
  `map<string, string>`, with `saveAuth`, `getToken`, `getRole`,
  `isLoggedIn` and `logout`.
- **Shared modules**:
  - `JsText`: the JavaScript string operations the pages use. These are
    `trim`, ASCII `toLowerCase`, `includes`, `replace(/\D/g, "")`, `slice`,
    `length` in UTF-16 units, `String(n)` and `padStart`.
  - `Api`: the shape of the server's replies and of the requests the pages
    send.
  - `Wrappers`: `Option`.

Modelling choices:

- **Network calls are inputs.** A call's outcome is
  `Call<T> = Returned(value) | Threw`. Each handler is one atomic step that
  receives the outcome of the call it awaits.
- **Requests are logged.** The session's `calls` field records every request
  a handler sends, so "no network call" can be stated and proved.
- **The reply is a record of JSON fields.** It holds `status`, `_status`,
  `error`, `token`, `role`, `user_id` and `message`. The empty string stands
  for an absent or falsy field. This keeps the order in which the code tests
  the fields, for example `credentials_ok` before 401, and `token` before
  `otp_required`.
- **A missing role is `None`.** `localStorage.setItem` stores it as the
  string "undefined", and the model does the same (`LoginModel.StoredRole`).
- **One attempt counter.** The page keeps the counter twice, in the `attempts`
  state and the `attemptsRef` ref. The model keeps one counter, the ref,
  which every decision reads.

Behaviour of the code that a reader of the page might not expect. The
model follows the code in each case. The failed screen tells the user that
"an OTP will be sent to your email after 3 failed password attempts"
(`src/pages/Login.jsx:381`); the first three points qualify that promise.

- **The counter can pass three.** At the third rejection, if `sendOtp` throws,
  the page shows the network error and stays on the credentials step with the
  counter at 3. The next rejection takes it to 4, and the page moves to the
  OTP step then (`LoginModel.CounterPassesLimit`).
- **A missing `user_id` is skipped silently.** If the attempts run out and
  the reply has no `user_id`, no code is requested, yet the page still enters
  the OTP step (`LoginModel.RejectedPassword`). Verifying there then stops
  at "Session expired".
- **The face path sends no code request.** When the face check answers
  `otp_required`, the page enters the OTP step with the reply's `user_id` and
  does not call `sendOtp` (`LoginModel.FaceOutcomes`).
- **A failed resend still clears the code.** The slots and the feedback are
  cleared before `sendOtp` is awaited. When it throws, the slots stay empty,
  the message is "Failed to resend", and the countdown keeps running from
  where it was (`LoginModel.Resend`).
- **Try Again keeps part of the session.** `resetToLogin` keeps the email,
  the password, the user id and the countdown value (`LoginModel.ResetToLogin`).
- **The administrator never reaches the success step.** The administrator's
  login saves the credentials and navigates to `/admin`, while the step stays
  on credentials (`LoginModel.AdminShortcut`).
- **The two attempt counters disagree after an OTP success.** Verifying the
  code resets the `attemptsRef` ref but not the rendered `attempts` state.

`src/pages/Login.jsx` imports `../services/api`. That file is not part of
this model. The request shapes follow `src/tempServices/api.js`.

## Model

| member | source | states |
|---|---|---|
| AuthStore.AfterSave | src/utils/auth_utils.js:1-4 | saveAuth writes "token" and "role" with the given values, adds no other key and keeps every other entry |
| AuthStore.AfterLogout | src/utils/auth_utils.js:10-13 | logout removes exactly "token" and "role" and keeps every other entry with its value |
| AuthStore.Lookup | src/utils/auth_utils.js:6-7 | getItem gives a value exactly when the key is stored, and that value is the stored one |
| AuthStore.LoggedIn | src/utils/auth_utils.js:8 | isLoggedIn holds exactly when a token is stored and it is not the empty string |
| AuthStore.SaveThenRead | src/utils/auth_utils.js:1-8 | after saveAuth(t, r), getToken gives t, getRole gives r, and the user is logged in exactly when t is non-empty |
| AuthStore.LogoutClears | src/utils/auth_utils.js:8-13 | after logout both keys are absent and the user is not logged in; a second logout changes nothing |
| AuthStore.SaveOverridesSave | src/utils/auth_utils.js:1-4 | a later saveAuth completely replaces an earlier one |
| AuthStore.LogoutUndoesSave | src/utils/auth_utils.js:1-13 | on a store holding neither key, logout after saveAuth gives back the original store |
| AuthStore.Storage.constructor | src/utils/auth_utils.js:1-13 | the store starts with the given entries |
| AuthStore.Storage.SaveAuth | src/utils/auth_utils.js:1-4 | the two setItem calls leave the store as AfterSave of the old store |
| AuthStore.Storage.Logout | src/utils/auth_utils.js:10-13 | the two removeItem calls leave the store as AfterLogout of the old store |
| AuthStore.Storage.GetToken | src/utils/auth_utils.js:6 | getToken gives the stored "token" entry, and null exactly when it is missing |
| AuthStore.Storage.GetRole | src/utils/auth_utils.js:7 | getRole gives the stored "role" entry, and null exactly when it is missing |
| AuthStore.Storage.IsLoggedIn | src/utils/auth_utils.js:8 | holds exactly when a non-empty token is stored |
| RouteGuard.Guard | src/components/ProtectedRoute.jsx:4-11 | redirect to /login exactly when the token is missing or empty; redirect to / exactly when a token is present and a truthy requiredRole differs from the stored role; render the children exactly otherwise |
| RouteGuard.GuardStore | src/components/ProtectedRoute.jsx:5-8 | the guard over a store redirects to /login exactly when the store is not logged in |
| RouteGuard.SavedLoginOpensRoutes | src/components/ProtectedRoute.jsx:8-11 | after saveAuth with a non-empty token, unrestricted routes and routes for the saved role render, and routes for another role redirect to / |
| RouteGuard.LogoutClosesRoutes | src/components/ProtectedRoute.jsx:8 | after logout, every protected route redirects to /login whatever role it requires |
| JsText.LowerChar | src/pages/AdminDashboard.jsx:53 | upper-case ASCII letters map to their lower-case letter, and every other character is kept |
| JsText.AsciiLower | src/pages/AdminDashboard.jsx:53 | lower-casing keeps the length and lower-cases each character in place |
| JsText.AsciiLowerIdempotent | src/pages/AdminDashboard.jsx:53 | lower-casing twice is lower-casing once |
| JsText.SpacesFrom | src/pages/Login.jsx:81 | the scan for the first non-white-space index from a start point: everything it skips is white space and it stops at a non-space or the end |
| JsText.SpacesUntil | src/pages/Login.jsx:81 | the scan back from an end point: everything it skips is white space and it stops just after a non-space or at the start |
| JsText.TrimStart | src/pages/Login.jsx:81 | removes exactly the leading JavaScript white space and line terminators, leaving a suffix |
| JsText.TrimEnd | src/pages/Login.jsx:81 | removes exactly the trailing JavaScript white space and line terminators, leaving a prefix |
| JsText.TrimBothEnds | src/pages/Login.jsx:81 | cutting the leading and then the trailing white space leaves an infix padded only by white space, with non-space ends |
| JsText.Trim | src/pages/Login.jsx:81 | trim gives an infix of the input with only white space before and after it, and the infix neither starts nor ends with white space; so an all-space input trims to "" |
| JsText.IncludesIffOccurs | src/pages/AdminDashboard.jsx:54-56 | includes holds exactly when the pattern occurs at some index |
| JsText.IncludesNeedsEveryChar | src/pages/AdminDashboard.jsx:54-56 | a pattern containing a character absent from the text is not included |
| JsText.Includes | src/pages/AdminDashboard.jsx:54-56 | definition without a contract: includes as a scan from the left; its meaning is stated by IncludesIffOccurs |
| JsText.DigitsOnly | src/pages/Login.jsx:152 | stripping non-digits gives only digits and never a longer string; a single character is kept exactly when it is a digit; an all-digit string is unchanged |
| JsText.DigitsOnlyCounts | src/pages/Login.jsx:152 | stripping non-digits keeps exactly as many of each digit as the input holds |
| JsText.DigitsOnlyAppend | src/pages/Login.jsx:152 | stripping the non-digits of a concatenation strips each part, so with the single-character case the digits come out in their order |
| JsText.Prefix | src/pages/Login.jsx:152 | slice(0, n) gives the first min(n, length) characters |
| JsText.Utf16Length | src/pages/Signup.jsx:22 | JavaScript's length: one unit for a character of the basic plane, two for one beyond it; so between one and two units per code point, and exactly one each when all are in the basic plane |
| JsText.Utf16LengthAppend | src/pages/Signup.jsx:22 | the length of a concatenation is the sum of the lengths, so with the single-character case every string's length is fixed |
| JsText.DigitValue | src/pages/Login.jsx:66-67 | a decimal digit's value is below 10 |
| JsText.DigitChar | src/pages/Login.jsx:66-67 | the digit character of a value below 10 is a digit with that value |
| JsText.DecimalString | src/pages/Login.jsx:66-67 | String(n) is a non-empty string of digits, one digit exactly when n < 10 and two when 10 <= n < 100 |
| JsText.DecimalRoundTrip | src/pages/Login.jsx:66-67 | reading back the digits of String(n) gives n |
| JsText.Zeros | src/pages/Login.jsx:66-67 | the padding is z zero digits |
| JsText.LeadingZeros | src/pages/Login.jsx:66-67 | leading zeros do not change the value of a digit string |
| JsText.ZerosValue | src/pages/Login.jsx:66-67 | a string of zeros has the value 0 |
| JsText.PadZeros | src/pages/Login.jsx:66-67 | padStart(width, "0") reaches the width by adding zeros in front and never shortens |
| LoginModel.EmptyDigits | src/pages/Login.jsx:21 | the OTP input starts as six empty slots |
| LoginModel.Initial | src/pages/Login.jsx:17-42 | the mounted page is on the credentials step with a zero counter, no requests sent, and satisfies the invariant |
| LoginModel.StoredRole | src/utils/auth_utils.js:3 | definition without a contract: setItem stores a missing role as the string "undefined" |
| LoginModel.Enter | src/pages/Login.jsx:45-62 | the step becomes the new one; a real change into the OTP step sets the countdown to 300 and starts the interval; any other step keeps the countdown and stops the interval unless the step is unchanged; nothing else changes |
| LoginModel.Tick | src/pages/Login.jsx:49-57 | a running interval counts down by one and stores 0 and stops at the last second; without the interval nothing changes; only the countdown and the interval change |
| LoginModel.TicksCountDown | src/pages/Login.jsx:49-57 | n seconds of a running interval take the countdown down by n, stopping at 0, and the interval runs while time is left |
| LoginModel.ExpiryIsAbsorbing | src/pages/Login.jsx:51-71 | once expired, any number of seconds keeps the countdown at 0 and the step unchanged |
| LoginModel.Ticks | src/pages/Login.jsx:49-57 | definition without a contract: n firings of the interval; TicksCountDown states their effect |
| LoginModel.IsExpired | src/pages/Login.jsx:71 | definition without a contract: the countdown is 0 |
| LoginModel.TwoDigitsValue | src/pages/Login.jsx:66-67 | a zero-padded number has at least two digits, denotes the number, and has exactly two below 100 |
| LoginModel.TwoDigits | src/pages/Login.jsx:66-67 | definition without a contract: String(n) padded to two digits with zeros; TwoDigitsValue states its properties |
| LoginModel.Clock | src/pages/Login.jsx:68 | "MM:SS" joins the padded minutes and seconds around a colon, and each part reads back as its number |
| LoginModel.FormatTime | src/pages/Login.jsx:65-69 | the text is the minutes (secs / 60) and seconds (secs % 60) in padded decimal around a colon, together worth secs; five characters below 100 minutes |
| LoginModel.FormatTimeRoundTrip | src/pages/Login.jsx:65-69 | reading "MM:SS" back gives the seconds formatted |
| LoginModel.FormatTimeInjective | src/pages/Login.jsx:65-69 | different countdown values are shown as different texts |
| LoginModel.FormatTimeExamples | src/pages/Login.jsx:65-69 | 300 seconds is shown as "05:00" and 61 as "01:01" |
| LoginModel.TrimStartSkips | src/pages/Login.jsx:81 | trimming the start of spaces then text starting with a non-space gives that text |
| LoginModel.TrimEndSkips | src/pages/Login.jsx:81 | trimming the end of text ending with a non-space then spaces gives that text |
| LoginModel.TrimAround | src/pages/Login.jsx:81 | trim removes exactly the surrounding white space of a word with non-space ends |
| LoginModel.AdminEmailTolerant | src/pages/Login.jsx:81 | the administrator's address is recognised in any letter case with any surrounding white space |
| LoginModel.AdminCoreEnds | src/pages/Login.jsx:81 | an address that lower-cases to the administrator's is non-empty with non-space ends |
| LoginModel.NotAdminByFirst | src/pages/Login.jsx:81 | an address whose first character is neither white space nor an a in either case is not the administrator's |
| LoginModel.IsAdminEmail | src/pages/Login.jsx:81 | definition without a contract: the trimmed, lower-cased email is the administrator's address; AdminEmailTolerant states what it accepts |
| LoginModel.IsRejection | src/pages/Login.jsx:93 | definition without a contract: HTTP status 401 or a truthy error field |
| LoginModel.AttemptsLeftMessage | src/pages/Login.jsx:103-104 | definition without a contract: the message naming the attempts left, with "attempt" in the plural unless exactly one is left |
| LoginModel.SubmitCredentials | src/pages/Login.jsx:74-113 | handleCredentials never changes the email, password, image, digits or OTP feedback; it can only reach credentials, face or OTP; it saves credentials only for the administrator's address with a returned token |
| LoginModel.AdminReply | src/pages/Login.jsx:81-87 | the administrator's branch keeps the step, and saves credentials only from a returned token |
| LoginModel.PasswordReply | src/pages/Login.jsx:89-111 | the password branch never saves credentials and keeps the same frame as handleCredentials |
| LoginModel.CountRejection | src/pages/Login.jsx:94-105 | a rejection adds exactly one to the counter and keeps the same frame |
| LoginModel.EmptyFieldsSendNothing | src/pages/Login.jsx:76 | with an empty email or password, the submission sends nothing, saves nothing and changes only the error message |
| LoginModel.AdminShortcut | src/pages/Login.jsx:81-87 | the administrator's address sends one login request, never changes the step, counter, user id or countdown, saves the token and opens /admin when one is returned, and otherwise shows "Invalid admin credentials." or the network error |
| LoginModel.RejectedPassword | src/pages/Login.jsx:93-105 | a 401 or error reply adds exactly one attempt. Below three, the page stays on credentials and names the attempts left. At three or more, it requests a code only when user_id is present, and enters OTP with that user id unless the request throws |
| LoginModel.RepliesThatDoNotCount | src/pages/Login.jsx:91-111 | credentials_ok moves to the face step; an unrecognised reply or an exception keeps the step, counter and user id and shows its message |
| LoginModel.CredentialsNeverTerminal | src/pages/Login.jsx:74-113 | a credentials submission never reaches success or failed |
| LoginModel.BackFromFace | src/pages/Login.jsx:293 | Back returns to credentials with no image and no error; the countdown value is kept and the interval stops unless the step was already credentials; every other field is kept |
| LoginModel.SubmitFace | src/pages/Login.jsx:116-135 | the face submission never changes the counter, email or password, and saves credentials only when it reaches success |
| LoginModel.FaceOutcomes | src/pages/Login.jsx:116-135 | no image sends nothing; otherwise one login request with the image: a token saves and succeeds; otp_required enters OTP with the reply's user id and a fresh countdown and sends no code request; anything else fails; an exception stays on the face step |
| LoginModel.JoinShort | src/pages/Login.jsx:160-161 | the joined code of one-character slots is shorter than six exactly when some slot is empty |
| LoginModel.JoinAllDigits | src/pages/Login.jsx:160 | the joined code of digit slots is all digits |
| LoginModel.JoinSingles | src/pages/Login.jsx:160 | joining one-character slots gives a string as long as the slot count whose i-th character is slot i's |
| LoginModel.Join | src/pages/Login.jsx:160 | definition without a contract: the slots concatenated in order; JoinShort, JoinAllDigits and JoinSingles state its properties |
| LoginModel.IsSlot | src/pages/Login.jsx:139 | definition without a contract: the empty string or one decimal digit, the values the slot pattern accepts |
| LoginModel.ChangeDigit | src/pages/Login.jsx:138-144 | a value other than "" or one digit changes nothing; otherwise slot i takes the value and every other slot and field is kept |
| LoginModel.Spread | src/pages/Login.jsx:154 | split("") of a six-character code fills the six slots with its characters in order |
| LoginModel.PasteDigits | src/pages/Login.jsx:151-157 | fewer than six digits in the pasted text change nothing; otherwise the first six digits fill the six slots in order; nothing but the slots changes |
| LoginModel.VerifyReply | src/pages/Login.jsx:168-183 | once the code is sent, credentials are saved exactly when the reply carries a token, and then the step is success with the counter at 0; otherwise the step and request log stay and the user id, countdown and email never change |
| LoginModel.SubmitOtp | src/pages/Login.jsx:159-185 | verification never changes the user id, countdown or email, and saves credentials only on success with the counter reset to 0 |
| LoginModel.OtpSentIff | src/pages/Login.jsx:160-169 | the code is sent exactly when all six slots are filled, a user id is known and time is left |
| LoginModel.OtpGuards | src/pages/Login.jsx:161-163 | an empty slot, then a missing user id, then an expired countdown each stop the submission with their own message and nothing else changed |
| LoginModel.OtpOutcomes | src/pages/Login.jsx:165-183 | once sent: a token saves, succeeds, stops the interval and zeroes the counter; a rejected code clears all slots and keeps the countdown; an exception keeps the digits |
| LoginModel.OtpSentIsTheDigits | src/pages/Login.jsx:160 | the code sent from six filled slots is six digits, the digit of each slot in slot order |
| LoginModel.Resend | src/pages/Login.jsx:188-210 | without a user id or email nothing changes; otherwise the slots are cleared and a code is requested, and only a request that does not throw restarts the countdown at 300; no other field changes |
| LoginModel.ResetToLogin | src/pages/Login.jsx:213-221 | Try Again gives credentials, no image, six empty slots, counter 0 and no messages; the countdown value is kept and the interval stops unless the step was already credentials; every other field, email, password, user id and request log included, is kept |
| LoginModel.ResetIdempotent | src/pages/Login.jsx:213-221 | resetting twice is resetting once |
| LoginModel.ResetForgetsProgress | src/pages/Login.jsx:213-221 | two sessions that differ only in step, image, digits, messages and counter reset to the same state |
| LoginModel.CredentialsKeepValid | src/pages/Login.jsx:74-113 | handleCredentials keeps the session invariant |
| LoginModel.FaceKeepsValid | src/pages/Login.jsx:116-135 | the face submission and Back keep the session invariant |
| LoginModel.OtpKeepsValid | src/pages/Login.jsx:159-210 | verification and resend keep the session invariant |
| LoginModel.DigitsKeepValid | src/pages/Login.jsx:138-157 | digit entry and paste keep six slots of at most one digit |
| LoginModel.ResetAndTickKeepValid | src/pages/Login.jsx:213-221 | reset and a tick keep the session invariant |
| LoginModel.ThreeWrongPasswords | src/pages/Login.jsx:93-105 | three rejections from a fresh page show 2 then 1 attempts left, then enter OTP with the counter at 3, the reply's user id, a fresh countdown, three login requests and one code request |
| LoginModel.CounterPassesLimit | src/pages/Login.jsx:98-110 | when the code request throws at the third rejection the page stays on credentials at 3, and the next rejection takes the counter to 4 |
| LoginModel.PasswordThenFace | src/pages/Login.jsx:91-124 | credentials_ok then a face reply with a token reach success and save that token |
| LoginModel.ExpiredCodeIsBlocked | src/pages/Login.jsx:125-163 | after otp_required and 300 seconds the countdown is 0, the interval stopped, and a full code is refused as expired |
| LoginPage.Page.constructor | src/pages/Login.jsx:17-42 | the mounted page holds the initial session and satisfies the invariant |
| LoginPage.Page.IsExpired | src/pages/Login.jsx:71 | the page is expired exactly when its session is |
| LoginPage.Page.CountdownText | src/pages/Login.jsx:317 | the shown countdown reads back as the countdown, in five characters |
| LoginPage.Page.SetEmail | src/pages/Login.jsx:250 | only the email changes |
| LoginPage.Page.SetPassword | src/pages/Login.jsx:255 | only the password changes |
| LoginPage.Page.CaptureFace | src/pages/Login.jsx:288 | only the face image changes: it becomes the photo, or nothing when the photo is retaken |
| LoginPage.Page.CameraError | src/pages/Login.jsx:288 | only the error message changes |
| LoginPage.Page.SetStep | src/pages/Login.jsx:45-62 | the fields end as Enter of the old session |
| LoginPage.Page.Tick | src/pages/Login.jsx:49-57 | the fields end as Tick of the old session, keeping the invariant |
| LoginPage.Page.Save | src/pages/Login.jsx:83 | the store changes as saveAuth of the saved credentials, and not at all when there are none |
| LoginPage.Page.HandleCredentials | src/pages/Login.jsx:74-113 | the fields end as SubmitCredentials of the old session, keeping the invariant, and the store changes only by saving its credentials |
| LoginPage.Page.HandleAdminReply | src/pages/Login.jsx:81-87 | the fields and store end as AdminReply describes |
| LoginPage.Page.HandlePasswordReply | src/pages/Login.jsx:89-111 | the fields end as PasswordReply describes |
| LoginPage.Page.HandleRejection | src/pages/Login.jsx:94-105 | the fields end as CountRejection describes |
| LoginPage.Page.BackFromFace | src/pages/Login.jsx:293 | the fields end as BackFromFace of the old session, keeping the invariant |
| LoginPage.Page.HandleFaceLogin | src/pages/Login.jsx:116-135 | the fields end as SubmitFace of the old session, keeping the invariant, and the store changes only by saving its credentials |
| LoginPage.Page.HandleOtpChange | src/pages/Login.jsx:138-144 | the fields end as ChangeDigit of the old session, keeping the invariant |
| LoginPage.Page.HandleOtpPaste | src/pages/Login.jsx:151-157 | the fields end as PasteDigits of the old session, keeping the invariant |
| LoginPage.Page.HandleVerifyReply | src/pages/Login.jsx:168-183 | the fields end as VerifyReply of the old session, and the store changes only by saving the reply's credentials |
| LoginPage.Page.HandleOtpVerify | src/pages/Login.jsx:159-185 | the fields end as SubmitOtp of the old session, keeping the invariant, and the store changes only by saving its credentials |
| LoginPage.Page.HandleResend | src/pages/Login.jsx:188-210 | the fields end as Resend of the old session, keeping the invariant |
| LoginPage.Page.ResetToLogin | src/pages/Login.jsx:213-221 | the fields end as ResetToLogin of the old session, keeping the invariant |
| LoginPage.PasswordAndFaceLogin | src/pages/Login.jsx:74-135 | a password accepted and then a face accepted with a token leave the store logged in with the reply's role |
| Signup.InfoError | src/pages/Signup.jsx:18-25 | the information is accepted exactly when all four fields are filled, the passwords match and the password has at least 6 UTF-16 units; otherwise the first failing check names the error |
| Signup.MismatchBeforeLength | src/pages/Signup.jsx:21-22 | for all inputs with the fields filled: while the confirmation differs from the password, the message is the mismatch whatever the password's length, so the mismatch check comes first |
| Signup.SignupResult | src/pages/Signup.jsx:35-41 | registration succeeds exactly when a reply has a truthy message or user_id; otherwise the error is the reply's error or the default text, and an exception gives the network error |
| Signup.Page.constructor | src/pages/Signup.jsx:9-15 | the page starts on the information step with empty fields, no image and no requests |
| Signup.Page.SetName | src/pages/Signup.jsx:85 | only the name changes |
| Signup.Page.SetEmail | src/pages/Signup.jsx:89 | only the email changes |
| Signup.Page.SetPassword | src/pages/Signup.jsx:93 | only the password changes |
| Signup.Page.SetConfirm | src/pages/Signup.jsx:97 | only the confirmation changes |
| Signup.Page.CaptureFace | src/pages/Signup.jsx:117 | only the face image changes: it becomes the photo, or nothing when the photo is retaken |
| Signup.Page.CameraError | src/pages/Signup.jsx:117 | only the error message changes |
| Signup.Page.HandleInfo | src/pages/Signup.jsx:18-25 | a rejected form keeps the step and shows InfoError's message; an accepted one clears the error and moves to the face step |
| Signup.Page.HandleSignup | src/pages/Signup.jsx:27-44 | without an image nothing is sent and the error asks for one; otherwise one signup request is sent, and the step becomes done exactly when SignupResult says registered, or else stays and shows its message |
| Signup.Page.Back | src/pages/Signup.jsx:124 | Back returns to the information step with the image cleared |
| AdminDashboard.StatusColor | src/pages/AdminDashboard.jsx:52-58 | the badge is success exactly when the lower-cased status contains "success"; danger when it does not but contains "fail" or "invalid"; warn when it contains none of those but "otp" or "suspicious"; dim otherwise |
| AdminDashboard.StatusColorIgnoresCase | src/pages/AdminDashboard.jsx:53 | the badge does not depend on letter case |
| AdminDashboard.StatusColorMissing | src/pages/AdminDashboard.jsx:53 | a missing status and an empty one get the dim badge |
| AdminDashboard.Lowered | src/pages/AdminDashboard.jsx:53 | definition without a contract: a missing field counts as "" and is lower-cased |
| AdminDashboard.SuccessBadgeIsSuccessCount | src/pages/AdminDashboard.jsx:54-117 | the success badge appears exactly on the logs the success counter counts |
| AdminDashboard.Holds | src/pages/AdminDashboard.jsx:108-124 | definition without a contract: the tests of the tabs and counters, each an includes on the lower-cased field, the suspicious test also accepting a status of exactly "otp_required", and a day test for the chart |
| AdminDashboard.TabCriterion | src/pages/AdminDashboard.jsx:108-114 | definition without a contract: the test of each tab, and no test for "all" or an unknown tab |
| AdminDashboard.Select | src/pages/AdminDashboard.jsx:108-124 | filtering keeps exactly the logs that meet the test, in their order; the "all" test keeps the list unchanged |
| AdminDashboard.FilteredLogs | src/pages/AdminDashboard.jsx:108-114 | "all" and any unrecognised tab show every log unchanged; each tab shows, in order, exactly the logs its test accepts |
| AdminDashboard.Count | src/pages/AdminDashboard.jsx:117-124 | definition without a contract: the number of logs passing a test; SelectCount and CountAtMostTotal state its properties |
| AdminDashboard.SuccessCount | src/pages/AdminDashboard.jsx:117 | definition without a contract: the count of the success test |
| AdminDashboard.FailedCount | src/pages/AdminDashboard.jsx:118 | definition without a contract: the count of the fail test |
| AdminDashboard.OtpCount | src/pages/AdminDashboard.jsx:119 | definition without a contract: the count of the OTP event test |
| AdminDashboard.SuspiciousCount | src/pages/AdminDashboard.jsx:120-124 | definition without a contract: the count of the suspicious test |
| AdminDashboard.SelectCount | src/pages/AdminDashboard.jsx:108-124 | the filtered list is as long as the count of logs that meet the test |
| AdminDashboard.CountMonotone | src/pages/AdminDashboard.jsx:117-124 | a test that passes fewer logs never counts more of them |
| AdminDashboard.CountAtMostTotal | src/pages/AdminDashboard.jsx:117-124 | a count never exceeds the number of logs |
| AdminDashboard.TabsMatchCounters | src/pages/AdminDashboard.jsx:108-119 | the success, failed and otp tabs list as many logs as their counters show, and "all" lists every log |
| AdminDashboard.CountersAtMostTotal | src/pages/AdminDashboard.jsx:117-124 | every counter, suspicious included, counts each log at most once |
| AdminDashboard.OtpRequiredIsSuspicious | src/pages/AdminDashboard.jsx:120-124 | a status that lower-cases to "otp_required" counts as suspicious and gets the warn badge |
| AdminDashboard.BuildSeries | src/pages/AdminDashboard.jsx:95-102 | one point per day, in day order, labelled with the day and valued at the number of that day's logs that pass the test |
| AdminDashboard.DayCount | src/pages/AdminDashboard.jsx:98-101 | definition without a contract: the count of the logs of one day that pass a test |
| AdminDashboard.DayCountMonotone | src/pages/AdminDashboard.jsx:98-101 | a stricter test never counts more logs on a day |
| AdminDashboard.SeriesBelowAuth | src/pages/AdminDashboard.jsx:104-106 | on every day the success and otp series are at or below the series of all authentications |
| AdminDashboard.HitsDistinct | src/pages/AdminDashboard.jsx:37-43 | a day occurs at most once among distinct day labels |
| AdminDashboard.HitsAbsent | src/pages/AdminDashboard.jsx:37-43 | a day not among the labels occurs zero times |
| AdminDashboard.TotalCons | src/pages/AdminDashboard.jsx:95-104 | one more log adds one to the chart's total for each label that is its day |
| AdminDashboard.CountCons | src/pages/AdminDashboard.jsx:98-101 | one more log in front adds one to a count exactly when it passes the test |
| AdminDashboard.AuthSeriesTotal | src/pages/AdminDashboard.jsx:95-104 | over distinct days, the authentication series adds up to at most the number of logs |
| AdminDashboard.ZeroSeries | src/pages/AdminDashboard.jsx:95-104 | with no logs the series adds up to zero |

## Left out

- `parseJwt`, from `src/utils/auth_utils.js`: it decodes with `atob` and `JSON.parse`, foreign calls with no decision in them.
- Network plumbing, in `src/tempServices/api.js` (fetch, base URL, headers, JSON decoding): each endpoint is an input `Call<Reply>`. A reply field that is not a string, such as a numeric `user_id`, is not modelled.
- Camera capture (`CameraCapture`, with its own countdown): the image is an opaque `Option<string>`; a retake sets it back to `None`.
- Focus management (`handleOtpKey`, and the `focus` and `setTimeout` calls): it changes no state the handlers read.
- The `loading` and `resending` flags, disabled buttons and async interleaving: each handler is one atomic step. A reply that arrives after the page has moved on is not modelled.
- Timer teardown on unmount, and the mount effect's counter reset: the page mounts with the counter at 0 (`LoginPage.Page.constructor`).
- The rendered `attempts` state: the model keeps only the ref counter. The two differ only after an OTP success, where the source resets the ref alone.
- The `urgent` style below 60 seconds and the rest of the JSX markup: presentation only.
- `toLowerCase` outside ASCII: the model lower-cases only `A`–`Z`. JavaScript lower-cases every Unicode letter, so a status with non-ASCII capitals can be classified differently.
- `LineChart`, the `Math.round` percentage bars and `StatsCard`: floating point and presentation.
- `getLast7Days`, the dashboard's own `formatTime` and the timestamp sort: `Date` and locale formatting. A log carries its day label as the `day` field, and the days of a series are a parameter.
- `fetchData`, its 30-second polling and `handleLogout`'s navigation to `/`: I/O and timers. The store change of `handleLogout` is `AuthStore.Storage.Logout`.
- `Home.jsx`, `FaceRegister.jsx`, `Navbar.jsx` and the `VerifyOTP.jsx` redirect: views with no state of their own.
