# StudyBuddy accounts, forms and study timer, in Dafny

StudyBuddy is a single-page React app for NJIT students. This project models its core:

- the session controller of `App.js`: an account store keyed by username, the signed-in user, the current view, the `handleLogin` callback with its signup and login flows, `handleLogout`, and the seeding of a test account into an empty store;
- the `Signup` form: its fields, the ordered validation chain of `handleSubmit`, `validatePassword`, and the academic year it estimates from the credits typed;
- the `Login` form: the empty-field check, trimming of the username, and how it shows the controller's answer;
- the `StudyTimer` component: choosing a duration, start, pause, reset, the one-second tick that completes a session at zero, the Start/Resume label, and `formatTime`.

## Layout

| file | module | models |
|---|---|---|
| `common.dfy` | `Common` | `Option` (a missing/`undefined` value) |
| `text.dfy` | `Text` | JavaScript white space and `String.prototype.trim` |
| `numbers.dfy` | `Numbers` | decimal digits, `toString`, `padStart(2, '0')`, `Number(text)` for integer text |
| `year.dfy` | `AcademicYear` | `computeYear` |
| `accounts.dfy` | `Accounts` | `App.js`: the store, `handleLogin`, `handleLogout`, view switching, the test account |
| `signup.dfy` | `Signup` | `Signup.js` |
| `login.dfy` | `Login` | `Login.js` |
| `timer.dfy` | `Timer` | `StudyTimer.js` |
| `wiring.dfy` | `Wiring` | a form's submit, the controller's answer and the form's reaction, composed |

Each component whose state React updates is a class whose fields are that state:

- `Accounts.App` has `users`, `order`, `user` and `view`.
- `Signup.SignupForm` and `Login.LoginForm` have `form` and `error`.
- `Timer.StudyTimer` has `selectedTime`, `timeLeft`, `isRunning` and `isComplete`.

A setter becomes a method that assigns the field. Pure helpers become functions.

`Object.entries(users)` visits accounts in the order they were inserted. The model keeps that order as the sequence `App.order` next to the map, and `StoreOk` ties the two together.

A form's `handleSubmit` calls `onLogin` in the middle, so each form splits it in two:

- `Submit` runs the checks and returns the payload to send, or None.
- `HandleResponse` takes the controller's answer.

`Wiring.SignIn` and `Wiring.SignUp` put the halves back together around `App.HandleLogin`.

### Two behaviours of the code worth knowing

- **Duplicate signups.** The signup flow takes the *first* stored entry whose email or username matches (`App.js:46-51`). It reports a duplicate email only when that entry's email matches. When one account holds the email and another holds the username, the message depends on which of the two was stored first. `Accounts.SignupMessageByOrder` states this exactly.
- **Custom timer duration.** The Custom button asks for a number of minutes through `prompt`. It keeps the answer only when it is a positive number (`StudyTimer.js:34-39`).

## Model

| member | source | states |
|---|---|---|
| AcademicYear.ComputeYear | my-app/src/App.js:7-13 | Each year is returned exactly on its band: Freshman below 30, Sophomore 30–59, Junior 60–89, Senior from 90 on |
| AcademicYear.YearNeverDecreases | my-app/src/App.js:7-13 | More credits never give an earlier year |
| AcademicYear.YearBoundaries | my-app/src/components/Signup.js:4-10 | 29/30, 59/60 and 89/90 fall on different sides of each band change |
| Text.IsWhitespace | my-app/src/components/Login.js:21 | The code points of ECMAScript's WhiteSpace and LineTerminator, which `trim` removes and which `\s` matches in the email test of `Signup.js:30`. `Text.TrimStartDrops`, `Text.TrimEndDrops` and `Signup.NjitEmailOf` state how it is used |
| Text.LeadingCountIsRun | my-app/src/components/Login.js:21 | The counted leading characters are all white space, and the next character (if any) is not |
| Text.TrailingCountIsRun | my-app/src/components/Login.js:21 | The counted trailing characters are all white space, and the character before them (if any) is not |
| Text.TrimStart | my-app/src/components/Login.js:21 | The result is a suffix of the input |
| Text.TrimEnd | my-app/src/components/Login.js:21 | The result is a prefix of the input |
| Text.TrimStartDrops | my-app/src/components/Login.js:21 | Everything `TrimStart` drops is white space, and what it keeps does not start with white space |
| Text.TrimEndDrops | my-app/src/components/Login.js:21 | Everything `TrimEnd` drops is white space, and what it keeps does not end with white space |
| Text.Trim | my-app/src/components/Login.js:21 | `String.prototype.trim`: leading then trailing white space removed. Its properties are the lemmas `Text.TrimKeepsCore`, `Text.TrimDropsWhitespace`, `Text.TrimAllWhitespace` and `Text.TrimNoOp` |
| Text.TrimKeepsCore | my-app/src/components/Login.js:21 | A trimmed string is a contiguous slice of the input that neither starts nor ends with white space |
| Text.TrimDropsWhitespace | my-app/src/components/Login.js:21 | What `trim` cuts off on either side is white space only |
| Text.TrimAllWhitespace | my-app/src/components/Login.js:21 | A string made only of white space trims to "" |
| Text.TrimNoOp | my-app/src/components/Login.js:21 | A string without white space at either end is unchanged by `trim` |
| Numbers.NatToString | my-app/src/components/StudyTimer.js:51 | `toString` of a natural number is non-empty decimal digits; it has a leading zero only for 0; it has one digit below 10 and at most two below 100 |
| Numbers.NatToStringRoundTrip | my-app/src/components/StudyTimer.js:51 | The digits of `toString(n)` read back as n |
| Numbers.PadStart2 | my-app/src/components/StudyTimer.js:51 | `padStart(2,'0')` gives length max(2, len) and keeps the input as its suffix |
| Numbers.PadStart2Value | my-app/src/components/StudyTimer.js:51 | Padding digits with zeros does not change the number they spell |
| Numbers.ZerosValue | my-app/src/components/StudyTimer.js:51 | A run of zeros spells 0 |
| Numbers.LeadingZerosValue | my-app/src/components/StudyTimer.js:51 | Leading zeros do not change a number's value |
| Numbers.NumberValue | my-app/src/App.js:8 | `Number(text)` on integer text: trims, then reads the text with `IntegerText`. Its properties are `Numbers.NumberValueOfDigits`, `Numbers.NumberValueOfNegativeDigits`, `Numbers.NumberValueRoundTrip`, `Numbers.NegativeNumberValueRoundTrip` and `Numbers.NumberValueNaN` |
| Numbers.IntegerText | my-app/src/App.js:60 | Empty text is 0, and an optional sign followed by digits is that integer. Anything else is NaN. Its properties are `Numbers.IntegerTextOfNegativeDigits` and the `Numbers.NumberValue` lemmas |
| Numbers.NumberOrZero | my-app/src/components/Signup.js:49 | `Number(text) \|\| 0`: NaN becomes 0. With `Numbers.NumberValueRoundTrip`, the text of any natural number gives that number back |
| Numbers.NumberValueOfDigits | my-app/src/components/Signup.js:49 | `Number` of decimal digits is their value |
| Numbers.NumberValueOfNegativeDigits | my-app/src/components/Signup.js:49 | `Number` of a minus sign followed by digits is the negated value |
| Numbers.NumberValueRoundTrip | my-app/src/components/StudyTimer.js:36-37 | `Number(String(n)) == n` for every natural n |
| Numbers.NegativeNumberValueRoundTrip | my-app/src/components/Signup.js:49 | `Number("-" + String(n)) == -n` |
| Numbers.NumberValueNaN | my-app/src/components/StudyTimer.js:36 | Trimmed text that is non-empty, has no leading sign and is not all digits is NaN |
| Numbers.TrimDigits | my-app/src/components/Signup.js:49 | `Number` sees digit text as is, because there is nothing to trim |
| Numbers.TrimNegativeDigits | my-app/src/components/Signup.js:49 | A minus sign followed by digits has nothing to trim |
| Numbers.IntegerTextOfNegativeDigits | my-app/src/components/Signup.js:49 | Trimmed integer text with a minus sign is the negated digit value |
| Accounts.MessageOr | my-app/src/components/Signup.js:56 | `message \|\| fallback`: the message when present and non-empty, else the fallback. Used by both forms' `HandleResponse` |
| Accounts.SignupRefusal | my-app/src/App.js:46-57 | The signup flow's duplicate check. `Accounts.SignupRefusedIff` characterizes when it refuses, and `Accounts.SignupMessageByOrder` characterizes which message it gives |
| Accounts.NewAccount | my-app/src/App.js:60-69 | The record a signup stores: the key, the password, the name or else the key, the major, the credits or 0, login count 1, and the payload's email. `Accounts.SignupKeepsStoreOk` shows that storing it keeps the store's invariant |
| Accounts.WithYear | my-app/src/App.js:74 | The session's copy of an account, with `computeYear` of its credits added. `Accounts.App.Valid` requires the session to hold it |
| Accounts.IsSignup | my-app/src/App.js:41-44 | `(payload.type \|\| 'login') === 'signup'`. `Accounts.App.HandleLogin` characterizes both flows it selects between |
| Accounts.OrZero | my-app/src/App.js:95 | `loginCount \|\| 0`, so a missing count counts as 0. `Accounts.App.HandleLogin` states the raised count in terms of it |
| Accounts.Matches | my-app/src/App.js:47 | The test of the duplicate search: the same email or the same username. `Accounts.FirstMatch` and `Accounts.SignupRefusedIff` characterize the search built on it |
| Accounts.ResolveUsername | my-app/src/App.js:42 | `username \|\| email \|\| 'anon'` is never empty |
| Accounts.FirstMatch | my-app/src/App.js:46-48 | The index of the first entry, in insertion order, with the same email or the same username; every entry before it matches neither; None only when no entry matches |
| Accounts.FindExisting | my-app/src/App.js:46-48 | The loop of `find` returns exactly `FirstMatch` |
| Accounts.SignupRefusedIff | my-app/src/App.js:44-58 | A signup is refused exactly when its username is taken or some account already has its email |
| Accounts.SignupMessageByOrder | my-app/src/App.js:46-57 | A refusal names the email exactly when an account holding that email was stored no later than the account with the username, if there is one |
| Accounts.DuplicateEmailReported | my-app/src/App.js:50-57 | A new username with an email already in use is refused with the email message |
| Accounts.DuplicateUsernameReported | my-app/src/App.js:50-57 | A taken username with an unused email is refused with the username message |
| Accounts.SignupKeepsStoreOk | my-app/src/App.js:60-71 | Adding an accepted signup's record under a new key, at the end of the order, keeps the store's invariant |
| Accounts.LoginKeepsStoreOk | my-app/src/App.js:95-98 | Replacing a stored record's login count keeps the store's invariant |
| Accounts.App.constructor | my-app/src/App.js:17-32 | With nothing saved: empty store, no user, the login view |
| Accounts.App.SeedTestAccount | my-app/src/App.js:116-133 | An empty store gets exactly the test account; a non-empty store, the user and the view are untouched; the invariant is kept |
| Accounts.App.HandleLogin | my-app/src/App.js:39-107 | Five outcomes. A refused signup returns its message and changes nothing. An accepted signup adds one record under a new key, with login count 1, and signs it in. An unknown username returns "Invalid username." and a wrong password returns "Invalid password.", both changing nothing. A good login raises that one account's count by one (a missing count counts as 0) and shows the dashboard. The invariant holds throughout |
| Accounts.App.HandleLogout | my-app/src/App.js:109-113 | Signs out, shows the login view, and keeps the store |
| Accounts.App.SwitchView | my-app/src/App.js:142-143 | The forms' links change only the view, and only between login and signup |
| Signup.Set | my-app/src/components/Signup.js:16-20 | The named field takes the value and every other field is kept |
| Signup.IsNjitEmail | my-app/src/components/Signup.js:30 | `/^[^@\s]+@njit\.edu$/`: a non-empty local part without `@` or white space, then exactly `@njit.edu`. It is characterized by `Signup.NjitEmailOf` |
| Signup.NjitEmailOf | my-app/src/components/Signup.js:30 | `local@njit.edu` is accepted exactly when `local` is non-empty and holds neither `@` nor white space |
| Signup.NjitEmailAccepted | my-app/src/components/Signup.js:30 | A plain NJIT address passes |
| Signup.NjitDomainExact | my-app/src/components/Signup.js:30 | The domain is case-sensitive and must end the address |
| Signup.NjitEmptyLocalPart | my-app/src/components/Signup.js:30 | `@njit.edu`, with an empty local part, is rejected |
| Signup.NjitSpaceInLocalPart | my-app/src/components/Signup.js:30 | A local part holding white space is rejected |
| Signup.NjitSecondAt | my-app/src/components/Signup.js:30 | A local part holding a second `@` is rejected |
| Signup.HasUppercase | my-app/src/components/Signup.js:66 | `/[A-Z]/.test(pwd)`: some character from A to Z. `Signup.PasswordProblem` states its message exactly when it fails first |
| Signup.HasLowercase | my-app/src/components/Signup.js:67 | `/[a-z]/.test(pwd)`: some character from a to z. `Signup.PasswordProblem` states its message exactly when it fails first |
| Signup.HasDigit | my-app/src/components/Signup.js:68 | `/[0-9]/.test(pwd)`: some decimal digit. `Signup.PasswordProblem` states its message exactly when it fails first |
| Signup.HasSpecial | my-app/src/components/Signup.js:69 | Some character of the class `[!@#$%^&*(),.?":{}\|<>]`. `Signup.PasswordProblem` states its message exactly when it fails first |
| Signup.PasswordProblem | my-app/src/components/Signup.js:64-71 | "" exactly for a strong password; otherwise the message of the first failing check, in the order length ≥ 8, uppercase, lowercase, digit, special character, each as an if-and-only-if |
| Signup.WeakPasswordExample | my-app/src/components/Signup.js:64-71 | "abc12345" is long enough but is refused for lacking an uppercase letter |
| Signup.StrongPasswordExample | my-app/src/components/Signup.js:64-71 | "Abc123!@" passes every check |
| Signup.TestPasswordStrong | my-app/src/components/Signup.js:64-71 | The seeded test account's password "Test123!" would itself pass the signup rules |
| Signup.AsWrittenSecondSignupRefused | my-app/src/components/Signup.js:49 | As written, after one signup through the form, any later signup through the form with a new username is refused for a duplicate email |
| Signup.FreshSignupAccepted | my-app/src/App.js:44-58 | With the email in the payload, a new username with an unused email is accepted |
| Signup.CorrectedSecondSignupAccepted | my-app/src/components/Signup.js:49 | With the email in the payload, the second signup of that scenario is accepted when its email is new |
| Signup.SignupPayloadAsWritten | my-app/src/components/Signup.js:49 | The payload `handleSubmit` sends: the username or else the email as key, no email, and the credits through `Number(x) \|\| 0`. `Signup.AsWrittenSecondSignupRefused` and `Wiring.TwoFormSignups` show its consequence |
| Signup.SignupPayload | my-app/src/components/Signup.js:49 | The intended payload: the same plus the email. `Signup.FreshSignupAccepted` and `Signup.CorrectedSecondSignupAccepted` are stated against it |
| Signup.SignupForm.EstimatedYear | my-app/src/components/Signup.js:73 | The year shown under the credits input. `Signup.EstimateIsDashboardYear` and `Wiring.SignUp` tie it to the dashboard's year |
| Signup.EstimateIsDashboardYear | my-app/src/components/Signup.js:73 | The year the form estimates from the credits text is the year the dashboard shows after a signup with the payload as written |
| Signup.SignupForm.constructor | my-app/src/components/Signup.js:13-14 | All fields empty, no error |
| Signup.SignupForm.HandleChange | my-app/src/components/Signup.js:16-20 | One field takes the typed text and the error is cleared |
| Signup.SignupForm.Reset | my-app/src/components/Signup.js:130 | All fields empty, no error |
| Signup.MissingRequired | my-app/src/components/Signup.js:25 | One of username, password, email and name is empty. `Signup.SignupForm.Submit` shows the required-fields message exactly then |
| Signup.Acceptable | my-app/src/components/Signup.js:25-46 | Every check of `handleSubmit` passes, in order: required fields, NJIT email, matching passwords, strong password. `Signup.SignupForm.Submit` sends a payload exactly then, and `Wiring.SignUp` gets an answer exactly then |
| Signup.SignupForm.Submit | my-app/src/components/Signup.js:22-51 | A payload goes out exactly when every check passes, and it is the payload as written, without the email. Otherwise the first failing check sets its message: required fields, NJIT email, matching passwords, password strength. The form is untouched |
| Signup.SignupForm.HandleResponse | my-app/src/components/Signup.js:53-61 | A refusal shows its message or "Unable to create account.". A missing answer shows the catch's message. The form is kept |
| Login.WhitespaceUsernameSignsInAsAnon | my-app/src/components/Login.js:16-21 | A username of white space only passes the empty check, is sent as "", and is looked up as "anon" |
| Login.PlainUsernameKept | my-app/src/components/Login.js:21 | A username without surrounding white space is looked up as typed |
| Login.LoginForm.constructor | my-app/src/components/Login.js:5-6 | Both fields empty, no error |
| Login.LoginForm.HandleChange | my-app/src/components/Login.js:8-12 | One field takes the typed text and the error is cleared |
| Login.LoginForm.Clear | my-app/src/components/Login.js:66 | Both fields empty, no error |
| Login.Set | my-app/src/components/Login.js:10 | `{...f, [name]: value}` on the two login fields. `Login.LoginForm.HandleChange` states that the named field takes the value and the other is kept |
| Login.LoginPayload | my-app/src/components/Login.js:21 | The login payload: the trimmed username and the password as typed. `Login.WhitespaceUsernameSignsInAsAnon` and `Login.PlainUsernameKept` characterize its username |
| Login.LoginForm.Submit | my-app/src/components/Login.js:14-21 | An empty username or password sets "Please enter username and password." and sends nothing. Otherwise the trimmed username and the password as typed are sent |
| Login.LoginForm.HandleResponse | my-app/src/components/Login.js:24-32 | A missing or failed answer shows its message or "Unable to sign in." and keeps what was typed. Success empties the form and clears the error |
| Timer.Field | my-app/src/components/StudyTimer.js:51 | `k.toString().padStart(2,'0')`. `Timer.FieldValue`, `Timer.FieldOfOneDigit` and `Timer.FieldOfTwoDigits` characterize it |
| Timer.Clock | my-app/src/components/StudyTimer.js:51 | Three fields joined with colons. `Timer.ClockRoundTrip` reads it back to the total number of seconds |
| Timer.FormatTime | my-app/src/components/StudyTimer.js:46-52 | The placeholder `--:--:--` is shown exactly for null or 0 seconds |
| Timer.FormatTimeRoundTrip | my-app/src/components/StudyTimer.js:46-52 | For every positive n, the fields read back to n: at least two hour digits, minutes and seconds two digits each and below 60 |
| Timer.FormatTimeExample | my-app/src/components/StudyTimer.js:46-52 | 1500 seconds is shown as 00:25:00 |
| Timer.ClockArithmetic | my-app/src/components/StudyTimer.js:48-50 | Minutes and seconds are below 60, and hours·3600 + minutes·60 + seconds is the input |
| Timer.FieldValue | my-app/src/components/StudyTimer.js:51 | A padded field is at least two digits, exactly two below 100, and reads back as its number |
| Timer.FieldOfOneDigit | my-app/src/components/StudyTimer.js:51 | A number below ten is padded to a zero followed by its digit |
| Timer.FieldOfTwoDigits | my-app/src/components/StudyTimer.js:51 | A number from 10 to 99 is written as its two digits |
| Timer.ClockRoundTrip | my-app/src/components/StudyTimer.js:51-52 | Hours, minutes below 60 and seconds below 60, joined with colons, read back to the total number of seconds |
| Timer.ParseJoinedFields | my-app/src/components/StudyTimer.js:51 | Joining the fields with colons can be split back into the same fields |
| Timer.CustomMinutes | my-app/src/components/StudyTimer.js:35-38 | An accepted prompt answer is a positive number that the answer text reads as |
| Timer.CustomMinutesRejects | my-app/src/components/StudyTimer.js:36 | A cancelled prompt, "", "0" and "abc" are turned down |
| Timer.CustomMinutesAccepts | my-app/src/components/StudyTimer.js:36-38 | Any positive whole number typed is taken as that many minutes |
| Timer.StudyTimer.constructor | my-app/src/components/StudyTimer.js:4-7 | Nothing chosen, not running, not complete |
| Timer.StudyTimer.HandleTimeSelect | my-app/src/components/StudyTimer.js:33-44 | A preset, or an accepted custom answer, sets the duration and the full time in seconds without starting. A rejected answer changes nothing |
| Timer.StudyTimer.Start | my-app/src/components/StudyTimer.js:94 | Running; the remaining time is kept |
| Timer.StudyTimer.Pause | my-app/src/components/StudyTimer.js:98 | Stopped; the remaining time is kept exactly |
| Timer.StudyTimer.Tick | my-app/src/components/StudyTimer.js:17-31 | A running countdown loses exactly one second, and on reaching 0 stops and completes. Otherwise nothing changes. The invariant is kept |
| Timer.StudyTimer.Reset | my-app/src/components/StudyTimer.js:100-105 | Back to the selection state from any state |
| Timer.StudyTimer.StartNewSession | my-app/src/components/StudyTimer.js:82-87 | A completed session goes back to the selection state |
| Timer.StudyTimer.PrimaryLabel | my-app/src/components/StudyTimer.js:93-99 | "Pause" exactly while running. When stopped, "Start" exactly at the full duration and "Resume" otherwise |
| Timer.StudyTimer.RunToCompletion | my-app/src/components/StudyTimer.js:17-31 | A running countdown with N seconds left completes after exactly N ticks and keeps its duration |
| Timer.TwentyFiveMinuteSession | my-app/src/components/StudyTimer.js:10 | The 25-minute preset shows 00:25:00, labels its button Start, and completes after 1500 ticks |
| Wiring.SignIn | my-app/src/components/Login.js:14-32 | Submitting the login form against the controller. Success happens exactly when the trimmed username is stored with that password; it then stores that account with its count raised by one, puts that record with its year in the session, shows the dashboard and empties the form. A failure changes nothing in the app and shows the controller's message |
| Wiring.SignUp | my-app/src/components/Signup.js:22-61 | Submitting the signup form against the controller. An invalid form sends nothing and leaves the app alone. A valid form always gets an answer, and it succeeds exactly when the controller's duplicate check passes for the payload as written. A success adds exactly one entry under a new key at the end of the order and signs it in on the dashboard. That account has no email, login count 1 and the estimated year. A failure leaves the app unchanged and shows the duplicate check's message |
| Wiring.TwoFormSignups | my-app/src/components/Signup.js:49 | Two valid form signups with different usernames: when the first goes through, the second is refused with "An account with this email already exists." |
| Wiring.StartedApp | my-app/src/App.js:116-133 | Start-up with nothing saved and then the seeding effect: the store holds exactly the test account, nobody is signed in, the login view is shown |
| Wiring.SignInStored | my-app/src/components/Login.js:14-32 | Non-empty credentials whose trimmed username is stored with that password always sign in, and the session holds that record with its count raised by one |
| Wiring.TestAccountSession | my-app/src/App.js:116-133 | On a fresh start, signing in as the seeded test account puts that account, with login count 1, in the session |
| Wiring.TestAccountSignIn | my-app/src/App.js:116-133 | On a fresh start, signing in as `test` / `Test123!` shows Junior and a login count of 1 |

## Left out

- Persistence in `localStorage` and the JSON round trip are not modelled. The store, the user and the view start from their "nothing saved" values. The saved-session branch of the start-up state is not modelled.
- `console.log`/`console.error`, the completion sound and the `Dashboard` rendering are output only, so they are not modelled.
- The JSX itself is not modelled. Which buttons a screen shows appears only as preconditions on the matching methods:
  - `HandleTimeSelect` needs the selection screen.
  - `Start` needs a chosen, incomplete session.
  - `StartNewSession` needs a complete one.
  - `SwitchView` is not available from the dashboard.
- The `prompt` dialog becomes the `Custom(answer)` parameter, where None means cancelled.
- `setInterval`/`clearInterval` scheduling becomes an explicit `Tick` call. `Tick` folds the interval callback and the effect run it triggers into one step. React's batching and effect ordering are not modelled.
- `Wiring.SignIn`: on success it states the signed-in account's new record, not the rest of the store. That other entries and the key order stay the same is stated one level down, by `Accounts.App.HandleLogin`.
- `Timer.CustomMinutesAccepts` and `Timer.FormatTimeRoundTrip`: numbers are unbounded integers here. JavaScript's numbers are doubles. Integers above 2^53 are rounded, so the answer "9007199254740993" is taken as 9007199254740992 minutes. From 1e21 on, `toString` switches to exponent notation, so a 26-digit answer makes the hours field read "1.6666666666666667e+23". In the code, the two properties hold only for numbers of minutes below 2^53 and for hours below 1e21.
- `Timer.CustomMinutes`: `Number()` is modelled only for optionally signed decimal integers with surrounding white space. Fractions, exponents, hexadecimal and `Infinity` are taken as not a number. So an answer like "1.5" is turned down here, where the code would accept it.
- `Numbers.NumberValue`: `Number()` reads only optionally signed decimal integers, with surrounding white space. JavaScript also reads fractions ("45.5"), exponents ("1e3"), hexadecimal ("0x1E") and "Infinity". Such text is NaN here. This affects credits as well as the timer prompt. In the code, credits typed as "45.5" are stored as 45.5 and give Sophomore (`Signup.js:49,73`, `App.js:60`). Here they count as 0 and give Freshman. Credits are integers in the model.
- `Numbers.NumberValueNaN`: it calls every trimmed text that is not a signed or unsigned digit string NaN. That includes "1.5" and "1e3", which JavaScript reads as 1.5 and 1000, for the reason given in the line above.
- Password and username lengths count characters, not UTF-16 code units.
- `Object.entries` lists integer-like keys before the others. The model visits keys strictly in insertion order.
- `users[username]` also finds keys inherited from `Object.prototype`, such as `constructor`. The model's store has only its own keys, so such a login gives "Invalid username." here, where the code says "Invalid password.".
- `(…).toString()` on the resolved username is not modelled. Every username in the model is already a string.
- `Signup.SignupForm.Submit`: the `if(!onLogin) return` guards of both forms are not modelled. Both forms are always given `handleLogin`.
- `handleLogin` throws only when a `localStorage.setItem` write fails, for example when storage is full (`App.js:72,76,99,103`). For a signup that happens after `setUsers`, so the code keeps the new account but signs nobody in. That failure is left out together with persistence. So is the catch of `Login.js`'s submit, with its message "An error occurred while signing in.". A missing answer to the login form is the `!res` branch, which shows "Unable to sign in.". The signup form's catch message is modelled only for a missing answer.
- The browser's own checks on `type="email"` and `min="0"` inputs are not modelled.
- The timer's Close and Cancel buttons, which call the parent's `onClose`, are not modelled.

## Findings

| source | as written | input that shows it | evidently intended | confidence | as-written member | corrected member |
|---|---|---|---|---|---|---|
| my-app/src/components/Signup.js:49 | The signup payload has no `email` field. Every account created through the form is stored with an undefined email, and `existing.email === payload.email` holds between any two of them. | Start with only the test account. Sign up through the form as `alice` / `alice@njit.edu`, then as `bob` / `bob@njit.edu`. The second signup is refused with "An account with this email already exists." | The payload carries `email: form.email`, so the duplicate check compares real addresses | not executed | Signup.AsWrittenSecondSignupRefused | Signup.CorrectedSecondSignupAccepted |

The form and the composed flow follow the code as written: `Signup.SignupForm.Submit` sends `Signup.SignupPayloadAsWritten`, and `Wiring.TwoFormSignups` shows the refusal end to end. The corrected payload `Signup.SignupPayload` adds the email. `Signup.FreshSignupAccepted` and `Signup.CorrectedSecondSignupAccepted` prove the intended behaviour against it.
