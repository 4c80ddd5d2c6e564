# Exercise-form monitor and registration validators

This project models the two parts of the SportAI repository that hold logic of their own.

- **The exercise-form monitor** (`posture/posture_detection.py`, module `Posture`). It watches a pose stream, classifies each frame's arm angle against the selected exercise (`hand_raise`: shoulder angle at least 150; `hand_curl`: elbow angle at most 120), and counts consecutive incorrect frames. At 30 it fires an alarm and starts counting again. Keys switch the exercise or stop the loop, and `start`/`stop` toggle the running flag.
  - `MonitorState` and its transition functions (`PoseStep`, `KeyStep`, `FrameStep`, `RunFrames`, `StartStep`, `StopStep`) state what each step does.
  - The class `ExerciseDetector` keeps the same state in mutable fields. Each of its methods is proved to change those fields exactly as the matching function says.
- **The form validators** (`backend/sportai_app/main/forms.py`, module `Forms`).
  - Each inline `validate_*` regex is read literally as a predicate over the whole string (`NamePattern`, `UsernamePattern`, `EmailPattern`, `PasswordPattern`, `PhonePattern`).
  - Where a regex is more than one character class with a length, a plain statement of the rule, or a search-free matcher, is proved equivalent to it.
  - Each form field is a validator chain (`DataRequired`, `Length`, `AnyOf`, then the inline check), run the way WTForms runs one:
    - a failing `DataRequired` (empty or whitespace-only data) replaces all errors with its own and stops the chain;
    - any other failure records its error and the chain goes on.
  - A field is valid when its chain records no error. The database lookups become membership in the sets of a `Users` value.

`wrappers.dfy` holds the shared `Option` type.

Four behaviours of the code a reader may not expect, all modelled as the code has them:
- When the camera cannot be opened, `detection_loop` returns with `running` still true (`DetectionLoop` with `cameraOpened == false` changes nothing).
- When the frame source runs dry, the loop ends with `running` still true, so a later `start` starts nothing (`StreamEndKeepsRunning`).
- A degenerate angle is returned as 0. The classifier reads 0 as a failed hand raise but as a *good* hand curl (`DegenerateAngleClassification`).
- Switching exercise does not reset the counter (`ModeSwitchAppliesToNextFrame`).

## Model

| member | source | states |
|---|---|---|
| Posture.Truncate | posture/posture_detection.py:54-56 | `int()` truncates toward zero: the result is within 1 of the input, on the zero side, with the input's sign |
| Posture.GetLandmarkCoords | posture/posture_detection.py:52-57 | a landmark inside the normalised frame [0,1] maps to a pixel inside [0,w] x [0,h] |
| Posture.DegenerateIff | posture/posture_detection.py:21-29 | the zero-magnitude guard fires exactly when a == b or c == b, for integer points |
| Posture.CalculateAngleGuard | posture/posture_detection.py:19-32 | the angle is 0 when a == b or c == b, and otherwise the floating-point arccosine of the vectors' dot product and lengths |
| Posture.HandRaiseClassification | posture/posture_detection.py:34-39 | in `hand_raise`, form is incorrect iff the shoulder angle is below 150 (149 incorrect, 150 correct), whatever the elbow angle |
| Posture.HandCurlClassification | posture/posture_detection.py:40-43 | in `hand_curl`, form is incorrect iff the elbow angle is above 120 (121 incorrect, 120 correct), whatever the shoulder angle |
| Posture.UnknownExerciseNeverIncorrect | posture/posture_detection.py:34-44 | any other exercise type is never classified incorrect |
| Posture.DegenerateAngleClassification | posture/posture_detection.py:28-43 | a degenerate angle (0) counts as a failed raise but as a good curl |
| Posture.PoseStepEffect | posture/posture_detection.py:148-191 | with the counter below 30: no pose changes nothing; a correct pose resets the counter with no alarm; an incorrect pose makes the counter (c+1) mod 30 and adds (c+1) div 30 alarms; the counter stays below 30 |
| Posture.AlarmFiresIff | posture/posture_detection.py:176-189 | a frame fires an alarm iff its pose is incorrect and the counter was 29; at most one alarm per frame |
| Posture.KeyCode | posture/posture_detection.py:204 | masking with 0xFF gives a code in 0..255 congruent to the raw key modulo 256 |
| Posture.KeyStepEffect | posture/posture_detection.py:204-211 | ESC clears `running`, 'r' selects `hand_raise`, 'c' selects `hand_curl`, other keys and no key change nothing; no key touches the counter or the alarms |
| Posture.RunFramesKeepsCounterInRange | posture/posture_detection.py:148-191 | 0 <= counter <= 29 holds after any sequence of frames |
| Posture.IncorrectStreak | posture/posture_detection.py:148-189 | n incorrect frames with neutral keys take counter c to (c+n) mod 30 and add (c+n) div 30 alarms |
| Posture.IncorrectStreakFromReset | posture/posture_detection.py:69-70 | from counter 0, n incorrect frames fire n div 30 alarms and leave n mod 30; 29 frames fire none, the 30th fires one and resets |
| Posture.EscEndsLoop | posture/posture_detection.py:204-207 | after ESC no later frame is processed and the monitor is stopped |
| Posture.StreamEndKeepsRunning | posture/posture_detection.py:72-75 | running out of frames without ESC leaves `running` set, so `start` is then a no-op |
| Posture.ModeSwitchAppliesToNextFrame | posture/posture_detection.py:208-211 | 'c' switches to `hand_curl` and 'r' to `hand_raise` without touching the counter, and the next pose is judged by the elbow or the shoulder angle respectively |
| Posture.StartIdempotent | posture/posture_detection.py:216-221 | `start` leaves the monitor running and starts one loop only when it was stopped; when already running it changes nothing, so a second `start` changes nothing |
| Posture.StopStops | posture/posture_detection.py:223-225 | `stop` always leaves `running` false, changes nothing else, and is idempotent |
| Posture.ExerciseDetector.constructor | posture/posture_detection.py:13-17 | a new detector is stopped, in `hand_raise`, with counter and alarms 0 |
| Posture.ExerciseDetector.ProcessPose | posture/posture_detection.py:148-191 | updates counter and alarm count exactly as `PoseStep`, keeping the counter below 30 |
| Posture.ExerciseDetector.HandleKey | posture/posture_detection.py:204-211 | updates the fields exactly as `KeyStep` and reports a loop exit exactly for ESC |
| Posture.ExerciseDetector.DetectionLoop | posture/posture_detection.py:59-211 | a failed camera changes nothing; otherwise the counter starts at 0 and the fields end as `RunFrames` of the frames |
| Posture.ExerciseDetector.Start | posture/posture_detection.py:216-221 | updates the fields exactly as `StartStep` |
| Posture.ExerciseDetector.Stop | posture/posture_detection.py:223-225 | updates the fields exactly as `StopStep` |
| Forms.UsernamePatternIsRule | backend/sportai_app/main/forms.py:51-56 | the username pattern holds iff the length is 5 to 32, the first character is a-z and the rest are a-z, 0-9 or `_`; its length bounds coincide with `Length(min=5, max=32)` |
| Forms.PasswordPatternIsRule | backend/sportai_app/main/forms.py:62-69 | the look-ahead pattern holds iff the length is 8 to 60, there is no line feed, and there is an uppercase letter, a lowercase letter, a digit and one of `!@#$%^&*()-_=+{};:,<.>` |
| Forms.TldPartAccepted | backend/sportai_app/main/forms.py:43 | splitting at the first dot decides `[a-z]{2,8}(\.[a-z]{2,8})?` exactly |
| Forms.EmailAcceptedIff | backend/sportai_app/main/forms.py:42-45 | splitting at the first `@` and the first dot after it accepts exactly the strings local@label.tld[.tld2] of the pattern |
| Forms.EmailRejectsUpper | backend/sportai_app/main/forms.py:43 | an address containing any uppercase letter never matches the email pattern |
| Forms.ValidateEmail | backend/sportai_app/main/forms.py:42-49 | an address is rejected as malformed iff it misses the pattern, as taken iff it matches and is registered, and accepted otherwise |
| Forms.ValidateUsername | backend/sportai_app/main/forms.py:51-60 | malformed iff the username rule fails, taken iff it holds and the username is registered, accepted otherwise |
| Forms.ValidatePassword | backend/sportai_app/main/forms.py:62-69 | accepts iff the password rule holds |
| Forms.ValidatePhone | backend/sportai_app/main/forms.py:71-76 | malformed iff not exactly 10 digits, taken iff well formed and registered, accepted otherwise |
| Forms.RunChain | backend/sportai_app/main/forms.py:14-29 | a field records no error iff no validator of its chain fails |
| Forms.NameFieldAccepts | backend/sportai_app/main/forms.py:35-40 | a name is accepted iff it is not blank and is 3 to 60 letters, whitespace, commas, apostrophes or periods |
| Forms.BlankNameRejected | backend/sportai_app/main/forms.py:14 | three spaces match the name pattern and the length but are rejected as missing data |
| Forms.EmailFieldAccepts | backend/sportai_app/main/forms.py:42-49 | an email is accepted iff it matches the pattern and is not registered; a non-blank malformed one reports only the format error, a registered one only the taken error |
| Forms.UsernameFieldAccepts | backend/sportai_app/main/forms.py:51-60 | a username is accepted iff the username rule holds and it is not taken; a taken well-formed one reports only that |
| Forms.PasswordFieldAccepts | backend/sportai_app/main/forms.py:62-69 | a registration password is accepted iff the password rule holds |
| Forms.ResetPasswordSameAsRegistration | backend/sportai_app/main/forms.py:109-120 | the reset form's password field records exactly the errors of the registration one |
| Forms.PhoneFieldAccepts | backend/sportai_app/main/forms.py:71-76 | a phone is accepted iff it is exactly 10 digits and not registered; a registered well-formed one reports only that |
| Forms.ShortPhoneErrors | backend/sportai_app/main/forms.py:22-25 | "12345" records both the length error and the format error |
| Forms.GenderFieldAccepts | backend/sportai_app/main/forms.py:78-81 | the gender field accepts exactly "male", "female" and "other" |
| Forms.CapitalisedGenderErrors | backend/sportai_app/main/forms.py:26-29 | "Other" fails both the field's `AnyOf` and the inline check |
| Forms.IdentifierFieldsAccept | backend/sportai_app/main/forms.py:88-102 | the login and reset-request identifiers are accepted iff not blank and 5 to 60 characters long |
| Forms.LoginPasswordFieldAccepts | backend/sportai_app/main/forms.py:91-93 | the login password is accepted iff not blank and 8 to 60 characters long, with no strength rule |
| Forms.RegistrationAccepts | backend/sportai_app/main/forms.py:10-81 | its six modelled fields (all but `dob`) validate iff every field's rule holds and its email, username and phone are not registered |

## Left out

- Camera capture, colour conversion, pose estimation, drawing, on-screen text and the key poll are external. A frame enters the model as the two angles, or no pose, together with the raw key code.
- The floating-point arccosine and the degree conversion in `calculate_angle` are a parameter of `CalculateAngle`. The range and symmetry of the real angle are not stated.
- Posture.CalculateAngleGuard: the arccosine parameter is total, but `math.acos` raises `ValueError` when rounding pushes the quotient just outside [-1, 1] (for collinear points such as ba = (-12, -12), bc = (12, 12)). That exception ends `detection_loop` with `running` still true and the capture unreleased; the model does not capture this exit.
- Python floats are modelled as exact reals in `Truncate` and `GetLandmarkCoords`.
- The alarm's audio thread and `playsound` are modelled as a count of alarms fired. Its failures cannot reach the monitor.
- Threads are not modelled. `start` records one started loop, `DetectionLoop` is the loop that thread runs, and `stop` only clears the flag. Joining the thread, releasing the capture handle and closing windows are not modelled.
- The capture handle's `isOpened()` check inside the loop is not modelled. It only changes when `stop` runs concurrently.
- Regular expressions are matched in full and over ASCII:
  - `\d` is 0-9, and `\s` is space, tab, line feed, carriage return, vertical tab and form feed;
  - Python's `$` also matching before one final line feed is not modelled;
  - neither are Unicode digits and spaces.
- `DataRequired`'s whitespace test uses the same ASCII `\s` set as `str.strip()` in the model.
- A missing field (data `None`) and the `dob` date field's parsing are not modelled.
- The database lookups are exact membership in `Users` sets. Database collation is not modelled.
- The messages of the validation errors are represented by the `Error` constructors, not their text.
