# Audit-log event gating and extraction, in Dafny

This project models the decision logic of the audit-log scanner (`main.go`, function `iterate`, and
`boolToString`). The scanner walks a directory of JSON change events written by a form-based
record-management application. It keeps the events that were modified inside a trailing time window
and that concern a fixed set of important documents and forms. For each kept `"updated"` event it
prints typed audit lines: LOGIN, LOGOUT, LOGIN_UNLOCK, LOGIN_ATTEMPT, NEW_USER, PASSWORD_CHANGE,
USER_LOCK_CHANGE, PATIENT, PROCEDURE_REVIEW, PROCEDURE, VIDEO, IMAGE and USER_SETTINGS_CHANGE, with a
trace line as fallback.

Modules:

- `Json` (json.dfy): decoded JSON values. Go's `m[k]` on a `map[string]interface{}` reads a missing key
  as nil, so `Lookup` returns `JNull` for it, and Go's `!= nil` is `Present`.
- `Events` (events.dfy): `Reference`, `DateTimeStamp`, `Document`, `ChangeEvent`, the two payload shapes
  of an input file, the places where the program panics, and the identity constants.
- `Timestamps` (timestamps.dfy): the window gate, which compares strings the way Go's `>=` does, and
  the condition under which that comparison agrees with time order.
- `Importance` (importance.dfy): the importance flag that nine `if`s set.
- `Extractor` (extractor.dfy): the records, the first-match dispatch and the rule of each branch.
- `Audit` (audit.dfy): the driver. The walk collects `importantEvents`; a second loop prints the
  records of each event in turn.

The threshold `minimumDateInIso` (main.go:69-72) is a parameter of the driver. Each walked file is a
`JsonFile`: its path plus its payload, which is either a typed change event or a bare document.

A Go panic is not modelled as process termination. It is a value that says where the panic happened
(`PanicSite`):

- For one event, extraction gives `Emitted(records)` or `Panicked(before, site)`. `before` holds what
  was already printed; a PASSWORD_CHANGE line is printed before a malformed `locked` pair panics.
- A whole run gives `Run(output, crash)`: the lines printed and the panic that ended the run, if any.
- A document-less typed event panics at main.go:120. That happens during the walk, before anything
  is printed, so the `document != nil` test at main.go:178 always holds for the kept events.

Behaviour of the code worth noting, which the model keeps:

- A `currentUser` with no `id` key gives LOGIN, not LOGOUT: nil is not equal to `""` (main.go:184).
- A login-form document past its initial version with no `patch` object panics at main.go:196, before
  the nil test at main.go:198.
- A user-form `patch` that is null counts as absent and gives NEW_USER. A patch that is present but is
  not an object panics at main.go:215.
- Missing or mistyped fields are fatal here, as in the code. The model does not make them recoverable
  per-event errors.
- The allow-lists are constants, as in the code, not injected configuration. Output order is discovery
  order, with no sorting.

## Model

| member | source | states |
|---|---|---|
| `Events.Decode` | main.go:98-118 | a bare document becomes an `"updated"` event wrapping it; a typed payload keeps its own type and (possibly missing) document; the path is the walked path |
| `Timestamps.ThresholdIsInclusive` | main.go:120 | a timestamp equal to the threshold is in the window (inclusive lower bound) |
| `Timestamps.BeforeTransitive` | main.go:120 | the string order used by the gate is transitive |
| `Timestamps.BeforeTotal` | main.go:120 | the string order is total and asymmetric: exactly one of `a < b`, `a == b`, `b < a` |
| `Timestamps.LaterThresholdKeepsFewer` | main.go:120 | the threshold is monotone: a timestamp that passes a later threshold passes every earlier one |
| `Timestamps.LayoutOrder` | main.go:120 | for two timestamps of the same layout (the RFC 3339 form of main.go:72), string order equals the numeric order of their digits |
| `Timestamps.FractionalSecondsMisorder` | main.go:120 | a timestamp with fractional seconds, 250 ms after a whole-second threshold, is outside the window |
| `Timestamps.ZoneOffsetMisorder` | main.go:120 | a `+02:00` timestamp earlier in time than a UTC threshold is inside the window |
| `Importance.ClassifyImportance` | main.go:123-160 | the flag ends true iff the document id is one of the two ids or the form id is one of the seven forms; the order of the checks does not matter |
| `Extractor.BoolToString` | main.go:262-268 | the result is one of the two texts; with distinct texts it is the true-text iff the flag is true |
| `Extractor.RuleOf` | main.go:180-255 | first-match dispatch: the session id wins over any form; each form rule is taken iff the form matches and the id is not the session id; user settings only when no form matches; the trace iff the document is not important |
| `Extractor.SessionRecords` | main.go:180-188 | a non-object `currentUser` panics; otherwise exactly one record: LOGOUT iff `currentUser.id` is exactly `""`, and otherwise exactly LOGIN with that id and text |
| `Extractor.LoginFormRecords` | main.go:189-210 | panics, in order, on a non-object user, a non-boolean success, or a non-initial version without a patch object; otherwise one LOGIN_UNLOCK iff the override applies, one LOGIN_ATTEMPT marked FAILED iff no override and the login failed, nothing iff no override and it succeeded |
| `Extractor.ReadNewLockState` | main.go:235 | reads element [1] of the `locked` pair as the new state, panicking on a non-array, on a pair shorter than two, or on a non-boolean element, in that order |
| `Extractor.UserFormRecords` | main.go:211-238 | no patch gives one NEW_USER; a non-object patch panics; otherwise PASSWORD_CHANGE iff `password` is present; USER_LOCK_CHANGE (LOCKED/UNLOCKED from the pair's after-value) comes last iff `locked` is present and well-formed; the records are exactly the password record (if any) followed by the lock record (if any), so an empty patch prints nothing; a panic happens only on a malformed `locked` pair, at the site `ReadNewLockState` names, after the password record if any |
| `Extractor.ReviewRecords` | main.go:241-243 | a non-object user panics; otherwise exactly one PROCEDURE_REVIEW with the user's id and text |
| `Extractor.Extract` | main.go:176-255 | only an `"updated"` event with a document prints anything or panics; at most two records, two only for the user form; every non-trace record carries the document's modification time; a trace only for an unimportant document |
| `Extractor.ExtractDispatch` | main.go:180-255 | an updated event prints exactly what its dispatched rule gives: the session, login-form, user-form and review rules their functions' results; PATIENT, PROCEDURE, VIDEO, IMAGE and USER_SETTINGS_CHANGE one record of that kind with the document's time, name, id and path; the fallback one trace line with path, type and form text |
| `Extractor.TraceIffUnimportant` | main.go:253-254 | an updated event yields exactly one trace line iff its document is not important |
| `Extractor.SingleRecordRules` | main.go:239-251 | the patient, procedure, video, image and user-settings rules (and the trace) print exactly one record and never panic; the session and review rules print one record unless they panic |
| `Audit.CollectImportantEvents` | main.go:76-169 | a missing document is reported iff one of the walked events has none; otherwise `importantEvents` is the kept subsequence of the walked events |
| `Audit.PrintRecords` | main.go:175-257 | prints the records of each event in turn and stops at the first panic, with what was printed before it |
| `Audit.Iterate` | main.go:68-260 | the whole run: nothing printed and a nil-document panic if any walked event lacks a document, else the records of the kept events in order |
| `Audit.KeptIff` | main.go:162-164 | an event is kept iff it was walked, is at or after the threshold (no upper bound) and is important |
| `Audit.KeptAppend` | main.go:162-164 | gating preserves discovery order: the kept events of a concatenation are those of each part, in turn |
| `Audit.KeptIdempotent` | main.go:162-164 | gating the kept events again changes nothing |
| `Audit.BoundaryEventKept` | main.go:120-164 | an important event stamped exactly at the threshold is kept |
| `Audit.RunStepsAppend` | main.go:175-257 | events that do not panic contribute their records, then the remaining events are handled |
| `Audit.RunStepsStopsAtPanic` | main.go:175-257 | after a panic nothing more is printed |
| `Audit.ExtractAllAppend` | main.go:175-257 | extraction over a concatenation of event lists is the extraction of the first part followed, if it did not panic, by that of the second |
| `Audit.RunWithinWindow` | main.go:120-257 | every printed record is stamped at or after the threshold, and the trace fallback is never reached |
| `Audit.RunStepsOfNothing` | main.go:178 | events that produce no records produce an empty run without a panic |
| `Audit.NoUpdatesNoRecords` | main.go:178 | a corpus with no `"updated"` events prints nothing, and can only fail on a missing document |

## Left out

- Process start-up (`main`, `os.Getwd`, the greeting line, main.go:13-23): I/O with no decision logic.
- Directory traversal, file reading and the `.json` extension test (main.go:76-86): the walked files are a given sequence, in walk order.
- JSON decoding (main.go:88-118): `json.Unmarshal` is a foreign library. The decoded payload is the input, and only the choice between a typed event and a bare document (implied `"updated"`) is kept. Decode failures (`log.Fatal`), and a typed payload whose own `Path` key would overwrite the walked path, are not modelled.
- The threshold computation (`time.Now().UTC()`, `AddDate`, `Format(time.RFC3339)`, main.go:69-72) and `NUMBER_OF_MONTHS_TO_REVIEW`: clock and calendar arithmetic. The threshold string is a parameter.
- Text rendering by `fmt.Printf`/`Println`, including `%s` applied to non-string values and the inconsistent trailing semicolons: records are emitted as `Record` values.
- Byte-level string comparison: Go compares the UTF-8 bytes; the model compares characters by code point, which gives the same order.
- The unused constant `CURRENT_RECORDING_INFO` (main.go:66).
- JSON numbers are kept as their literal text; no floating-point value is modelled, and no rule reads one.
