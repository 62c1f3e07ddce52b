# wsrep utilities: version marker, node status, owned string

A Dafny model of three self-contained pieces of the replication glue in
`sql/wsrep_utils.h` (Percona XtraDB Cluster):

- **`wsp::WSREPState`** — the schema version marker. A version string is read
  as `major.minor.revision`; a missing component is 0; the stored string is
  truncated or padded to exactly `x.y.z` ("8.0.15-5" becomes "8.0.15", "8.0"
  becomes "8.0.0"); `wsrep_schema_version_equals` holds exactly when all three
  components agree. Modules `Decimal` (digit runs and their rendering),
  `SchemaVersion` (parse, render, normalise) and `WsrepState` (`clear`,
  `load_from`, `save_to`, the comparison).
- **`wsp::node_status`** — the node's membership status. It starts at
  `WSREP_MEMBER_UNDEFINED`; `set(new_status, view)` calls the
  `wsrep_notify_status` upcall and records the new status only when the status
  changes or a view is supplied. The upcall is modelled as an append to a log of
  notifications. Module `NodeStatus`: a functional `Tracker` plus a small class
  `NodeStatusCell` whose log is ghost.
- **`wsp::string`** — a slot owning at most one heap buffer; `set` frees the
  old buffer and holds the new one, and the destructor sets the null pointer.
  Module `OwnedString`: buffers are opaque handles and the calls of `free` are
  recorded in order.

Parsing rule. The body of `parse_version` lives in `sql/wsrep_utils.cc`, which
is not part of this model; the header fixes only the examples above and the
"missing component is 0" rule. The model reads the components left to right:
each is the run of decimal digits at the current position, and parsing stops
at the first character that is neither part of a digit run nor the single '.'
between two components; every component not reached is 0. So "8.0.15-5" is
(8, 0, 15), "8.0" is (8, 0, 0), "a.b.c" and "" are (0, 0, 0), and "8.x.3" is
(8, 0, 0). Reading each dot-separated piece on its own instead would give
(8, 0, 3) for "8.x.3". The two readings agree on strings made of dotted digit
runs followed by a qualifier when the qualifier comes after the revision or
contains no '.': "8.0.15-5" and "8.0-rc" read the same either way, but
"8.0-rc.1" is (8, 0, 0) here and (8, 0, 1) piece by piece. Every example the
header gives falls in the agreeing case.

Files and I/O. `load_from` receives the file's content as a parameter (`None`
when the file is absent or unreadable) and `save_to` receives whether the write
succeeds and returns the text written. The header says only that the loaded
string is normalised, and under the permissive parsing rule malformed text is
never an error, so any readable content is accepted and normalised.

## Model

| member | source | states |
|---|---|---|
| Decimal.NatToString | sql/wsrep_utils.h:244-248 | a component is written as plain decimal text (no leading zero) that reads back as the same number |
| Decimal.LeadingDigits | sql/wsrep_utils.h:252-256 | a component is the longest run of digits at the scan position: a prefix, all digits, followed by a non-digit or the end |
| Decimal.LeadingDigitsOfRun | sql/wsrep_utils.h:252-256 | a digit run followed by a non-digit such as '.' or '-' is read exactly, no more and no less |
| Decimal.CanonicalRoundTrip | sql/wsrep_utils.h:244-248 | plain decimal text is the rendering of its own value, so a component already in "x.y.z" form is not rewritten |
| SchemaVersion.Parse | sql/wsrep_utils.h:252-256 | the major version is the leading digit run, and when no '.' follows it the minor version and the revision are missing and therefore 0 |
| SchemaVersion.ParseDottedRuns | sql/wsrep_utils.h:252-256 | dotted digit runs followed by a qualifier parse to their values and every component not supplied is 0 ("8.0" is 8.0.0, "8.0.15-5" is 8.0.15) |
| SchemaVersion.ParseNoLeadingDigit | sql/wsrep_utils.h:252-256 | a string that does not start with a digit ("", "a.b.c") parses as 0.0.0 rather than failing |
| SchemaVersion.ParsePlainTriple | sql/wsrep_utils.h:252-256 | an "a.b.c" string parses to the values of its three dot-separated pieces |
| SchemaVersion.ParseRender | sql/wsrep_utils.h:244-256 | parsing the "x.y.z" rendering of a version gives back the same three components |
| SchemaVersion.RenderInjective | sql/wsrep_utils.h:238-248 | two versions render to the same "x.y.z" text exactly when all three components are equal |
| SchemaVersion.RenderIsPlainTriple | sql/wsrep_utils.h:244-248 | every rendering splits at its dots into exactly three plain decimal components |
| SchemaVersion.SplitJoin | sql/wsrep_utils.h:252-256 | splitting at the dots recovers the components that were joined with dots |
| SchemaVersion.JoinSplit | sql/wsrep_utils.h:252-256 | joining the dot-separated pieces of a string gives the string back |
| SchemaVersion.Normalize | sql/wsrep_utils.h:244-248 | the normalised marker is always exactly three dot-separated plain decimal components, and it parses to the same major, minor and revision as the original string |
| SchemaVersion.NormalizeFixedPoint | sql/wsrep_utils.h:244-248 | a string comes back from normalisation unchanged if and only if it already is "x.y.z" with plain decimal components |
| SchemaVersion.NormalizeIdempotent | sql/wsrep_utils.h:244-248 | normalising twice is the same as normalising once |
| SchemaVersion.NormalizeAgrees | sql/wsrep_utils.h:238-248 | two strings normalise to the same marker exactly when their three components agree |
| SchemaVersion.QualifierDropped | sql/wsrep_utils.h:244-248 | any qualifier after the revision digits (one not starting with a digit) is dropped: the version parses and normalises as if it were absent |
| SchemaVersion.RevisionPadded | sql/wsrep_utils.h:252-256 | a version with only "major.minor" parses with revision 0 |
| SchemaVersion.TruncateExample | sql/wsrep_utils.h:246 | "8.0.15-5" parses as 8.0.15 and is shortened to "8.0.15" |
| SchemaVersion.PadExample | sql/wsrep_utils.h:247 | "8.0" parses as 8.0.0 and is lengthened to "8.0.0" |
| WsrepState.SchemaVersionEquals | sql/wsrep_utils.h:238-242 | true exactly when major, minor and revision of the stored and the server version are all equal, which is the same as their normalised forms being equal |
| WsrepState.Clear | sql/wsrep_utils.h:232-233 | the stored version becomes empty, after which only a server version parsing as 0.0.0 compares equal |
| WsrepState.LoadFrom | sql/wsrep_utils.h:235 | succeeds exactly when the file is readable; then the stored version is "x.y.z" with the file's components, otherwise the state is unchanged |
| WsrepState.SaveTo | sql/wsrep_utils.h:236 | the stored version is normalised before saving without changing its components; the text written is that normalised version, and is written exactly when the write succeeds |
| WsrepState.SavePlainVerbatim | sql/wsrep_utils.h:244-248 | a stored version already in "x.y.z" form is written unchanged |
| WsrepState.SaveLoadRoundTrip | sql/wsrep_utils.h:235-248 | saving then loading yields the normalised marker, and every comparison with a server version gives the same answer before and after |
| WsrepState.EqualsSameExample | sql/wsrep_utils.h:238-242 | stored "8.0.15" equals server "8.0.15" |
| WsrepState.EqualsRevisionExample | sql/wsrep_utils.h:238-242 | stored "8.0.15" does not equal server "8.0.16" |
| WsrepState.EqualsPaddedExample | sql/wsrep_utils.h:238-247 | stored "8.0" equals server "8.0.0" |
| WsrepState.SaveLoadExamples | sql/wsrep_utils.h:244-248 | saving "8.0" and loading it back stores "8.0.0"; saving "8.0.15-5" stores "8.0.15" |
| NodeStatus.Init | sql/wsrep_utils.h:30 | a new tracker reports `WSREP_MEMBER_UNDEFINED`, has notified nothing, and is valid |
| NodeStatus.NodeStatusCell.Create | sql/wsrep_utils.h:30 | a new object reports `WSREP_MEMBER_UNDEFINED`, has notified nothing, and satisfies the invariant `Valid` |
| NodeStatus.Set | sql/wsrep_utils.h:31-38 | afterwards `get()` is the new status; when the status changes or a view is given exactly one notification (status, view) is appended, otherwise nothing changes at all |
| NodeStatus.NodeStatusCell.SetStatus | sql/wsrep_utils.h:31-37 | the in-place `set` does what the functional `Set` does to the status and the ghost notification log, and keeps the invariant `Valid` |
| NodeStatus.SetKeepsValid | sql/wsrep_utils.h:31-38 | a `set` keeps the reported status equal to the last notified one and adds no redundant notification |
| NodeStatus.RunKeepsValid | sql/wsrep_utils.h:28-42 | any sequence of `set` calls keeps the tracker valid |
| NodeStatus.RunExtendsLog | sql/wsrep_utils.h:33-36 | notifications are only appended, at most one per call |
| NodeStatus.RunReportsLastStatus | sql/wsrep_utils.h:31-38 | after a sequence of calls `get()` reports the status of the last call |
| NodeStatus.RepeatIsNoOp | sql/wsrep_utils.h:33-36 | repeating the current status without a view, any number of times, changes nothing and notifies nothing |
| OwnedString.Empty | sql/wsrep_utils.h:132 | the default slot holds nothing and has freed nothing |
| OwnedString.Allocated | sql/wsrep_utils.h:133 | the sized constructor holds whatever the allocation returned, possibly null |
| OwnedString.AllocatedLifetime | sql/wsrep_utils.h:133-139 | a slot built with a size frees, on destruction, the allocated buffer (if the allocation succeeded) and then every non-null buffer handed over later, in order |
| OwnedString.SetTo | sql/wsrep_utils.h:135-138 | `set` holds the new pointer and frees the previously held buffer, if any, exactly once |
| OwnedString.Destroy | sql/wsrep_utils.h:139 | destruction frees the held buffer, if any, and leaves nothing held |
| OwnedString.RunAccountsForEveryBuffer | sql/wsrep_utils.h:135-139 | across any sequence of `set` calls every non-null buffer handed over is either freed or still held, in order |
| OwnedString.Lifetime | sql/wsrep_utils.h:132-139 | from construction to destruction the slot frees exactly the non-null buffers it was given, in order: no leak |
| OwnedString.SetKeepsSound | sql/wsrep_utils.h:135-138 | handing over a buffer neither freed nor held keeps the slot free of double frees |
| OwnedString.DistinctBuffersKeepSound | sql/wsrep_utils.h:132-138 | a slot given only distinct buffers never frees one twice and never holds a freed one |
| OwnedString.SetSameBufferDangles | sql/wsrep_utils.h:135-138 | `set` with the pointer already held frees it and keeps holding it, so distinctness is the caller's obligation |

## Left out

- `wsp::process` (sql/wsrep_utils.h:68-112): spawning a child, pipes, `wait` and `terminate` are operating-system process and I/O control, and only declarations are visible.
- `wsp::env` (sql/wsrep_utils.h:49-65): only declarations are visible; its one behavioural promise ("add a new env. var") is too thin to state.
- `wsp::thd` (sql/wsrep_utils.h:114-128): thread initialisation wrappers tied to the server's threading model.
- `lock`, `monitor`, `critical` (sql/wsrep_utils.h:145-226): compiled out under `#ifdef REMOVED`, and concurrency primitives.
- `wsrep_check_ip`, `wsrep_guess_ip`, `wsrep_host_len` (sql/wsrep_utils.h:21-25): declarations only; guessing an address is network I/O.
- `local_status` (sql/wsrep_utils.h:45): the global instance; the model works on tracker values.
- The file system behind `load_from` and `save_to`: the directory and file names, reading and writing are parameters; whether the real write replaces the file atomically is not modelled.
- The `wsrep_notify_status` upcall's effect on the server: only the fact and order of the calls is modelled.
- The `operator()` accessors of `wsp::string` and the `get()` of `wsp::node_status` are plain field reads (`Slot.held`, `NodeStatus.Get`).
- SchemaVersion.Parse: reads components one after the other and stops at the first character that is neither a digit nor the '.' between components; a reading of each dot-separated piece on its own would give (8, 0, 3) for "8.x.3" and (8, 0, 1) for "8.0-rc.1", where this model gives (8, 0, 0). The body of `parse_version` is not part of this model, and the header fixes neither reading.
- WsrepState.LoadFrom: readable content that is not a version string is still accepted and normalised (to 0.0.0 when it starts with no digit); only an absent or unreadable file fails, because the header documents no validity check and malformed text is never an error under the parsing rule.
- Decimal.LeadingDigits: does not model the `uint` wrap-around of a digit run too long for 32 bits, because values are unbounded naturals; it also does not model leading white space or a sign that a `scanf`-style reader would accept.
- SchemaVersion.ParseDottedRuns: malformed text other than a leading non-digit or a trailing qualifier is left to the general definition and has no lemma of its own, because the header promises nothing about it.
