# lite-logger: format templates and log-statement replay

A Dafny model of the core of lite-logger, a C++ logging facade. The core is
two things:

- **The format template (`llfmt`).** Chained `<<` insertions compile into a
  list of segments of small directive codes: literal `0`, the two info
  tokens, and closure `3`. Two side lists hold the literal texts and the
  stored closures. The data marker `logStr` opens a new segment.
- **The replay engine.** A call on the facade (`llogger`) decides whether it
  is enabled. It opens a statement (`llogger::logger`) that walks the
  template one segment at a time. Each literal or closure directive consumes
  the next entry of its side list. The engine appends payloads, or closure
  results, only when enabled, and ends the line only when enabled.

The repository has two variants, and both are modelled on the same
datatypes.

- **Header-only variant (`include/llogger.h`).**
  - Info codes are level `1` and time `2`.
  - Every statement owns fresh cursors.
  - The statement accumulates its line in a buffer and writes it when it
    ends.
  - The enabled flag is one field of the facade. A statement reads it at
    every insertion and when it ends.
- **Compiled variant (`src/llogger.h`, `src/llogger.cxx`).**
  - Info codes are time `1` and level `2`.
  - The cursors live inside the shared template, and every call resets them.
  - The call operators act on the thread-current logger, whichever logger
    they are invoked through.
  - Every render writes straight into that logger's stream.

The model is organised by module:

- `Levels` holds the severity ordinals and the admission rule.
- `Template` holds the template and its insertions, and the template
  invariant: the code counts match the side-list lengths.
- `Replay` holds the per-variant render table `fmtCbs`, the cursor triple,
  rendering a segment, and the segment cursor `fmtOpt`.
- `Calls` holds what both variants' calls share: call forms, payloads and
  the clock.
- `IncludeLogger` and `SrcLogger` hold the two variants' facades and
  statements.

Some C++ behaviour is undefined: reading a list past its end, indexing the
label table with `silent`, dispatching a code with no routine, or
dereferencing a missing current logger. It is modelled as an
`Undefined(fault)` outcome, not as a precondition. The contracts therefore
state exactly when it happens.

Three things are modelled as values supplied by the caller:

- **Time.** The timestamp shown while a segment is replayed is an opaque
  string `stamp`. For a whole statement, a `Clock` maps each segment index to
  its reading.
- **Closures.** A closure is an identity. `results` gives its text, and
  every operation returns the trace of identities it invoked.
- **Output.** The header-only variant's output is a list of lines. The
  compiled variant's streams are strings held in a `World`.

Two details of the code shape the model:

- **A disabled replay does not move the segment cursor.** The segment
  cursor advances only inside `fmtOpt` (`include/llogger.h:92-94`,
  `src/llogger.h:77-79`). Both replay routines call `fmtOpt` only under the
  `enable` guard (`include/llogger.h:301-305`, `src/llogger.h:194-200`). A
  disabled replay therefore leaves all three cursors where they were.
- **The header-only statement has no enabled flag of its own.** The only
  flag is the facade's `enable_` (`include/llogger.h:188`). A statement reads
  it again at each insertion (`include/llogger.h:315`, `324`) and in its
  destructor (`include/llogger.h:242`). A later call on the same facade
  therefore changes what an earlier, still open statement does.
  `IncludeLogger.LaterCallSilencesEarlier` states this.

A whole statement is one chained `<<` expression: a call operator, its
insertions, and then the temporary statement's destructor. The model writes
it as `IncludeLogger.Log`, built on `IncludeLogger.Run`, and as
`SrcLogger.Log`, built on `SrcLogger.Run`. These four functions are the
statement semantics. They carry no contract of their own. The lemmas in
the table characterise them: `LogSteps`, `RunPayloads`, `RunAligned`,
`DefaultLine`, `DefaultStatement`, `DisabledStatementSilent` and others.

## Model

| member | source | states |
|---|---|---|
| Levels.SilentAdmitsNoRealSeverity | include/llogger.h:151 | with the threshold at `silent`, no severity from `fatal` to `info` is admitted |
| Levels.WarningThresholdAdmits | include/llogger.h:265-285 | a `warning` threshold admits exactly `fatal`, `error` and `warning`: lower-or-equal ordinals pass |
| Levels.SilentCallIsAdmitted | include/llogger.h:270-274 | a call made at `silent` passes every threshold, since `-1 <= level_` always holds |
| Template.InfoCode | include/llogger.h:66 | each variant stores its info tokens as codes strictly between the literal code 0 and the closure code 3 (include: level 1, time 2; src: time 1, level 2) |
| Template.New | include/llogger.h:104-106 | a constructed template has exactly one empty segment and empty literal and closure lists, and it satisfies the template invariant |
| Template.InsertLiteral | include/llogger.h:113-123 | a literal appends code 0 to the last segment and its text to the literal list; earlier segments and the closure list are unchanged |
| Template.InsertInfo | include/llogger.h:108-111 | an info token appends its variant's code to the last segment and changes no list |
| Template.InsertClosure | include/llogger.h:130-134 | a closure appends code 3 to the last segment and the closure, uninvoked, to the closure list |
| Template.NewSegment | include/llogger.h:125-128 | the data marker appends a new empty segment, keeps the earlier segments, and changes neither the code totals nor the lists |
| Template.InsertionsPreserveValid | include/llogger.h:108-134 | every insertion keeps the invariant: total code-0 count equals the literal count, total code-3 count equals the closure count, and every code has a routine |
| Template.Default | include/llogger.h:206-213 | the default template is `[[0, time, 0, level, 0], []]` (include `[[0,2,0,1,0],[]]`, src `[[0,1,0,2,0],[]]`) with literals `"["`, `"] "`, `": "` and no closures |
| Template.DefaultValid | include/llogger.h:206-213 | the default template satisfies the template invariant |
| Template.TotalPrefixBound | include/llogger.h:108-134 | the segments before any position hold no more directives of a code than the whole template |
| Replay.Table | include/llogger.h:293-299 | in each variant's render table, code 0 renders a literal, 3 a closure, and the variant's level and time codes the label and the timestamp |
| Replay.RenderOne | include/llogger.h:247-263 | one directive is defined exactly when its list entry exists, its code has a routine, and a level directive meets a real severity; only a closure directive invokes anything, and it invokes the next closure |
| Replay.RenderCodesSpec | include/llogger.h:301-305 | rendering a segment succeeds exactly when every directive is renderable in turn; the literal and closure cursors advance by the number of literal and closure directives, and the invoked closures are the next ones of the list, in list order |
| Replay.RenderedText | include/llogger.h:247-263 | the text of a rendered segment is the concatenation, in order, of each directive's piece: the Nth literal (closure) directive shows the Nth remaining literal (closure result) |
| Replay.RenderLoop | include/llogger.h:301-305 | the loop over a segment's codes, dispatching each through the table and stopping at the first fault, computes the same outcome as the recursive definition |
| Replay.PrefixFaultPersists | include/llogger.h:301-305 | once a directive faults, the whole segment's replay is undefined with the same fault |
| Replay.NextSegment | include/llogger.h:92-94 | `fmtOpt` yields the segment under the segment cursor and moves the cursor one on; past the last segment it is undefined. The compiled variant's `fmtOpt` (`src/llogger.h:77-79`) is the same step, and `SrcLogger.PutFmtStr` reaches it through `ReplayNext` |
| Replay.StartAligned | include/llogger.h:96-102 | `getIters` puts all three cursors at the beginnings of their lists, which is aligned with the first segment |
| Replay.ReplayNext | include/llogger.h:293-306 | disabled, a replay renders nothing, invokes nothing and moves no cursor; enabled, it is defined iff a segment remains and it renders. It then shows the segment's pieces in order (`SegmentText`: the Nth literal directive shows the next Nth literal, the Nth closure directive the next Nth closure's result). The literal and closure cursors advance by the directives' counts, the segment cursor moves one on, and the trace is the next closures of the list, in order |
| Replay.AlignedReplay | include/llogger.h:96-134 | on a valid template, replay from aligned cursors never overruns a side list: it is defined whenever a segment remains and any level directive meets a real severity, and it leaves the cursors aligned at the next segment |
| Replay.DefaultPrefixReplay | include/llogger.h:206-213 | replaying the default template's first segment at a real severity renders `"[" time "] " label ": "`, consumes all three literals and invokes nothing; at `silent` it is undefined |
| Calls.Puts | include/llogger.h:313-327 | a payload chain inserts each payload once, in the order given |
| IncludeLogger.Construct | include/llogger.h:215-219 | a constructed facade keeps the threshold and starts at current severity `info` |
| IncludeLogger.CopyOf | include/llogger.h:221-225 | a copied facade keeps the threshold and resets the current severity to `info` |
| IncludeLogger.Open | include/llogger.h:228-234 | opening a statement captures the severity and cursors at the start of all three lists, then replays the first segment; enabled, the buffer holds exactly the first segment's text; disabled, the buffer stays empty and no cursor moves |
| IncludeLogger.Call | include/llogger.h:265-268 | the bare call is enabled iff the current severity passes the threshold, keeps the current severity and opens a statement at it |
| IncludeLogger.CallAt | include/llogger.h:270-274 | the severity call makes its severity current, is enabled iff it passes the threshold, and opens a statement at it |
| IncludeLogger.CallIf | include/llogger.h:276-279 | the predicate call is enabled iff the current severity passes and the predicate holds |
| IncludeLogger.CallAtIf | include/llogger.h:281-285 | the severity-and-predicate call makes its severity current and is enabled iff it passes and the predicate holds |
| IncludeLogger.DispatchDecides | include/llogger.h:265-285 | every call form's flag is admission of the severity it captures, ANDed with its predicate; the severity forms overwrite the current severity and the others reuse it |
| IncludeLogger.CallFormsAgree | include/llogger.h:265-285 | the predicate forms with a true predicate are the plain forms, and a severity call at the current severity is the bare call |
| IncludeLogger.SeveritySticks | include/llogger.h:270-274 | the severity set by one call is captured by a following bare call |
| IncludeLogger.FreshFacadeAtInfo | include/llogger.h:215-225 | a bare call on a fresh or copied facade runs at `info` |
| IncludeLogger.ThresholdAdmission | include/llogger.h:270-274 | threshold `warning` enables exactly the calls at `fatal`, `error`, `warning`; threshold `silent` enables no real severity |
| IncludeLogger.Insert | include/llogger.h:313-327 | enabled, a payload appends its value or its closure's result and invokes only that closure; disabled, nothing changes and nothing is invoked |
| IncludeLogger.Continue | include/llogger.h:308-311 | the `fmtStr` token replays the next segment with the captured severity; enabled, it is defined only if a segment remains and renders, the buffer becomes the old buffer followed by that segment's text, and the closures invoked are the next ones of the list, in order |
| IncludeLogger.OpenAligned | include/llogger.h:228-234 | on a valid template, an opened statement's cursors are aligned: at the second segment when enabled, at the first (the begin cursors) when disabled, since a disabled open replays nothing; enabled, opening is defined whenever a level directive in the first segment meets a real severity |
| IncludeLogger.ContinueAligned | include/llogger.h:308-311 | on a valid template, `fmtStr` keeps an aligned statement aligned; enabled, it is defined whenever a segment remains and any level directive in it meets the captured severity |
| IncludeLogger.RunAligned | include/llogger.h:308-327 | on a valid template, every chain of payloads and `fmtStr` tokens keeps an aligned statement aligned |
| IncludeLogger.Flush | include/llogger.h:241-245 | at destruction, one line (the buffer) is written iff the flag is set, after the earlier lines; otherwise nothing is written |
| IncludeLogger.Copy | include/llogger.h:236-239 | a copied statement keeps the captured severity and cursors, starts with an empty buffer and replays nothing |
| IncludeLogger.RunDisabled | include/llogger.h:301-327 | any chain of payloads and `fmtStr` tokens on a disabled statement changes nothing and invokes nothing |
| IncludeLogger.DisabledLeavesNoTrace | include/llogger.h:241-327 | a disabled call, whatever is chained onto it, writes no line and invokes no closure |
| IncludeLogger.RunPayloads | include/llogger.h:313-327 | enabled payload insertions append their texts in insertion order and invoke their closures in that order |
| IncludeLogger.DefaultLine | include/llogger.h:206-327 | with the default template, an enabled statement at a real severity writes exactly one line, `"[" time "] " label ": "` and then the payloads, and invokes exactly the payloads' closures |
| IncludeLogger.OpenDefault | include/llogger.h:228-262 | an enabled statement on the default template opens with `"[" time "] " label ": "` in its buffer, standing after the data marker |
| IncludeLogger.SilentCallUndefined | include/llogger.h:257-259 | a call at `silent` is enabled, and the level directive then indexes the label table at -1: undefined |
| IncludeLogger.ContinueDefault | include/llogger.h:308-311 | on the default template the first `fmtStr` renders nothing and moves the segment cursor; a second runs past the segment list |
| IncludeLogger.CopyContinues | include/llogger.h:236-239 | a copy continues where the original stands: the continuation renders into it what it appends to the original, and invokes the same closures |
| IncludeLogger.LaterCallSilencesEarlier | include/llogger.h:188 | the flag is shared by the facade's statements: a later disabled call silences an earlier open statement, which keeps its captured severity |
| IncludeLogger.DiskScenario | include/llogger.h:206-327 | threshold `notice`, call at `warning`, payloads `"disk at "` and a closure returning `"92%"`: exactly the line `"[" t "] " label ": disk at 92%"` is written and the closure runs once |
| SrcLogger.NewFmt | src/llogger.cxx:63-68 | a constructed template has one empty segment, empty lists, and its cursors at the beginnings |
| SrcLogger.Build | src/llogger.cxx:70-96 | each insertion grows the template exactly as the header-only insertions do, with this variant's info codes, and leaves the cursors alone |
| SrcLogger.BuildPreservesValid | src/llogger.cxx:70-96 | every insertion keeps the template invariant |
| SrcLogger.DefaultFmt | src/llogger.cxx:33-39 | the default template built by the insertion chain is `[[0,1,0,2,0],[]]` with literals `"["`, `"] "`, `": "`, no closures, cursors at the beginnings |
| SrcLogger.ResetIters | src/llogger.h:81-85 | `resetIters` puts all three cursors at the beginnings and leaves the template's contents alone |
| SrcLogger.Construct | src/llogger.cxx:41-46 | a constructed logger starts at `info` and becomes the thread-current logger; nothing else changes |
| SrcLogger.Activate | src/llogger.cxx:48-50 | `activate` makes the receiver the thread-current logger and changes nothing else |
| SrcLogger.PutFmtStr | src/llogger.h:194-200 | with no current logger it is undefined; disabled, nothing is written and no cursor moves; enabled, it is defined iff a segment remains and renders. The current stream then gains exactly that segment's text, the literal and closure cursors advance by the segment's directive counts, the segment cursor moves one on, and the closures invoked are the next ones of the list. Nothing else changes |
| SrcLogger.EmptySegment | src/llogger.h:194-200 | replaying an empty segment writes nothing, invokes nothing and only moves the segment cursor |
| SrcLogger.CallAligned | src/llogger.h:164-200 | on a valid current template, a call leaves the shared cursors aligned, wherever earlier calls left them: at the second segment when enabled, at the begin cursors when disabled, since a disabled call only resets them; enabled, it is defined whenever a level directive in the first segment meets a real severity |
| SrcLogger.PutFmtStrAligned | src/llogger.h:194-200 | on a valid current template, `fmtStr` keeps aligned cursors aligned; enabled, it is defined whenever a segment remains and any level directive in it meets the current severity |
| SrcLogger.RunAligned | src/llogger.h:194-223 | on a valid current template, every chain of insertions keeps the current cursors aligned |
| SrcLogger.Decided | src/llogger.h:164-192 | a call resets the current logger's template cursors, sets the severity for the severity forms, and sets the flag iff the severity passes the threshold and the predicate holds; no other logger or template changes |
| SrcLogger.ReceiverIgnored | src/llogger.h:164-192 | a call's outcome does not depend on the logger it is made through |
| SrcLogger.Call | src/llogger.h:164-192 | with no current logger a call is undefined. Otherwise it sets the current logger's severity and enabled flag as the form says and resets the shared cursors. Disabled, it writes and invokes nothing. Enabled, it is defined iff the template has a segment and that segment renders at the logger's severity; it then writes the first segment's text to the current stream and leaves the cursors past that segment |
| SrcLogger.CallForgetsCursors | src/llogger.h:164-192 | a call's outcome does not depend on where earlier calls left the shared template's cursors |
| SrcLogger.ConstructedIsCurrent | src/llogger.cxx:41-46 | after constructing a logger, a bare call made through any receiver runs on the new logger at `info`, enabled iff the threshold admits `info`, and leaves every earlier logger unchanged; a disabled call is always defined |
| SrcLogger.DisabledCallSilent | src/llogger.h:164-200 | a disabled call writes nothing and invokes nothing; it only resets the cursors and records severity and flag |
| SrcLogger.DefaultCall | src/llogger.cxx:52-54 | an enabled call on the default template at a real severity writes `"[" time "] " label ": "` to the current stream, stands after the data marker, and invokes nothing |
| SrcLogger.Put | src/llogger.h:202-223 | enabled, a payload's value or closure result is written to the current logger's stream and only that closure runs; disabled, nothing is written or invoked |
| SrcLogger.Close | src/llogger.cxx:56-61 | ending a statement writes a newline to the current logger's stream iff its flag is set, and nothing else |
| SrcLogger.RunDisabled | src/llogger.h:194-223 | any chain of insertions while the current logger is disabled changes nothing and invokes nothing |
| SrcLogger.DisabledStatementSilent | src/llogger.h:164-223 | a disabled statement, whatever is chained onto it, leaves every stream as it was and invokes no closure |
| SrcLogger.RunPayloads | src/llogger.h:202-223 | enabled payload insertions write their texts to the current stream in insertion order and invoke their closures in that order |
| SrcLogger.DefaultStatement | src/llogger.cxx:52-61 | on the default template, an enabled statement at a real severity writes exactly `"[" time "] " label ": "`, the payloads and a newline to the current stream, nothing elsewhere, and invokes exactly the payloads' closures |
| SrcLogger.StatementLine | src/llogger.cxx:52-61 | an enabled statement whose call writes a prefix and invokes nothing writes the prefix, the payloads in insertion order and a newline to the current stream, and invokes exactly the payloads' closures |
| SrcLogger.ContinueDefault | src/llogger.h:212-215 | on the default template the first `fmtStr` writes nothing and moves the segment cursor; a second runs past the segment list |

## Left out

- `include/syslog.hpp` and `include/osSync.hpp` are output sinks and are not
  part of this model. Output is a list of lines (header-only variant) or
  strings per stream (compiled variant).
- Timestamp text (`std::chrono`, `localtime`, `put_time`) is an opaque string
  per segment replay. The clock is read once per replayed segment, not once
  per time directive.
- `tElapsed` is clock arithmetic, outside the core.
- Streaming an arbitrary `T` through `operator<<` is not modelled. A payload
  is either already-formatted text or a closure, which replaces the
  compile-time callable/non-callable dispatch.
- `thread_local` storage and concurrency: the thread-current logger is one
  index in the `World`.
- The ANSI escape contents of the level labels: the labels are an opaque
  five-entry table.
- `std::function` side effects beyond the invocation trace: a closure's
  result depends on its identity only.
- `IncludeLogger.Construct`, `IncludeLogger.CopyOf` and `SrcLogger.Construct`
  set the flag to `false`. The C++ leaves `enable_`/`enable` uninitialised,
  and every call sets it before anything reads it.
- Iterator invalidation: in the compiled variant, inserting into a template
  invalidates the cursors its constructor set. Here cursors are indices, and
  every call resets them.
- The line terminator of the header-only variant: `std::endl` ends each
  written line, and here each line is one list element.
- Exceptions: closures are assumed to return normally. In the C++, a payload
  closure that throws (`include/llogger.h:316`) unwinds the `<<` expression.
  The statement's destructor still runs, and when the facade is enabled it
  writes the partial buffer (`include/llogger.h:241-245`). A template
  closure that throws during the constructor's replay
  (`include/llogger.h:233`, `262`) leaves no statement to destroy, so
  nothing is written. The compiled variant has already written the partial
  text to the stream. `results` is a total function, so none of this is
  modelled.
