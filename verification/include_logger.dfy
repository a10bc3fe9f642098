/** The logger of the header-only variant: a facade (`llogger`) that decides
    per call whether it is enabled, and the scoped statement
    (`llogger::logger`) it opens, which owns fresh cursors into the shared
    template, accumulates a line and writes it out when it ends. The facade's
    enabled flag is one shared field: a statement reads it at every insertion
    and when it ends, so every statement operation takes its current value. */
module IncludeLogger {
  import opened Levels
  import opened Template
  import opened Replay
  import opened Calls

  /** The facade: threshold `level_`, the sticky current severity `curLev`
      and the flag `enable_` the last call decided. */
  datatype Facade = Facade(threshold: Level, curLev: Level, enable: bool)

  /** A live statement: the severity captured when it was opened, its
      cursors into the template and its buffer. */
  datatype Statement = Statement(sev: Level, cur: Cursors, buf: string)

  /** A statement after an operation, with the closures the operation invoked. */
  datatype Emit = Emit(stmt: Statement, trace: seq<ClosureId>)

  /** What a call leaves behind: the facade, and the statement it opened. */
  datatype Opened = Opened(facade: Facade, emit: Outcome<Emit>)

  /** A constructed facade: its current severity starts at `info`. The flag
      is left uninitialised by the constructor; every call sets it before a
      statement can read it, so it is modelled as `false`. */
  function Construct(threshold: Level): (f: Facade)
    ensures f.threshold == threshold && f.curLev == Info && !f.enable
  {
    Facade(threshold, Info, false)
  }

  /** A copied facade keeps the threshold and resets the current severity to
      `info`. */
  function CopyOf(other: Facade): (f: Facade)
    ensures f.threshold == other.threshold && f.curLev == Info && !f.enable
  {
    Facade(other.threshold, Info, false)
  }

  /** Constructing a statement: cursors at the beginnings of all three lists,
      the given severity captured, and the first segment replayed into the
      empty buffer when enabled. */
  function Open(t: Template, sev: Level, enabled: bool, stamp: string, results: Results): (r: Outcome<Emit>)
    ensures !enabled ==> r == Ok(Emit(Statement(sev, Start, ""), []))
    ensures enabled ==> (r.Ok? <==> |t.segs| >= 1 && Renderable(Include, t, t.segs[0], Start, sev))
    ensures r.Ok? ==> r.value.stmt.sev == sev
    ensures enabled && r.Ok? ==> r.value.stmt.cur == Advance(Start, t.segs[0]).(seg := 1)
    ensures enabled && r.Ok? ==> r.value.trace == Following(t.cbs, 0, Count(t.segs[0], ClosureCode))
    ensures enabled && r.Ok? ==> r.value.stmt.buf == SegmentText(Include, t, Start, sev, stamp, results)
  {
    match ReplayNext(Include, t, enabled, Start, sev, stamp, results)
    case Undefined(f) => Undefined(f)
    case Ok(s) => Ok(Emit(Statement(sev, s.cur, s.text), s.trace))
  }

  /** The no-argument call: admitted iff the current severity passes the
      threshold; the current severity is kept and captured. */
  function Call(f: Facade, t: Template, stamp: string, results: Results): (o: Opened)
    ensures o.facade.threshold == f.threshold && o.facade.curLev == f.curLev
    ensures o.facade.enable <==> Admits(f.threshold, f.curLev)
    ensures o.emit == Open(t, f.curLev, o.facade.enable, stamp, results)
  {
    var g := f.(enable := f.curLev <= f.threshold);
    Opened(g, Open(t, g.curLev, g.enable, stamp, results))
  }

  /** The call with a severity: it becomes the current severity first. */
  function CallAt(f: Facade, t: Template, lev: Level, stamp: string, results: Results): (o: Opened)
    ensures o.facade.threshold == f.threshold && o.facade.curLev == lev
    ensures o.facade.enable <==> Admits(f.threshold, lev)
    ensures o.emit == Open(t, lev, o.facade.enable, stamp, results)
  {
    var g := f.(curLev := lev);
    var g := g.(enable := g.curLev <= g.threshold);
    Opened(g, Open(t, g.curLev, g.enable, stamp, results))
  }

  /** The call with a predicate: admitted iff the current severity passes
      and the predicate holds. */
  function CallIf(f: Facade, t: Template, pred: bool, stamp: string, results: Results): (o: Opened)
    ensures o.facade.threshold == f.threshold && o.facade.curLev == f.curLev
    ensures o.facade.enable <==> Admits(f.threshold, f.curLev) && pred
    ensures o.emit == Open(t, f.curLev, o.facade.enable, stamp, results)
  {
    var g := f.(enable := f.curLev <= f.threshold && pred);
    Opened(g, Open(t, g.curLev, g.enable, stamp, results))
  }

  /** The call with a severity and a predicate. */
  function CallAtIf(f: Facade, t: Template, lev: Level, pred: bool, stamp: string, results: Results): (o: Opened)
    ensures o.facade.threshold == f.threshold && o.facade.curLev == lev
    ensures o.facade.enable <==> Admits(f.threshold, lev) && pred
    ensures o.emit == Open(t, lev, o.facade.enable, stamp, results)
  {
    var g := f.(curLev := lev);
    var g := g.(enable := g.curLev <= g.threshold && pred);
    Opened(g, Open(t, g.curLev, g.enable, stamp, results))
  }

  /** Inserting a payload: enabled, its text is appended (a closure is
      invoked for it); disabled, nothing changes and nothing is invoked. The
      severity and the cursors are never touched. */
  function Insert(s: Statement, enabled: bool, p: Payload, results: Results): (r: Emit)
    ensures r.stmt.sev == s.sev && r.stmt.cur == s.cur
    ensures !enabled ==> r == Emit(s, [])
    ensures enabled ==> r.stmt.buf == s.buf + Text(p, results) && r.trace == Invoked(p)
  {
    if !enabled then Emit(s, [])
    else
      match p
      case Value(text) => Emit(s.(buf := s.buf + text), [])
      case Closure(id) => Emit(s.(buf := s.buf + results(id)), [id])
  }

  /** The continuation token: when enabled, appends the next segment's text
      to the buffer and runs that segment's closures. The captured severity
      is used and kept. */
  function Continue(t: Template, s: Statement, enabled: bool, stamp: string, results: Results): (r: Outcome<Emit>)
    ensures !enabled ==> r == Ok(Emit(s, []))
    ensures enabled ==> (r.Ok? <==> s.cur.seg < |t.segs| && Renderable(Include, t, t.segs[s.cur.seg], s.cur, s.sev))
    ensures r.Ok? ==> r.value.stmt.sev == s.sev && s.buf <= r.value.stmt.buf
    ensures enabled && r.Ok? ==> r.value.stmt.cur == Advance(s.cur, t.segs[s.cur.seg]).(seg := s.cur.seg + 1)
    ensures enabled && r.Ok? ==> r.value.stmt.buf == s.buf + SegmentText(Include, t, s.cur, s.sev, stamp, results)
    ensures enabled && r.Ok? ==> r.value.trace == Following(t.cbs, s.cur.cb, Count(t.segs[s.cur.seg], ClosureCode))
  {
    match ReplayNext(Include, t, enabled, s.cur, s.sev, stamp, results)
    case Undefined(f) => Undefined(f)
    case Ok(d) =>
      assert (s.buf + d.text)[..|s.buf|] == s.buf && s.buf + "" == s.buf;
      Ok(Emit(Statement(s.sev, d.cur, s.buf + d.text), d.trace))
  }

  /** Ending a statement: enabled, the buffer is written as one line;
      disabled, nothing is written. */
  function Flush(s: Statement, enabled: bool, out: seq<string>): (lines: seq<string>)
    ensures |lines| == |out| + (if enabled then 1 else 0)
    ensures lines[..|out|] == out
    ensures enabled ==> lines[|out|] == s.buf
  {
    if enabled then out + [s.buf] else out
  }

  /** Copying a statement: the captured severity and the cursor positions are
      copied, the buffer starts empty, and nothing is replayed. */
  function Copy(s: Statement): (c: Statement)
    ensures c.sev == s.sev && c.cur == s.cur && c.buf == ""
  {
    Statement(s.sev, s.cur, "")
  }

  function Perform(t: Template, s: Statement, enabled: bool, a: Action, clock: Clock, results: Results): Outcome<Emit> {
    match a
    case Put(p) => Ok(Insert(s, enabled, p, results))
    case Next => Continue(t, s, enabled, clock(s.cur.seg), results)
  }

  /** Chained insertions, left to right, stopping at the first fault. */
  function Run(t: Template, s: Statement, enabled: bool, actions: seq<Action>, clock: Clock, results: Results): Outcome<Emit>
    decreases |actions|
  {
    if actions == [] then Ok(Emit(s, []))
    else
      match Perform(t, s, enabled, actions[0], clock, results)
      case Undefined(f) => Undefined(f)
      case Ok(e) =>
        match Run(t, e.stmt, enabled, actions[1..], clock, results)
        case Undefined(f) => Undefined(f)
        case Ok(e2) => Ok(Emit(e2.stmt, e.trace + e2.trace))
  }

  function Dispatch(f: Facade, t: Template, form: CallForm, stamp: string, results: Results): Opened {
    match form
    case Bare => Call(f, t, stamp, results)
    case At(lev) => CallAt(f, t, lev, stamp, results)
    case If(p) => CallIf(f, t, p, stamp, results)
    case AtIf(lev, p) => CallAtIf(f, t, lev, p, stamp, results)
  }

  /** The lines written and the closures invoked by one whole statement. */
  datatype Delivered = Delivered(lines: seq<string>, trace: seq<ClosureId>)

  /** One whole statement `log(form) << a1 << ... << an;`: the call opens it,
      the insertions run, and the statement ends. */
  function Log(f: Facade, t: Template, form: CallForm, actions: seq<Action>, clock: Clock, results: Results, out: seq<string>): (Facade, Outcome<Delivered>) {
    var o := Dispatch(f, t, form, clock(0), results);
    var on := o.facade.enable;
    match o.emit
    case Undefined(x) => (o.facade, Undefined(x))
    case Ok(e) =>
      match Run(t, e.stmt, on, actions, clock, results)
      case Undefined(x) => (o.facade, Undefined(x))
      case Ok(e2) => (o.facade, Ok(Delivered(Flush(e2.stmt, on, out), e.trace + e2.trace)))
  }

  /** Every call form decides the flag from the severity it captures and,
      for the predicate forms, the predicate; the severity forms make their
      severity the current one and the others keep it. */
  lemma DispatchDecides(f: Facade, t: Template, form: CallForm, stamp: string, results: Results)
    ensures Dispatch(f, t, form, stamp, results).facade.curLev == SeverityOf(f.curLev, form)
    ensures Dispatch(f, t, form, stamp, results).facade.enable <==>
              Admits(f.threshold, SeverityOf(f.curLev, form)) && Gate(form)
    ensures Dispatch(f, t, form, stamp, results).emit
            == Open(t, SeverityOf(f.curLev, form), Dispatch(f, t, form, stamp, results).facade.enable, stamp, results)
  {
  }

  /** The predicate forms with a true predicate behave as the plain forms,
      and a severity call at the current severity behaves as the bare call. */
  lemma CallFormsAgree(f: Facade, t: Template, lev: Level, stamp: string, results: Results)
    ensures CallIf(f, t, true, stamp, results) == Call(f, t, stamp, results)
    ensures CallAtIf(f, t, lev, true, stamp, results) == CallAt(f, t, lev, stamp, results)
    ensures CallAt(f, t, f.curLev, stamp, results) == Call(f, t, stamp, results)
  {
  }

  /** The severity set by a call sticks: a following bare call captures it. */
  lemma SeveritySticks(f: Facade, t: Template, lev: Level, stamp: string, stamp2: string, results: Results)
    ensures Call(CallAt(f, t, lev, stamp, results).facade, t, stamp2, results).emit
            == Open(t, lev, Admits(f.threshold, lev), stamp2, results)
  {
  }

  /** A fresh or copied facade's bare call runs at `info`. */
  lemma FreshFacadeAtInfo(threshold: Level, other: Facade, t: Template, stamp: string, results: Results)
    ensures Call(Construct(threshold), t, stamp, results).facade.enable <==> Admits(threshold, Info)
    ensures Call(CopyOf(other), t, stamp, results).facade.enable <==> Admits(other.threshold, Info)
    ensures Call(CopyOf(other), t, stamp, results).emit == Open(t, Info, Admits(other.threshold, Info), stamp, results)
  {
  }

  /** With the threshold at `warning`, exactly the calls at `fatal`, `error`
      and `warning` are enabled; with it at `silent`, no real severity is. */
  lemma ThresholdAdmission(f: Facade, t: Template, lev: Level, stamp: string, results: Results)
    requires IsReal(lev)
    ensures f.threshold == Warning ==>
              (CallAt(f, t, lev, stamp, results).facade.enable <==> lev == Fatal || lev == Error || lev == Warning)
    ensures f.threshold == Silent ==> !CallAt(f, t, lev, stamp, results).facade.enable
  {
    WarningThresholdAdmits(lev);
    SilentAdmitsNoRealSeverity(lev);
  }

  /** Insertions into a disabled statement change nothing and invoke nothing. */
  lemma {:induction false} RunDisabled(t: Template, s: Statement, actions: seq<Action>, clock: Clock, results: Results)
    ensures Run(t, s, false, actions, clock, results) == Ok(Emit(s, []))
    decreases |actions|
  {
    if actions != [] {
      assert Perform(t, s, false, actions[0], clock, results) == Ok(Emit(s, []));
      RunDisabled(t, s, actions[1..], clock, results);
      var none: seq<ClosureId> := [];
      assert none + none == none;
    }
  }

  /** A disabled call leaves no trace: whatever is chained onto it, no
      closure runs and no line is written. */
  lemma DisabledLeavesNoTrace(f: Facade, t: Template, form: CallForm, actions: seq<Action>, clock: Clock, results: Results, out: seq<string>)
    requires !Dispatch(f, t, form, clock(0), results).facade.enable
    ensures Log(f, t, form, actions, clock, results, out).1 == Ok(Delivered(out, []))
  {
    var s := Statement(SeverityOf(f.curLev, form), Start, "");
    DispatchDecides(f, t, form, clock(0), results);
    RunDisabled(t, s, actions, clock, results);
    LogSteps(f, t, form, actions, clock, results, out, Emit(s, []), Emit(s, []));
    var none: seq<ClosureId> := [];
    assert none + none == none;
  }

  /** A whole statement leaves the facade as its call left it. */
  lemma LogFacade(f: Facade, t: Template, form: CallForm, actions: seq<Action>, clock: Clock, results: Results, out: seq<string>)
    ensures Log(f, t, form, actions, clock, results, out).0 == Dispatch(f, t, form, clock(0), results).facade
  {
  }

  /** A whole statement whose call and insertions stay defined delivers what
      ending the statement writes, and the closures the call and the
      insertions invoked. */
  lemma LogSteps(f: Facade, t: Template, form: CallForm, actions: seq<Action>, clock: Clock, results: Results, out: seq<string>, e: Emit, e2: Emit)
    requires Dispatch(f, t, form, clock(0), results).emit == Ok(e)
    requires Run(t, e.stmt, Dispatch(f, t, form, clock(0), results).facade.enable, actions, clock, results) == Ok(e2)
    ensures Log(f, t, form, actions, clock, results, out).1
            == Ok(Delivered(Flush(e2.stmt, Dispatch(f, t, form, clock(0), results).facade.enable, out), e.trace + e2.trace))
  {
  }

  /** Payloads inserted into an enabled statement append their texts in
      insertion order and invoke their closures in that order. */
  lemma {:induction false} RunPayloads(t: Template, s: Statement, ps: seq<Payload>, clock: Clock, results: Results)
    ensures Run(t, s, true, Puts(ps), clock, results) == Ok(Emit(s.(buf := s.buf + Texts(ps, results)), Closures(ps)))
    decreases |ps|
  {
    if ps == [] {
      assert s.buf + "" == s.buf;
    } else {
      var e := Insert(s, true, ps[0], results);
      var rest := Texts(ps[1..], results);
      RunPayloads(t, e.stmt, ps[1..], clock, results);
      assert Run(t, s, true, Puts(ps), clock, results) == Ok(Emit(e.stmt.(buf := e.stmt.buf + rest), e.trace + Closures(ps[1..]))) by {
        assert Puts(ps)[0] == Put(ps[0]) && Puts(ps)[1..] == Puts(ps[1..]);
        assert Perform(t, s, true, Put(ps[0]), clock, results) == Ok(e);
      }
      assert e.stmt.(buf := e.stmt.buf + rest) == s.(buf := s.buf + Texts(ps, results)) by {
        assert s.buf + Text(ps[0], results) + rest == s.buf + Texts(ps, results);
      }
      assert e.trace + Closures(ps[1..]) == Closures(ps);
    }
  }

  /** With the default template, an enabled statement at a real severity
      writes exactly one line, `"[" time "] " label ": "` followed by the
      payloads in insertion order, and invokes exactly the payloads'
      closures, in order. */
  lemma DefaultLine(f: Facade, names: LevelNames, form: CallForm, ps: seq<Payload>, clock: Clock, results: Results, out: seq<string>)
    requires Admits(f.threshold, SeverityOf(f.curLev, form)) && Gate(form)
    requires IsReal(SeverityOf(f.curLev, form))
    ensures Log(f, Default(Include, names), form, Puts(ps), clock, results, out).1
            == Ok(Delivered(out + ["[" + clock(0) + "] " + names[SeverityOf(f.curLev, form)] + ": " + Texts(ps, results)], Closures(ps)))
  {
    var t, lev := Default(Include, names), SeverityOf(f.curLev, form);
    DispatchDecides(f, t, form, clock(0), results);
    OpenDefault(names, lev, clock(0), results);
    PayloadLine(f, t, form, Statement(lev, Cursors(3, 1, 0), "[" + clock(0) + "] " + names[lev] + ": "), ps, clock, results, out);
  }

  /** An enabled statement whose call renders `s` without invoking anything
      writes one line: `s`'s buffer followed by the payloads in insertion
      order; it invokes exactly the payloads' closures, in order. */
  lemma PayloadLine(f: Facade, t: Template, form: CallForm, s: Statement, ps: seq<Payload>, clock: Clock, results: Results, out: seq<string>)
    requires Dispatch(f, t, form, clock(0), results).facade.enable
    requires Dispatch(f, t, form, clock(0), results).emit == Ok(Emit(s, []))
    ensures Log(f, t, form, Puts(ps), clock, results, out).1 == Ok(Delivered(out + [s.buf + Texts(ps, results)], Closures(ps)))
  {
    RunPayloads(t, s, ps, clock, results);
    var e2 := Emit(s.(buf := s.buf + Texts(ps, results)), Closures(ps));
    LogSteps(f, t, form, Puts(ps), clock, results, out, Emit(s, []), e2);
    assert [] + Closures(ps) == Closures(ps);
  }

  /** An enabled statement on the default template, at a real severity,
      opens with `"[" time "] " label ": "` in its buffer, standing at the
      segment after the data marker with all three literals consumed. */
  lemma OpenDefault(names: LevelNames, lev: Level, stamp: string, results: Results)
    requires IsReal(lev)
    ensures Open(Default(Include, names), lev, true, stamp, results)
            == Ok(Emit(Statement(lev, Cursors(3, 1, 0), "[" + stamp + "] " + names[lev] + ": "), []))
  {
    DefaultPrefixReplay(Include, names, lev, stamp, results);
  }

  /** A call at the `silent` severity passes every threshold, and the level
      directive of the default template then indexes the five-entry label
      table at -1: the statement is undefined. */
  lemma SilentCallUndefined(f: Facade, names: LevelNames, stamp: string, results: Results)
    ensures CallAt(f, Default(Include, names), Silent, stamp, results).facade.enable
    ensures CallAt(f, Default(Include, names), Silent, stamp, results).emit.Undefined?
  {
    SilentCallIsAdmitted(f.threshold);
    DefaultPrefixReplay(Include, names, Silent, stamp, results);
  }

  /** The continuation token on the default template: the segment after the
      data marker is empty, so the first token renders nothing; a second one
      runs past the segment list. */
  lemma ContinueDefault(names: LevelNames, s: Statement, stamp: string, results: Results)
    requires s.cur.seg == 1
    ensures Continue(Default(Include, names), s, true, stamp, results) == Ok(Emit(s.(cur := s.cur.(seg := 2)), []))
    ensures Continue(Default(Include, names), s.(cur := s.cur.(seg := 2)), true, stamp, results) == Undefined(SegmentOverrun)
  {
    var t := Default(Include, names);
    assert RenderCodes(Include, t, [], s.cur.(seg := 2), s.sev, stamp, results) == Ok(Step("", s.cur.(seg := 2), []));
    assert s.buf + "" == s.buf;
  }

  /** A copy continues where the original stands: the continuation renders
      into the copy exactly what it appends to the original, and invokes the
      same closures. */
  lemma CopyContinues(t: Template, s: Statement, enabled: bool, stamp: string, results: Results)
    ensures Continue(t, Copy(s), enabled, stamp, results).Ok? == Continue(t, s, enabled, stamp, results).Ok?
    ensures Continue(t, s, enabled, stamp, results).Ok? ==>
              var r, c := Continue(t, s, enabled, stamp, results).value, Continue(t, Copy(s), enabled, stamp, results).value;
              r.stmt == c.stmt.(buf := s.buf + c.stmt.buf) && r.trace == c.trace
  {
    assert "" + "" == "";
    var d := ReplayNext(Include, t, enabled, s.cur, s.sev, stamp, results);
    if d.Ok? {
      assert "" + d.value.text == d.value.text;
    }
  }

  /** The flag is shared by all statements of a facade: a later call that is
      disabled silences an earlier, still open statement, although that
      statement keeps the severity it captured. */
  lemma LaterCallSilencesEarlier(f: Facade, t: Template, lev: Level, lev2: Level, stamp: string, stamp2: string, results: Results, out: seq<string>)
    requires Admits(f.threshold, lev) && !Admits(f.threshold, lev2)
    requires CallAt(f, t, lev, stamp, results).emit.Ok?
    ensures
      var first := CallAt(f, t, lev, stamp, results);
      var second := CallAt(first.facade, t, lev2, stamp2, results);
      && first.facade.enable
      && first.emit.value.stmt.sev == lev
      && Flush(first.emit.value.stmt, second.facade.enable, out) == out
  {
  }

  /** The concrete scenario: threshold `notice`, default template, a call at
      `warning`, then the text `"disk at "` and a closure returning `"92%"`:
      one line `"[" time "] " label(warning) ": disk at 92%"` is written, and
      the closure runs once. */
  lemma DiskScenario(names: LevelNames, id: ClosureId, clock: Clock, results: Results)
    requires results(id) == "92%"
    ensures Log(Construct(Notice), Default(Include, names), At(Warning), Puts([Value("disk at "), Closure(id)]), clock, results, [])
            == (Facade(Notice, Warning, true), Ok(Delivered(["[" + clock(0) + "] " + names[Warning] + ": disk at 92%"], [id])))
  {
    ScenarioDelivered(names, id, clock, results);
    LogFacade(Construct(Notice), Default(Include, names), At(Warning), Puts([Value("disk at "), Closure(id)]), clock, results, []);
  }

  /** The scenario's outcome: the one line and the one closure invocation. */
  lemma ScenarioDelivered(names: LevelNames, id: ClosureId, clock: Clock, results: Results)
    requires results(id) == "92%"
    ensures Log(Construct(Notice), Default(Include, names), At(Warning), Puts([Value("disk at "), Closure(id)]), clock, results, []).1
            == Ok(Delivered(["[" + clock(0) + "] " + names[Warning] + ": disk at 92%"], [id]))
  {
    var ps := [Value("disk at "), Closure(id)];
    var f, t := Construct(Notice), Default(Include, names);
    var prefix := "[" + clock(0) + "] " + names[Warning];
    assert Log(f, t, At(Warning), Puts(ps), clock, results, []).1 == Ok(Delivered([] + [prefix + ": disk at 92%"], [id])) by {
      assert Dispatch(f, t, At(Warning), clock(0), results).facade.enable;
      DefaultLine(f, names, At(Warning), ps, clock, results, []);
      ScenarioPayloads(id, results, prefix);
    }
    assert [] + [prefix + ": disk at 92%"] == [prefix + ": disk at 92%"];
  }

  /** The scenario's payloads render as `"disk at 92%"`, also after any
      prefix and separator, and invoke the closure. */
  lemma ScenarioPayloads(id: ClosureId, results: Results, prefix: string)
    requires results(id) == "92%"
    ensures Texts([Value("disk at "), Closure(id)], results) == "disk at 92%"
    ensures prefix + ": " + Texts([Value("disk at "), Closure(id)], results) == prefix + ": disk at 92%"
    ensures Closures([Value("disk at "), Closure(id)]) == [id]
  {
    var ps := [Value("disk at "), Closure(id)];
    assert ps[1..] == [Closure(id)] && ps[1..][1..] == [];
    assert Texts(ps[1..], results) == "92%" + "";
    assert "disk at " + ("92%" + "") == "disk at 92%";
    assert Closures(ps[1..]) == [id] + [];
    assert Closures(ps) == [] + [id];
    assert ": " + "disk at 92%" == ": disk at 92%";
  }

  /** On a valid template, opening a statement leaves its cursors aligned:
      at the second segment when enabled, at the first when disabled, since
      a disabled open replays nothing. Enabled, opening is defined whenever a
      level directive in the first segment meets a real severity, so the
      literal and closure lists are never overrun. */
  lemma OpenAligned(t: Template, sev: Level, enabled: bool, stamp: string, results: Results)
    requires Valid(t)
    ensures Open(t, sev, enabled, stamp, results).Ok? ==> Aligned(t, Open(t, sev, enabled, stamp, results).value.stmt.cur)
    ensures enabled && (InfoCode(Include, LevelInfo) in t.segs[0] ==> IsReal(sev)) ==> Open(t, sev, enabled, stamp, results).Ok?
    ensures enabled && Open(t, sev, enabled, stamp, results).Ok? ==> Open(t, sev, enabled, stamp, results).value.stmt.cur.seg == 1
    ensures !enabled ==> Open(t, sev, enabled, stamp, results).Ok? && Open(t, sev, enabled, stamp, results).value.stmt.cur == Start
  {
    StartAligned(t);
    if enabled && (InfoCode(Include, LevelInfo) in t.segs[0] ==> IsReal(sev)) {
      AlignedReplay(Include, t, Start, sev, stamp, results);
    } else if enabled && Open(t, sev, enabled, stamp, results).Ok? {
      AlignedReplay(Include, t, Start, sev, stamp, results);
    }
  }

  /** On a valid template, the continuation token keeps a statement's
      cursors aligned; enabled, it is defined whenever a segment remains and
      a level directive in it meets the captured severity. */
  lemma ContinueAligned(t: Template, s: Statement, enabled: bool, stamp: string, results: Results)
    requires Valid(t) && Aligned(t, s.cur)
    ensures Continue(t, s, enabled, stamp, results).Ok? ==> Aligned(t, Continue(t, s, enabled, stamp, results).value.stmt.cur)
    ensures enabled && s.cur.seg < |t.segs| && (InfoCode(Include, LevelInfo) in t.segs[s.cur.seg] ==> IsReal(s.sev))
            ==> Continue(t, s, enabled, stamp, results).Ok?
  {
    if enabled && s.cur.seg < |t.segs| && (InfoCode(Include, LevelInfo) in t.segs[s.cur.seg] ==> IsReal(s.sev)) {
      AlignedReplay(Include, t, s.cur, s.sev, stamp, results);
    } else if enabled && Continue(t, s, enabled, stamp, results).Ok? {
      AlignedReplay(Include, t, s.cur, s.sev, stamp, results);
    }
  }

  /** On a valid template, any chain of insertions keeps a statement's
      cursors aligned, so no later replay reads past a side list. */
  lemma {:induction false} RunAligned(t: Template, s: Statement, enabled: bool, actions: seq<Action>, clock: Clock, results: Results)
    requires Valid(t) && Aligned(t, s.cur)
    ensures Run(t, s, enabled, actions, clock, results).Ok? ==> Aligned(t, Run(t, s, enabled, actions, clock, results).value.stmt.cur)
    decreases |actions|
  {
    if actions != [] {
      var p := Perform(t, s, enabled, actions[0], clock, results);
      if p.Ok? {
        if actions[0].Next? {
          ContinueAligned(t, s, enabled, clock(s.cur.seg), results);
        }
        RunAligned(t, p.value.stmt, enabled, actions[1..], clock, results);
      }
    }
  }
}
