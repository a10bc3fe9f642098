/** The logger of the compiled variant. Here the replay cursors live in the
    template itself and are reset by every call; the call operators act on
    the thread-current logger, whichever logger they are invoked through;
    and every render writes straight into that logger's stream, with no
    per-statement buffer. */
module SrcLogger {
  import opened Levels
  import opened Template
  import opened Replay
  import opened Calls

  /** A template with its replay cursors (`fmtStrIter`, `fmtOrdIter`,
      `fmtLmbIter`), which every logger using the template shares. */
  datatype Fmt = Fmt(tpl: Template, iters: Cursors)

  /** What an insertion operator of the template takes: literal text, an
      info token, a closure, or the data marker `logStr`. */
  datatype Item = Literal(text: string) | InfoItem(info: InfoToken) | Lambda(id: ClosureId) | LogStr

  /** A constructed template: one empty segment, empty lists, and the
      cursors at the beginnings of the three lists. */
  function NewFmt(names: LevelNames): (fm: Fmt)
    ensures |fm.tpl.segs| == 1 && fm.tpl.segs[0] == [] && fm.tpl.lits == [] && fm.tpl.cbs == []
    ensures fm.tpl.names == names && fm.iters == Start
  {
    Fmt(New(names), Start)
  }

  /** An insertion operator: the template grows exactly as in the header-only
      variant, with this variant's info codes, and the cursors stay put. */
  function Build(fm: Fmt, item: Item): (r: Fmt)
    requires |fm.tpl.segs| >= 1
    ensures r.iters == fm.iters && |r.tpl.segs| >= 1
    ensures item.Literal? ==> r.tpl == InsertLiteral(fm.tpl, item.text)
    ensures item.InfoItem? ==> r.tpl == InsertInfo(fm.tpl, Src, item.info)
    ensures item.Lambda? ==> r.tpl == InsertClosure(fm.tpl, item.id)
    ensures item.LogStr? ==> r.tpl == NewSegment(fm.tpl)
  {
    match item
    case Literal(text) => fm.(tpl := InsertLiteral(fm.tpl, text))
    case InfoItem(i) => fm.(tpl := InsertInfo(fm.tpl, Src, i))
    case Lambda(id) => fm.(tpl := InsertClosure(fm.tpl, id))
    case LogStr => fm.(tpl := NewSegment(fm.tpl))
  }

  /** Every insertion operator keeps the template invariant. */
  lemma BuildPreservesValid(fm: Fmt, item: Item)
    requires Valid(fm.tpl)
    ensures Valid(Build(fm, item).tpl)
  {
    var text := if item.Literal? then item.text else "";
    var i := if item.InfoItem? then item.info else LevelInfo;
    var id := if item.Lambda? then item.id else 0;
    InsertionsPreserveValid(fm.tpl, text, Src, i, id);
  }

  /** The shared default template, built by
      `"[" << time << "] " << level << ": " << logStr`, with the cursors at
      the beginnings. */
  function DefaultFmt(names: LevelNames): (fm: Fmt)
    ensures fm == Fmt(Default(Src, names), Start)
  {
    var f5 := Build(Build(Build(Build(Build(NewFmt(names), Literal("[")), InfoItem(TimeInfo)), Literal("] ")), InfoItem(LevelInfo)), Literal(": "));
    DefaultFmtPrefix(names);
    Build(f5, LogStr)
  }

  /** The five insertions before the data marker build the default prefix. */
  lemma DefaultFmtPrefix(names: LevelNames)
    ensures Build(Build(Build(Build(Build(NewFmt(names), Literal("[")), InfoItem(TimeInfo)), Literal("] ")), InfoItem(LevelInfo)), Literal(": "))
            == Fmt(DefaultPrefix(Src, names), Start)
  {
    var f1 := Build(NewFmt(names), Literal("["));
    assert f1 == Fmt(InsertLiteral(New(names), "["), Start);
    var f2 := Build(f1, InfoItem(TimeInfo));
    assert f2 == Fmt(InsertInfo(InsertLiteral(New(names), "["), Src, TimeInfo), Start);
    var f4 := Build(Build(f2, Literal("] ")), InfoItem(LevelInfo));
    assert f4.tpl == InsertInfo(InsertLiteral(f2.tpl, "] "), Src, LevelInfo);
  }

  /** `resetIters`: the cursors back at the beginnings of all three lists. */
  function ResetIters(fm: Fmt): (r: Fmt)
    ensures r.tpl == fm.tpl && r.iters == Start
  {
    fm.(iters := Start)
  }

  /** A logger: threshold `_level`, current severity `curLev`, the flag
      `enable`, and the template and stream it refers to, by index. */
  datatype Logger = Logger(threshold: Level, curLev: Level, enable: bool, fmt: nat, os: nat)

  /** The templates, the streams' contents, the loggers, and the
      thread-current logger (`-1` when none is set). */
  datatype World = World(fmts: seq<Fmt>, streams: seq<string>, loggers: seq<Logger>, current: int)

  /** Every logger refers to an existing template and stream, and the
      current logger, if any, exists. */
  predicate Wired(w: World) {
    && (forall i :: 0 <= i < |w.loggers| ==> w.loggers[i].fmt < |w.fmts| && w.loggers[i].os < |w.streams|)
    && -1 <= w.current < |w.loggers|
  }

  /** A world after an operation, with the closures the operation invoked. */
  datatype Effect = Effect(world: World, trace: seq<ClosureId>)

  /** `text` appended to stream `os`. */
  function Write(w: World, os: nat, text: string): (r: World)
    requires os < |w.streams|
    ensures r.fmts == w.fmts && r.loggers == w.loggers && r.current == w.current && |r.streams| == |w.streams|
    ensures r.streams[os] == w.streams[os] + text
    ensures forall k :: 0 <= k < |w.streams| && k != os ==> r.streams[k] == w.streams[k]
  {
    w.(streams := w.streams[os := w.streams[os] + text])
  }

  /** Writing two texts in turn writes their concatenation; writing nothing
      changes nothing. */
  lemma WriteTwice(w: World, os: nat, a: string, b: string)
    requires os < |w.streams|
    ensures Write(Write(w, os, a), os, b) == Write(w, os, a + b)
    ensures Write(w, os, "") == w
  {
    assert w.streams[os] + a + b == w.streams[os] + (a + b);
    assert w.streams[os] + "" == w.streams[os];
  }

  /** Only the current logger's template cursors and stream differ between
      `w` and `r`; the loggers, the current logger and the templates'
      contents are the same. */
  predicate OnlyCurrentOutput(w: World, r: World)
    requires Wired(w) && w.current >= 0
  {
    var lg := w.loggers[w.current];
    && r.loggers == w.loggers && r.current == w.current
    && |r.fmts| == |w.fmts| && |r.streams| == |w.streams|
    && r.fmts[lg.fmt].tpl == w.fmts[lg.fmt].tpl
    && (forall k :: 0 <= k < |w.fmts| && k != lg.fmt ==> r.fmts[k] == w.fmts[k])
    && (forall k :: 0 <= k < |w.streams| && k != lg.os ==> r.streams[k] == w.streams[k])
    && w.streams[lg.os] <= r.streams[lg.os]
  }

  /** Constructing a logger: its current severity starts at `info` and it
      becomes the thread-current logger. The flag is left uninitialised by
      the constructor and set by every call before it is read, so it is
      modelled as `false`. */
  function Construct(w: World, os: nat, threshold: Level, fmt: nat): (r: World)
    requires Wired(w) && os < |w.streams| && fmt < |w.fmts|
    ensures Wired(r)
    ensures r.loggers == w.loggers + [Logger(threshold, Info, false, fmt, os)]
    ensures r.current == |w.loggers| && r.fmts == w.fmts && r.streams == w.streams
  {
    w.(loggers := w.loggers + [Logger(threshold, Info, false, fmt, os)], current := |w.loggers|)
  }

  /** `activate`: the receiver becomes the thread-current logger. */
  function Activate(w: World, receiver: nat): (r: World)
    requires Wired(w) && receiver < |w.loggers|
    ensures Wired(r) && r.current == receiver
    ensures r.fmts == w.fmts && r.streams == w.streams && r.loggers == w.loggers
  {
    w.(current := receiver)
  }

  /** The static `putFmtStr` of a statement: when the current logger is
      enabled, writes the next segment's text, at its current severity, to
      its stream, runs that segment's closures, and moves the template's
      cursors past the segment; disabled, nothing happens. */
  function PutFmtStr(w: World, stamp: string, results: Results): (r: Outcome<Effect>)
    requires Wired(w)
    ensures w.current < 0 ==> r == Undefined(NoCurrentLogger)
    ensures w.current >= 0 && !w.loggers[w.current].enable ==> r == Ok(Effect(w, []))
    ensures w.current >= 0 && w.loggers[w.current].enable ==>
              var lg := w.loggers[w.current];
              var fm := w.fmts[lg.fmt];
              (r.Ok? <==> fm.iters.seg < |fm.tpl.segs| && Renderable(Src, fm.tpl, fm.tpl.segs[fm.iters.seg], fm.iters, lg.curLev))
    ensures w.current >= 0 && w.loggers[w.current].enable && r.Ok? ==>
              var lg := w.loggers[w.current];
              var fm := w.fmts[lg.fmt];
              var codes := fm.tpl.segs[fm.iters.seg];
              var moved := fm.(iters := Advance(fm.iters, codes).(seg := fm.iters.seg + 1));
              r.value == Effect(Write(w.(fmts := w.fmts[lg.fmt := moved]), lg.os, SegmentText(Src, fm.tpl, fm.iters, lg.curLev, stamp, results)),
                                Following(fm.tpl.cbs, fm.iters.cb, Count(codes, ClosureCode)))
    ensures r.Ok? ==> Wired(r.value.world) && OnlyCurrentOutput(w, r.value.world)
  {
    if w.current < 0 then Undefined(NoCurrentLogger)
    else
      var lg := w.loggers[w.current];
      var fm := w.fmts[lg.fmt];
      if !lg.enable then Ok(Effect(w, []))
      else
        match ReplayNext(Src, fm.tpl, true, fm.iters, lg.curLev, stamp, results)
        case Undefined(f) => Undefined(f)
        case Ok(s) =>
          var out := w.streams[lg.os];
          assert (out + s.text)[..|out|] == out;
          Ok(Effect(Write(w.(fmts := w.fmts[lg.fmt := fm.(iters := s.cur)]), lg.os, s.text), s.trace))
  }

  /** The four call-opening operators. Whatever logger the call is made
      through (`receiver`), it acts on the thread-current logger: resets its
      template's cursors, sets the current severity for the severity forms,
      decides the flag (`curLev <= _level`, and the predicate for the
      predicate forms) and opens a statement, which replays the first
      segment: enabled, the first segment's text goes to the current
      logger's stream, its closures run, and the cursors stand past it. */
  function Call(w: World, receiver: nat, form: CallForm, stamp: string, results: Results): (r: Outcome<Effect>)
    requires Wired(w)
    ensures w.current < 0 ==> r == Undefined(NoCurrentLogger)
    ensures w.current >= 0 && !Decided(w, form).loggers[w.current].enable ==> r == Ok(Effect(Decided(w, form), []))
    ensures w.current >= 0 && Decided(w, form).loggers[w.current].enable ==>
              var lg := Decided(w, form).loggers[w.current];
              var tpl := w.fmts[lg.fmt].tpl;
              (r.Ok? <==> |tpl.segs| >= 1 && Renderable(Src, tpl, tpl.segs[0], Start, lg.curLev))
    ensures w.current >= 0 && Decided(w, form).loggers[w.current].enable && r.Ok? ==>
              var d := Decided(w, form);
              var lg := d.loggers[w.current];
              var tpl := w.fmts[lg.fmt].tpl;
              r.value == Effect(Write(d.(fmts := d.fmts[lg.fmt := Fmt(tpl, Advance(Start, tpl.segs[0]).(seg := 1))]), lg.os,
                                      SegmentText(Src, tpl, Start, lg.curLev, stamp, results)),
                                Following(tpl.cbs, 0, Count(tpl.segs[0], ClosureCode)))
  {
    if w.current < 0 then Undefined(NoCurrentLogger)
    else PutFmtStr(Decided(w, form), stamp, results)
  }

  /** The world a call leaves behind before its statement replays anything. */
  function Decided(w: World, form: CallForm): (r: World)
    requires Wired(w) && w.current >= 0
    ensures Wired(r) && r.current == w.current && |r.loggers| == |w.loggers| && r.streams == w.streams
    ensures
      var lg, lg2 := w.loggers[w.current], r.loggers[w.current];
      && lg2 == lg.(curLev := lg2.curLev, enable := lg2.enable)
      && lg2.curLev == SeverityOf(lg.curLev, form)
      && (lg2.enable <==> Admits(lg.threshold, lg2.curLev) && Gate(form))
      && r.fmts[lg.fmt] == ResetIters(w.fmts[lg.fmt])
    ensures forall i :: 0 <= i < |w.loggers| && i != w.current ==> r.loggers[i] == w.loggers[i]
    ensures |r.fmts| == |w.fmts|
    ensures forall k :: 0 <= k < |w.fmts| && k != w.loggers[w.current].fmt ==> r.fmts[k] == w.fmts[k]
  {
    var lg := w.loggers[w.current];
    var lev := SeverityOf(lg.curLev, form);
    var lg2 := lg.(curLev := lev, enable := lev <= lg.threshold && Gate(form));
    w.(fmts := w.fmts[lg.fmt := ResetIters(w.fmts[lg.fmt])], loggers := w.loggers[w.current := lg2])
  }

  /** Inserting a payload: when the current logger is enabled, its text goes
      straight to the current logger's stream (a closure is invoked for it);
      otherwise nothing is written and nothing invoked. */
  function Put(w: World, p: Payload, results: Results): (r: Outcome<Effect>)
    requires Wired(w)
    ensures w.current < 0 ==> r == Undefined(NoCurrentLogger)
    ensures w.current >= 0 ==> r.Ok? && Wired(r.value.world) && OnlyCurrentOutput(w, r.value.world) && r.value.world.fmts == w.fmts
    ensures w.current >= 0 && !w.loggers[w.current].enable ==> r == Ok(Effect(w, []))
    ensures w.current >= 0 && w.loggers[w.current].enable ==>
              r == Ok(Effect(Write(w, w.loggers[w.current].os, Text(p, results)), Invoked(p)))
  {
    if w.current < 0 then Undefined(NoCurrentLogger)
    else
      var lg := w.loggers[w.current];
      if !lg.enable then Ok(Effect(w, []))
      else
        var out := w.streams[lg.os];
        assert (out + Text(p, results))[..|out|] == out;
        match p
        case Value(text) => Ok(Effect(Write(w, lg.os, text), []))
        case Closure(id) => Ok(Effect(Write(w, lg.os, results(id)), [id]))
  }

  /** Ending a statement: the current logger's stream gets a newline iff the
      current logger is enabled. */
  function Close(w: World): (r: Outcome<World>)
    requires Wired(w)
    ensures w.current < 0 ==> r == Undefined(NoCurrentLogger)
    ensures w.current >= 0 ==> r.Ok? && Wired(r.value) && OnlyCurrentOutput(w, r.value) && r.value.fmts == w.fmts
    ensures w.current >= 0 ==> r.value == Write(w, w.loggers[w.current].os, if w.loggers[w.current].enable then "\n" else "")
  {
    if w.current < 0 then Undefined(NoCurrentLogger)
    else
      var lg := w.loggers[w.current];
      if lg.enable then
        var out := w.streams[lg.os];
        assert (out + "\n")[..|out|] == out;
        Ok(Write(w, lg.os, "\n"))
      else
        WriteTwice(w, lg.os, "", "");
        Ok(w)
  }

  /** The segment the current logger's template will replay next. */
  function NextIndex(w: World): nat
    requires Wired(w)
  {
    if w.current < 0 then 0 else w.fmts[w.loggers[w.current].fmt].iters.seg
  }

  /** One chained insertion. */
  function Perform(w: World, a: Action, clock: Clock, results: Results): (r: Outcome<Effect>)
    requires Wired(w)
    ensures r.Ok? ==> Wired(r.value.world)
  {
    match a
    case Put(p) => Put(w, p, results)
    case Next => PutFmtStr(w, clock(NextIndex(w)), results)
  }

  /** Chained insertions, left to right, stopping at the first fault. */
  function Run(w: World, actions: seq<Action>, clock: Clock, results: Results): (r: Outcome<Effect>)
    requires Wired(w)
    ensures r.Ok? ==> Wired(r.value.world)
    decreases |actions|
  {
    if actions == [] then Ok(Effect(w, []))
    else
      match Perform(w, actions[0], clock, results)
      case Undefined(f) => Undefined(f)
      case Ok(e) =>
        match Run(e.world, actions[1..], clock, results)
        case Undefined(f) => Undefined(f)
        case Ok(e2) => Ok(Effect(e2.world, e.trace + e2.trace))
  }

  /** One whole statement `log(form) << a1 << ... << an;`, made through
      `receiver`: the call opens it, the insertions run, and it ends. */
  function Log(w: World, receiver: nat, form: CallForm, actions: seq<Action>, clock: Clock, results: Results): Outcome<Effect>
    requires Wired(w)
  {
    match Call(w, receiver, form, clock(0), results)
    case Undefined(f) => Undefined(f)
    case Ok(e) =>
      match Run(e.world, actions, clock, results)
      case Undefined(f) => Undefined(f)
      case Ok(e2) =>
        match Close(e2.world)
        case Undefined(f) => Undefined(f)
        case Ok(w3) => Ok(Effect(w3, e.trace + e2.trace))
  }

  /** A call acts on the current logger whatever logger it is made through. */
  lemma ReceiverIgnored(w: World, r1: nat, r2: nat, form: CallForm, stamp: string, results: Results)
    requires Wired(w)
    ensures Call(w, r1, form, stamp, results) == Call(w, r2, form, stamp, results)
  {
  }

  /** A call replays from the first segment, literal and closure whatever
      the cursors of the shared template were before: cursors left behind
      by earlier calls, through this or any other logger, have no effect. */
  lemma CallForgetsCursors(w: World, receiver: nat, form: CallForm, stale: Cursors, stamp: string, results: Results)
    requires Wired(w) && w.current >= 0
    ensures
      var k := w.loggers[w.current].fmt;
      var w2 := w.(fmts := w.fmts[k := w.fmts[k].(iters := stale)]);
      Call(w2, receiver, form, stamp, results) == Call(w, receiver, form, stamp, results)
  {
    var k := w.loggers[w.current].fmt;
    var w2 := w.(fmts := w.fmts[k := w.fmts[k].(iters := stale)]);
    assert Decided(w2, form) == Decided(w, form);
  }

  /** Constructing a logger makes it the one every call acts on: a bare call
      made through any logger then runs at `info` on the new logger, and
      changes no other logger. */
  lemma ConstructedIsCurrent(w: World, os: nat, threshold: Level, fmt: nat, receiver: nat, stamp: string, results: Results)
    requires Wired(w) && os < |w.streams| && fmt < |w.fmts|
    ensures
      var r := Construct(w, os, threshold, fmt);
      var c := Call(r, receiver, Bare, stamp, results);
      c.Ok? ==>
        var lg := c.value.world.loggers[|w.loggers|];
        && c.value.world.loggers[..|w.loggers|] == w.loggers
        && lg.curLev == Info && (lg.enable <==> Admits(threshold, Info)) && lg.os == os && lg.fmt == fmt
    ensures
      var r := Construct(w, os, threshold, fmt);
      !Admits(threshold, Info) ==> Call(r, receiver, Bare, stamp, results).Ok?
  {
    var r := Construct(w, os, threshold, fmt);
    var c := Call(r, receiver, Bare, stamp, results);
    if c.Ok? {
      assert c.value.world.loggers == Decided(r, Bare).loggers;
    }
  }

  /** A disabled call writes nothing and invokes nothing: its template's
      cursors are reset, but no segment is replayed. */
  lemma DisabledCallSilent(w: World, receiver: nat, form: CallForm, stamp: string, results: Results)
    requires Wired(w) && w.current >= 0
    requires !Decided(w, form).loggers[w.current].enable
    ensures Call(w, receiver, form, stamp, results) == Ok(Effect(Decided(w, form), []))
    ensures Decided(w, form).streams == w.streams
    ensures Decided(w, form).fmts[w.loggers[w.current].fmt].iters == Start
  {
  }

  /** An enabled call on the default template at a real severity writes
      `"[" time "] " label ": "` to the current logger's stream, consumes the
      three literals, stands at the segment after the data marker, and
      invokes nothing. */
  lemma DefaultCall(w: World, receiver: nat, form: CallForm, names: LevelNames, stamp: string, results: Results)
    requires Wired(w) && w.current >= 0
    requires w.fmts[w.loggers[w.current].fmt].tpl == Default(Src, names)
    requires Decided(w, form).loggers[w.current].enable
    requires IsReal(Decided(w, form).loggers[w.current].curLev)
    ensures
      var lg, d := w.loggers[w.current], Decided(w, form);
      var sev := d.loggers[w.current].curLev;
      Call(w, receiver, form, stamp, results) ==
        Ok(Effect(Write(d.(fmts := d.fmts[lg.fmt := Fmt(Default(Src, names), Cursors(3, 1, 0))]), lg.os,
                        "[" + stamp + "] " + names[sev] + ": "), []))
  {
    var lg, d := w.loggers[w.current], Decided(w, form);
    var sev := d.loggers[w.current].curLev;
    assert d.loggers[d.current] == d.loggers[w.current];
    assert d.fmts[lg.fmt] == Fmt(Default(Src, names), Start);
    DefaultPrefixReplay(Src, names, sev, stamp, results);
  }

  /** Insertions while the current logger is disabled change nothing and
      invoke nothing. */
  lemma {:induction false} RunDisabled(w: World, actions: seq<Action>, clock: Clock, results: Results)
    requires Wired(w) && w.current >= 0 && !w.loggers[w.current].enable
    ensures Run(w, actions, clock, results) == Ok(Effect(w, []))
    decreases |actions|
  {
    if actions != [] {
      assert Perform(w, actions[0], clock, results) == Ok(Effect(w, []));
      RunDisabled(w, actions[1..], clock, results);
      var none: seq<ClosureId> := [];
      assert none + none == none;
    }
  }

  /** A disabled statement leaves no trace: whatever is chained onto it,
      no stream is written and no closure runs. */
  lemma DisabledStatementSilent(w: World, receiver: nat, form: CallForm, actions: seq<Action>, clock: Clock, results: Results)
    requires Wired(w) && w.current >= 0
    requires !Decided(w, form).loggers[w.current].enable
    ensures Log(w, receiver, form, actions, clock, results).Ok?
    ensures Log(w, receiver, form, actions, clock, results).value.world.streams == w.streams
    ensures Log(w, receiver, form, actions, clock, results).value.trace == []
  {
    var d := Decided(w, form);
    DisabledCallSilent(w, receiver, form, clock(0), results);
    RunDisabled(d, actions, clock, results);
    var none: seq<ClosureId> := [];
    assert none + none == none;
  }

  /** Payloads inserted while the current logger is enabled go to its
      stream in insertion order and invoke their closures in that order;
      nothing else changes. */
  lemma {:induction false} RunPayloads(w: World, ps: seq<Payload>, clock: Clock, results: Results)
    requires Wired(w) && w.current >= 0 && w.loggers[w.current].enable
    ensures Run(w, Puts(ps), clock, results) == Ok(Effect(Write(w, w.loggers[w.current].os, Texts(ps, results)), Closures(ps)))
    decreases |ps|
  {
    var os := w.loggers[w.current].os;
    if ps == [] {
      WriteTwice(w, os, "", "");
    } else {
      var e := Put(w, ps[0], results).value;
      assert Perform(w, Puts(ps)[0], clock, results) == Ok(e);
      assert Puts(ps)[1..] == Puts(ps[1..]);
      RunPayloads(e.world, ps[1..], clock, results);
      WriteTwice(w, os, Text(ps[0], results), Texts(ps[1..], results));
    }
  }

  /** With the default template, an enabled statement at a real severity
      writes one line to the current logger's stream and nothing anywhere
      else: `"[" time "] " label ": "`, the payloads in insertion order, and
      a newline. It invokes exactly the payloads' closures, in order, and
      leaves the template's cursors after the data marker. */
  lemma DefaultStatement(w: World, receiver: nat, form: CallForm, names: LevelNames, ps: seq<Payload>, clock: Clock, results: Results)
    requires Wired(w) && w.current >= 0
    requires w.fmts[w.loggers[w.current].fmt].tpl == Default(Src, names)
    requires Decided(w, form).loggers[w.current].enable
    requires IsReal(Decided(w, form).loggers[w.current].curLev)
    ensures
      var lg, d := w.loggers[w.current], Decided(w, form);
      var sev := d.loggers[w.current].curLev;
      Log(w, receiver, form, Puts(ps), clock, results) ==
        Ok(Effect(Write(d.(fmts := d.fmts[lg.fmt := Fmt(Default(Src, names), Cursors(3, 1, 0))]), lg.os,
                        "[" + clock(0) + "] " + names[sev] + ": " + Texts(ps, results) + "\n"), Closures(ps)))
  {
    var lg, d := w.loggers[w.current], Decided(w, form);
    var sev := d.loggers[w.current].curLev;
    var prefix := "[" + clock(0) + "] " + names[sev] + ": ";
    var w0 := d.(fmts := d.fmts[lg.fmt := Fmt(Default(Src, names), Cursors(3, 1, 0))]);
    DefaultCall(w, receiver, form, names, clock(0), results);
    assert Wired(w0) && w0.current >= 0 && w0.loggers[w0.current] == d.loggers[w.current];
    StatementLine(w, receiver, form, ps, clock, results, w0, prefix);
  }

  /** An enabled statement whose call writes `prefix` and invokes nothing
      writes one line, `prefix` and then the payloads, to the current stream,
      and invokes exactly the payloads' closures. */
  lemma StatementLine(w: World, receiver: nat, form: CallForm, ps: seq<Payload>, clock: Clock, results: Results, w0: World, prefix: string)
    requires Wired(w) && Wired(w0) && w0.current >= 0 && w0.loggers[w0.current].enable
    requires Call(w, receiver, form, clock(0), results) == Ok(Effect(Write(w0, w0.loggers[w0.current].os, prefix), []))
    ensures Log(w, receiver, form, Puts(ps), clock, results)
            == Ok(Effect(Write(w0, w0.loggers[w0.current].os, prefix + Texts(ps, results) + "\n"), Closures(ps)))
  {
    var os := w0.loggers[w0.current].os;
    var w1 := Write(w0, os, prefix);
    var w2 := Write(w1, os, Texts(ps, results));
    PayloadsThenClose(w1, ps, clock, results);
    LogSteps(w, receiver, form, Puts(ps), clock, results, Effect(w1, []), Effect(w2, Closures(ps)));
    LineWrites(w0, os, prefix, Texts(ps, results));
    var none: seq<ClosureId> := [];
    assert none + Closures(ps) == Closures(ps);
  }

  /** Enabled payloads and the end of the statement: the payloads' texts and
      a newline go to the current stream. */
  lemma PayloadsThenClose(w: World, ps: seq<Payload>, clock: Clock, results: Results)
    requires Wired(w) && w.current >= 0 && w.loggers[w.current].enable
    ensures
      var os := w.loggers[w.current].os;
      var w2 := Write(w, os, Texts(ps, results));
      && Run(w, Puts(ps), clock, results) == Ok(Effect(w2, Closures(ps)))
      && Wired(w2) && Close(w2) == Ok(Write(w2, os, "\n"))
  {
    RunPayloads(w, ps, clock, results);
  }

  /** A prefix, a body and a newline written in turn make one line. */
  lemma LineWrites(w: World, os: nat, prefix: string, body: string)
    requires os < |w.streams|
    ensures Write(Write(Write(w, os, prefix), os, body), os, "\n") == Write(w, os, prefix + body + "\n")
  {
    WriteTwice(w, os, prefix, body);
    WriteTwice(w, os, prefix + body, "\n");
  }

  /** A statement's outcome from the outcomes of its call and insertions. */
  lemma LogSteps(w: World, receiver: nat, form: CallForm, actions: seq<Action>, clock: Clock, results: Results, e: Effect, e2: Effect)
    requires Wired(w) && Call(w, receiver, form, clock(0), results) == Ok(e)
    requires Wired(e.world) && Run(e.world, actions, clock, results) == Ok(e2)
    requires Wired(e2.world) && Close(e2.world).Ok?
    ensures Log(w, receiver, form, actions, clock, results) == Ok(Effect(Close(e2.world).value, e.trace + e2.trace))
  {
  }

  /** The continuation token on the default template, after the call: the
      segment after the data marker is empty, so the first token writes
      nothing and only moves the segment cursor; a second one runs past the
      segment list. */
  lemma ContinueDefault(w: World, names: LevelNames, stamp: string, results: Results)
    requires Wired(w) && w.current >= 0 && w.loggers[w.current].enable
    requires w.fmts[w.loggers[w.current].fmt] == Fmt(Default(Src, names), Cursors(3, 1, 0))
    ensures
      var k := w.loggers[w.current].fmt;
      var w2 := w.(fmts := w.fmts[k := Fmt(Default(Src, names), Cursors(3, 2, 0))]);
      && PutFmtStr(w, stamp, results) == Ok(Effect(w2, []))
      && PutFmtStr(w2, stamp, results) == Undefined(SegmentOverrun)
  {
    var lg := w.loggers[w.current];
    var w2 := w.(fmts := w.fmts[lg.fmt := Fmt(Default(Src, names), Cursors(3, 2, 0))]);
    ContinueDefaultSecond(w, names, stamp, results);
    assert w2.loggers == w.loggers && w2.streams == w.streams;
  }

  /** The empty second segment of the default template writes nothing. */
  lemma ContinueDefaultSecond(w: World, names: LevelNames, stamp: string, results: Results)
    requires Wired(w) && w.current >= 0 && w.loggers[w.current].enable
    requires w.fmts[w.loggers[w.current].fmt] == Fmt(Default(Src, names), Cursors(3, 1, 0))
    ensures
      var k := w.loggers[w.current].fmt;
      PutFmtStr(w, stamp, results) == Ok(Effect(w.(fmts := w.fmts[k := Fmt(Default(Src, names), Cursors(3, 2, 0))]), []))
  {
    var fm := w.fmts[w.loggers[w.current].fmt];
    assert fm.tpl.segs[fm.iters.seg] == [];
    EmptySegment(w, stamp, results);
  }

  /** An empty segment writes nothing and only moves the segment cursor. */
  lemma EmptySegment(w: World, stamp: string, results: Results)
    requires Wired(w) && w.current >= 0 && w.loggers[w.current].enable
    requires
      var fm := w.fmts[w.loggers[w.current].fmt];
      fm.iters.seg < |fm.tpl.segs| && fm.tpl.segs[fm.iters.seg] == []
    ensures
      var k := w.loggers[w.current].fmt;
      var fm := w.fmts[k];
      PutFmtStr(w, stamp, results) == Ok(Effect(w.(fmts := w.fmts[k := fm.(iters := fm.iters.(seg := fm.iters.seg + 1))]), []))
  {
    var lg := w.loggers[w.current];
    var fm := w.fmts[lg.fmt];
    var codes := fm.tpl.segs[fm.iters.seg];
    assert Count(codes, LiteralCode) == 0 && Count(codes, ClosureCode) == 0;
    assert Renderable(Src, fm.tpl, codes, fm.iters, lg.curLev);
    assert SegmentText(Src, fm.tpl, fm.iters, lg.curLev, stamp, results) == "";
    assert Advance(fm.iters, codes) == fm.iters;
    WriteTwice(w.(fmts := w.fmts[lg.fmt := fm.(iters := fm.iters.(seg := fm.iters.seg + 1))]), lg.os, "", "");
  }

  /** The current logger's template is valid and its cursors are aligned. */
  predicate CurrentAligned(w: World)
    requires Wired(w)
  {
    && w.current >= 0
    && Valid(w.fmts[w.loggers[w.current].fmt].tpl)
    && Aligned(w.fmts[w.loggers[w.current].fmt].tpl, w.fmts[w.loggers[w.current].fmt].iters)
  }

  /** On a valid template, a call leaves the shared cursors aligned, however
      earlier calls left them: at the second segment when enabled, at the
      first when disabled, since a disabled call only resets them. Enabled,
      it is defined whenever a level directive in the first segment meets a
      real severity. */
  lemma CallAligned(w: World, receiver: nat, form: CallForm, stamp: string, results: Results)
    requires Wired(w) && w.current >= 0 && Valid(w.fmts[w.loggers[w.current].fmt].tpl)
    ensures
      var r := Call(w, receiver, form, stamp, results);
      r.Ok? ==> Wired(r.value.world) && CurrentAligned(r.value.world)
    ensures
      var lg := Decided(w, form).loggers[w.current];
      var tpl := w.fmts[lg.fmt].tpl;
      lg.enable && (InfoCode(Src, LevelInfo) in tpl.segs[0] ==> IsReal(lg.curLev)) ==> Call(w, receiver, form, stamp, results).Ok?
    ensures
      var lg := Decided(w, form).loggers[w.current];
      var r := Call(w, receiver, form, stamp, results);
      lg.enable && r.Ok? ==> r.value.world.fmts[lg.fmt].iters.seg == 1
    ensures
      var lg := Decided(w, form).loggers[w.current];
      var r := Call(w, receiver, form, stamp, results);
      !lg.enable ==> r.Ok? && r.value.world.fmts[lg.fmt].iters == Start
  {
    var d := Decided(w, form);
    var lg := d.loggers[w.current];
    StartAligned(w.fmts[lg.fmt].tpl);
    assert Wired(d) && CurrentAligned(d);
    PutFmtStrAligned(d, stamp, results);
  }

  /** On a valid template, the continuation token keeps the current
      logger's cursors aligned; enabled, it is defined whenever a segment
      remains and a level directive in it meets the current severity. */
  lemma PutFmtStrAligned(w: World, stamp: string, results: Results)
    requires Wired(w) && CurrentAligned(w)
    ensures
      var r := PutFmtStr(w, stamp, results);
      r.Ok? ==> Wired(r.value.world) && CurrentAligned(r.value.world)
    ensures
      var lg := w.loggers[w.current];
      var fm := w.fmts[lg.fmt];
      (lg.enable && fm.iters.seg < |fm.tpl.segs| && (InfoCode(Src, LevelInfo) in fm.tpl.segs[fm.iters.seg] ==> IsReal(lg.curLev)))
      ==> PutFmtStr(w, stamp, results).Ok?
  {
    var lg := w.loggers[w.current];
    var fm := w.fmts[lg.fmt];
    if lg.enable && fm.iters.seg < |fm.tpl.segs| && (InfoCode(Src, LevelInfo) in fm.tpl.segs[fm.iters.seg] ==> IsReal(lg.curLev)) {
      AlignedReplay(Src, fm.tpl, fm.iters, lg.curLev, stamp, results);
    } else if lg.enable && PutFmtStr(w, stamp, results).Ok? {
      AlignedReplay(Src, fm.tpl, fm.iters, lg.curLev, stamp, results);
    }
  }

  /** On a valid template, any chain of insertions keeps the current
      logger's cursors aligned. */
  lemma {:induction false} RunAligned(w: World, actions: seq<Action>, clock: Clock, results: Results)
    requires Wired(w) && CurrentAligned(w)
    ensures
      var r := Run(w, actions, clock, results);
      r.Ok? ==> CurrentAligned(r.value.world)
    decreases |actions|
  {
    if actions != [] {
      var p := Perform(w, actions[0], clock, results);
      if p.Ok? {
        if actions[0].Next? {
          PutFmtStrAligned(w, clock(NextIndex(w)), results);
        } else {
          assert p.value.world.fmts == w.fmts && p.value.world.loggers == w.loggers;
        }
        RunAligned(p.value.world, actions[1..], clock, results);
      }
    }
  }
}
