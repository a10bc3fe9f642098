/** Replaying a template: the render-routine table of each variant, the
    cursor triple into the template's lists, and the rendering of a segment's
    directives in order. */
module Replay {
  import opened Levels
  import opened Template

  /** The four render routines a directive code selects. */
  datatype Directive = PutLiteral | PutLevel | PutTime | PutClosure

  /** The render-routine table `fmtCbs`, indexed by directive code. Each
      variant's table agrees with the codes that variant stores its info
      tokens as. */
  function Table(v: Variant): (table: seq<Directive>)
    ensures |table| == TableSize
    ensures table[LiteralCode] == PutLiteral && table[ClosureCode] == PutClosure
    ensures table[InfoCode(v, LevelInfo)] == PutLevel
    ensures table[InfoCode(v, TimeInfo)] == PutTime
  {
    match v
    case Include => [PutLiteral, PutLevel, PutTime, PutClosure]
    case Src => [PutLiteral, PutTime, PutLevel, PutClosure]
  }

  /** Positions in the literal list, the segment list and the closure list. */
  datatype Cursors = Cursors(lit: nat, seg: nat, cb: nat)

  /** The cursors at the beginnings of all three lists. */
  const Start := Cursors(0, 0, 0)

  /** The ways a log call can leave defined behaviour: reading a segment, a
      literal or a closure past the end of its list, indexing the label table
      with the `silent` severity, dispatching a code with no routine, or (in
      the variant with a thread-current logger) dereferencing that logger
      while none is set. */
  datatype Fault = SegmentOverrun | LiteralOverrun | ClosureOverrun | LevelOutOfRange | UnknownCode | NoCurrentLogger

  datatype Outcome<T> = Ok(value: T) | Undefined(fault: Fault)

  /** What rendering produces: text, the cursors afterwards, and the closures
      invoked, in order. */
  datatype Step = Step(text: string, cur: Cursors, trace: seq<ClosureId>)

  /** The text a closure returns when invoked. */
  type Results = ClosureId -> string

  /** Rendering one directive at `cur` stays within defined behaviour. */
  predicate OneRenderable(v: Variant, t: Template, code: Code, cur: Cursors, sev: Level) {
    && code < TableSize
    && (code == LiteralCode ==> cur.lit < |t.lits|)
    && (code == ClosureCode ==> cur.cb < |t.cbs|)
    && (code == InfoCode(v, LevelInfo) ==> IsReal(sev))
  }

  /** The literal and closure cursors moved past the directives of `codes`. */
  function Advance(cur: Cursors, codes: seq<Code>): Cursors {
    cur.(lit := cur.lit + Count(codes, LiteralCode), cb := cur.cb + Count(codes, ClosureCode))
  }

  /** The `n` entries of `s` from index `from` on; none when `n` is 0. */
  function Following<T>(s: seq<T>, from: nat, n: nat): seq<T>
    requires n == 0 || from + n <= |s|
  {
    if n == 0 then [] else s[from..from + n]
  }

  /** Renders one directive: a literal consumes the next literal text, a
      closure consumes and invokes the next closure, the level directive shows
      the label of the call's severity, the timestamp directive the clock's
      reading `stamp`. Only a closure directive invokes anything. */
  function RenderOne(v: Variant, t: Template, code: Code, cur: Cursors, sev: Level, stamp: string, results: Results): (r: Outcome<Step>)
    ensures r.Ok? <==> OneRenderable(v, t, code, cur, sev)
    ensures r.Ok? ==> r.value.cur == Advance(cur, [code])
    ensures r.Ok? ==> r.value.trace == Following(t.cbs, cur.cb, Count([code], ClosureCode))
  {
    assert multiset([code]) == multiset{code};
    if code >= TableSize then Undefined(UnknownCode)
    else
      match Table(v)[code]
      case PutLiteral =>
        if cur.lit < |t.lits| then Ok(Step(t.lits[cur.lit], cur.(lit := cur.lit + 1), []))
        else Undefined(LiteralOverrun)
      case PutLevel =>
        if IsReal(sev) then Ok(Step(t.names[sev], cur, [])) else Undefined(LevelOutOfRange)
      case PutTime =>
        Ok(Step(stamp, cur, []))
      case PutClosure =>
        if cur.cb < |t.cbs| then Ok(Step(results(t.cbs[cur.cb]), cur.(cb := cur.cb + 1), [t.cbs[cur.cb]]))
        else Undefined(ClosureOverrun)
  }

  /** Rendering `codes` from `cur` stays within defined behaviour: every code
      has a routine, the side lists hold enough entries, and a level directive
      meets a real severity. */
  predicate Renderable(v: Variant, t: Template, codes: seq<Code>, cur: Cursors, sev: Level) {
    && (forall j :: 0 <= j < |codes| ==> codes[j] < TableSize)
    && (Count(codes, LiteralCode) == 0 || cur.lit + Count(codes, LiteralCode) <= |t.lits|)
    && (Count(codes, ClosureCode) == 0 || cur.cb + Count(codes, ClosureCode) <= |t.cbs|)
    && (InfoCode(v, LevelInfo) in codes ==> IsReal(sev))
  }

  /** Codes followed by one more are renderable exactly when the codes are and
      the last one is, at the cursors the codes leave behind. */
  lemma RenderableSnoc(v: Variant, t: Template, front: seq<Code>, code: Code, cur: Cursors, sev: Level)
    ensures Renderable(v, t, front + [code], cur, sev) <==>
              Renderable(v, t, front, cur, sev) && OneRenderable(v, t, code, Advance(cur, front), sev)
    ensures Advance(Advance(cur, front), [code]) == Advance(cur, front + [code])
  {
    var codes := front + [code];
    assert multiset(codes) == multiset(front) + multiset{code};
    assert multiset([code]) == multiset{code};
    assert InfoCode(v, LevelInfo) in codes <==> InfoCode(v, LevelInfo) in front || code == InfoCode(v, LevelInfo);
    assert (forall j :: 0 <= j < |codes| ==> codes[j] < TableSize) <==>
           (forall j :: 0 <= j < |front| ==> front[j] < TableSize) && code < TableSize by {
      assert forall j :: 0 <= j < |front| ==> codes[j] == front[j];
      assert codes[|front|] == code;
    }
  }

  /** The closures taken by some codes, then by one more, are the closures
      taken by all of them. */
  lemma FollowingSnoc<T>(s: seq<T>, from: nat, n: nat, k: nat)
    requires k <= 1 && (n + k == 0 || from + n + k <= |s|)
    ensures Following(s, from, n) + Following(s, from + n, k) == Following(s, from, n + k)
  {
  }

  /** Renders `codes` left to right, stopping at the first fault. */
  function RenderCodes(v: Variant, t: Template, codes: seq<Code>, cur: Cursors, sev: Level, stamp: string, results: Results): Outcome<Step>
    decreases |codes|
  {
    if codes == [] then Ok(Step("", cur, []))
    else
      match RenderCodes(v, t, codes[..|codes| - 1], cur, sev, stamp, results)
      case Undefined(f) => Undefined(f)
      case Ok(s) =>
        match RenderOne(v, t, codes[|codes| - 1], s.cur, sev, stamp, results)
        case Undefined(f) => Undefined(f)
        case Ok(d) => Ok(Step(s.text + d.text, d.cur, s.trace + d.trace))
  }

  /** What rendering `codes` from `cur` promises of its outcome `r`: it
      succeeds exactly when the codes are renderable; the literal and closure
      cursors then advance by the number of literal and closure directives,
      and the closures invoked are the next ones of the template's list, in
      list order. */
  predicate RendersAsSpecified(v: Variant, t: Template, codes: seq<Code>, cur: Cursors, sev: Level, r: Outcome<Step>) {
    && (r.Ok? <==> Renderable(v, t, codes, cur, sev))
    && (r.Ok? ==> r.value.cur == Advance(cur, codes))
    && (r.Ok? && Renderable(v, t, codes, cur, sev) ==> r.value.trace == Following(t.cbs, cur.cb, Count(codes, ClosureCode)))
  }

  /** Rendering behaves as specified, for all codes. */
  lemma {:induction false} RenderCodesSpec(v: Variant, t: Template, codes: seq<Code>, cur: Cursors, sev: Level, stamp: string, results: Results)
    ensures RendersAsSpecified(v, t, codes, cur, sev, RenderCodes(v, t, codes, cur, sev, stamp, results))
    decreases |codes|
  {
    if codes == [] {
      assert multiset(codes) == multiset{};
    } else {
      var front, code := codes[..|codes| - 1], codes[|codes| - 1];
      assert codes == front + [code];
      RenderCodesSpec(v, t, front, cur, sev, stamp, results);
      RenderCodesStep(v, t, front, code, cur, sev, stamp, results);
    }
  }

  /** The inductive step of `RenderCodesSpec`: one more code at the end. */
  lemma RenderCodesStep(v: Variant, t: Template, front: seq<Code>, code: Code, cur: Cursors, sev: Level, stamp: string, results: Results)
    requires RendersAsSpecified(v, t, front, cur, sev, RenderCodes(v, t, front, cur, sev, stamp, results))
    ensures RendersAsSpecified(v, t, front + [code], cur, sev, RenderCodes(v, t, front + [code], cur, sev, stamp, results))
  {
    var codes := front + [code];
    assert codes[..|codes| - 1] == front && codes[|codes| - 1] == code;
    RenderableSnoc(v, t, front, code, cur, sev);
    var rf := RenderCodes(v, t, front, cur, sev, stamp, results);
    if rf.Undefined? {
      assert RenderCodes(v, t, codes, cur, sev, stamp, results).Undefined?;
    } else {
      var d := RenderOne(v, t, code, rf.value.cur, sev, stamp, results);
      if d.Undefined? {
        assert RenderCodes(v, t, codes, cur, sev, stamp, results).Undefined?;
      } else {
        RenderCodesStepOk(v, t, front, code, cur, sev, stamp, results);
      }
    }
  }

  /** `RenderCodesStep` when both the codes and the one more render. */
  lemma RenderCodesStepOk(v: Variant, t: Template, front: seq<Code>, code: Code, cur: Cursors, sev: Level, stamp: string, results: Results)
    requires RendersAsSpecified(v, t, front, cur, sev, RenderCodes(v, t, front, cur, sev, stamp, results))
    requires RenderCodes(v, t, front, cur, sev, stamp, results).Ok?
    requires RenderOne(v, t, code, RenderCodes(v, t, front, cur, sev, stamp, results).value.cur, sev, stamp, results).Ok?
    ensures RendersAsSpecified(v, t, front + [code], cur, sev, RenderCodes(v, t, front + [code], cur, sev, stamp, results))
  {
    var s := RenderCodes(v, t, front, cur, sev, stamp, results).value;
    var d := RenderOne(v, t, code, s.cur, sev, stamp, results).value;
    RenderSnoc(v, t, front, code, cur, sev, stamp, results);
    SnocFacts(v, t, front, code, cur, sev, s, d);
  }

  /** The facts behind `RenderCodesStepOk`, about the two steps alone. */
  lemma SnocFacts(v: Variant, t: Template, front: seq<Code>, code: Code, cur: Cursors, sev: Level, s: Step, d: Step)
    requires Renderable(v, t, front, cur, sev)
    requires s.cur == Advance(cur, front) && s.trace == Following(t.cbs, cur.cb, Count(front, ClosureCode))
    requires OneRenderable(v, t, code, s.cur, sev)
    requires d.cur == Advance(s.cur, [code]) && d.trace == Following(t.cbs, s.cur.cb, Count([code], ClosureCode))
    ensures Renderable(v, t, front + [code], cur, sev)
    ensures d.cur == Advance(cur, front + [code])
    ensures s.trace + d.trace == Following(t.cbs, cur.cb, Count(front + [code], ClosureCode))
  {
    RenderableSnoc(v, t, front, code, cur, sev);
    var n, k := Count(front, ClosureCode), Count([code], ClosureCode);
    assert multiset(front + [code]) == multiset(front) + multiset([code]);
    FollowingSnoc(t.cbs, cur.cb, n, k);
  }

  /** A prefix of renderable codes is renderable. */
  lemma RenderablePrefix(v: Variant, t: Template, codes: seq<Code>, n: nat, cur: Cursors, sev: Level)
    requires n <= |codes| && Renderable(v, t, codes, cur, sev)
    ensures Renderable(v, t, codes[..n], cur, sev)
  {
    assert codes == codes[..n] + codes[n..];
    assert multiset(codes[..n]) <= multiset(codes);
  }

  /** The text of the directive at position `j` of renderable `codes`, stated
      by global counting: the literal directive at `j` shows the literal whose
      index is the number of literal directives before it, and likewise for
      closures. */
  function Piece(v: Variant, t: Template, codes: seq<Code>, j: nat, cur: Cursors, sev: Level, stamp: string, results: Results): string
    requires j < |codes| && Renderable(v, t, codes, cur, sev)
  {
    RenderablePrefix(v, t, codes, j + 1, cur, sev);
    assert codes[..j + 1] == codes[..j] + [codes[j]];
    assert codes[j] in codes;
    match Table(v)[codes[j]]
    case PutLiteral => t.lits[cur.lit + Count(codes[..j], LiteralCode)]
    case PutLevel => t.names[sev]
    case PutTime => stamp
    case PutClosure => results(t.cbs[cur.cb + Count(codes[..j], ClosureCode)])
  }

  /** The pieces of the first `n` directives, concatenated. */
  function Expected(v: Variant, t: Template, codes: seq<Code>, n: nat, cur: Cursors, sev: Level, stamp: string, results: Results): string
    requires n <= |codes| && Renderable(v, t, codes, cur, sev)
  {
    if n == 0 then "" else Expected(v, t, codes, n - 1, cur, sev, stamp, results) + Piece(v, t, codes, n - 1, cur, sev, stamp, results)
  }

  /** The rendered text of renderable codes is the concatenation of their
      pieces: the Nth literal (closure) directive shows the Nth remaining
      literal (closure result). */
  lemma {:induction false} RenderedText(v: Variant, t: Template, codes: seq<Code>, n: nat, cur: Cursors, sev: Level, stamp: string, results: Results)
    requires n <= |codes| && Renderable(v, t, codes, cur, sev)
    ensures RenderCodes(v, t, codes[..n], cur, sev, stamp, results).Ok?
    ensures RenderCodes(v, t, codes[..n], cur, sev, stamp, results).value.text == Expected(v, t, codes, n, cur, sev, stamp, results)
  {
    if n == 0 {
      assert codes[..n] == [];
    } else {
      RenderedText(v, t, codes, n - 1, cur, sev, stamp, results);
      RenderedTextStep(v, t, codes, n, cur, sev, stamp, results);
    }
  }

  /** The inductive step of `RenderedText`: the directive at `n - 1` adds
      its piece. */
  lemma RenderedTextStep(v: Variant, t: Template, codes: seq<Code>, n: nat, cur: Cursors, sev: Level, stamp: string, results: Results)
    requires 0 < n <= |codes| && Renderable(v, t, codes, cur, sev)
    requires RenderCodes(v, t, codes[..n - 1], cur, sev, stamp, results).Ok?
    ensures RenderCodes(v, t, codes[..n], cur, sev, stamp, results).Ok?
    ensures RenderCodes(v, t, codes[..n], cur, sev, stamp, results).value.text
            == RenderCodes(v, t, codes[..n - 1], cur, sev, stamp, results).value.text + Piece(v, t, codes, n - 1, cur, sev, stamp, results)
  {
    var front := codes[..n - 1];
    assert codes[..n][..n - 1] == front && codes[..n][n - 1] == codes[n - 1];
    RenderCodesSpec(v, t, front, cur, sev, stamp, results);
    PieceRenders(v, t, codes, n - 1, cur, sev, stamp, results);
  }

  /** The directive at position `j`, rendered at the cursors the directives
      before it leave behind, shows its piece. */
  lemma PieceRenders(v: Variant, t: Template, codes: seq<Code>, j: nat, cur: Cursors, sev: Level, stamp: string, results: Results)
    requires j < |codes| && Renderable(v, t, codes, cur, sev)
    ensures RenderOne(v, t, codes[j], Advance(cur, codes[..j]), sev, stamp, results).Ok?
    ensures RenderOne(v, t, codes[j], Advance(cur, codes[..j]), sev, stamp, results).value.text == Piece(v, t, codes, j, cur, sev, stamp, results)
  {
    PieceRenderable(v, t, codes, j, cur, sev);
  }

  /** Within renderable codes, each directive is renderable at the cursors
      the directives before it leave behind. */
  lemma PieceRenderable(v: Variant, t: Template, codes: seq<Code>, j: nat, cur: Cursors, sev: Level)
    requires j < |codes| && Renderable(v, t, codes, cur, sev)
    ensures OneRenderable(v, t, codes[j], Advance(cur, codes[..j]), sev)
  {
    RenderablePrefix(v, t, codes, j + 1, cur, sev);
    RenderableSnoc(v, t, codes[..j], codes[j], cur, sev);
    assert codes[..j + 1] == codes[..j] + [codes[j]];
  }

  /** Cursors sitting at the start of segment `cur.seg`: the literal and
      closure cursors count the directives of all earlier segments. */
  predicate Aligned(t: Template, cur: Cursors) {
    && cur.seg <= |t.segs|
    && cur.lit == Total(t.segs[..cur.seg], LiteralCode)
    && cur.cb == Total(t.segs[..cur.seg], ClosureCode)
  }

  /** Fresh cursors are aligned at the first segment. */
  lemma StartAligned(t: Template)
    ensures Aligned(t, Start)
  {
    assert t.segs[..0] == [];
  }

  /** `fmtOpt`: the segment under the segment cursor, and the cursor moved to
      the next segment. */
  function NextSegment(t: Template, cur: Cursors): (r: Outcome<(seq<Code>, Cursors)>)
    ensures r.Ok? <==> cur.seg < |t.segs|
    ensures r.Ok? ==> r.value.0 == t.segs[cur.seg] && r.value.1 == cur.(seg := cur.seg + 1)
  {
    if cur.seg < |t.segs| then Ok((t.segs[cur.seg], cur.(seg := cur.seg + 1))) else Undefined(SegmentOverrun)
  }

  /** The text segment `cur.seg` renders from `cur`: the pieces of its
      directives, in order. */
  function SegmentText(v: Variant, t: Template, cur: Cursors, sev: Level, stamp: string, results: Results): string
    requires cur.seg < |t.segs| && Renderable(v, t, t.segs[cur.seg], cur, sev)
  {
    var codes := t.segs[cur.seg];
    Expected(v, t, codes, |codes|, cur, sev, stamp, results)
  }

  /** Replays the next segment when enabled: the segment's directives are
      rendered in order, the cursors move past them and the segment cursor
      one on, and the segment's closures run in list order. Disabled, nothing
      is rendered, no closure runs and no cursor moves, the segment cursor
      included. */
  function ReplayNext(v: Variant, t: Template, enabled: bool, cur: Cursors, sev: Level, stamp: string, results: Results): (r: Outcome<Step>)
    ensures !enabled ==> r == Ok(Step("", cur, []))
    ensures enabled ==> (r.Ok? <==> cur.seg < |t.segs| && Renderable(v, t, t.segs[cur.seg], cur, sev))
    ensures enabled && r.Ok? ==> r.value.cur == Advance(cur, t.segs[cur.seg]).(seg := cur.seg + 1)
    ensures enabled && r.Ok? ==> r.value.trace == Following(t.cbs, cur.cb, Count(t.segs[cur.seg], ClosureCode))
    ensures enabled && r.Ok? ==> r.value.text == SegmentText(v, t, cur, sev, stamp, results)
  {
    if !enabled then Ok(Step("", cur, []))
    else
      match NextSegment(t, cur)
      case Undefined(f) => Undefined(f)
      case Ok((codes, next)) =>
        RenderCodesSpec(v, t, codes, next, sev, stamp, results);
        if Renderable(v, t, codes, cur, sev) then
          ReplayText(v, t, cur, sev, stamp, results);
          RenderCodes(v, t, codes, next, sev, stamp, results)
        else
          RenderCodes(v, t, codes, next, sev, stamp, results)
  }

  /** The rendering of a segment's codes, from the cursors that have moved on
      to the next segment, shows the segment's text. */
  lemma ReplayText(v: Variant, t: Template, cur: Cursors, sev: Level, stamp: string, results: Results)
    requires cur.seg < |t.segs| && Renderable(v, t, t.segs[cur.seg], cur, sev)
    ensures RenderCodes(v, t, t.segs[cur.seg], cur.(seg := cur.seg + 1), sev, stamp, results).Ok?
    ensures RenderCodes(v, t, t.segs[cur.seg], cur.(seg := cur.seg + 1), sev, stamp, results).value.text
            == SegmentText(v, t, cur, sev, stamp, results)
  {
    var codes, next := t.segs[cur.seg], cur.(seg := cur.seg + 1);
    assert Renderable(v, t, codes, next, sev);
    RenderedText(v, t, codes, |codes|, next, sev, stamp, results);
    assert codes[..|codes|] == codes;
    ExpectedIgnoresSegment(v, t, codes, |codes|, cur, next, sev, stamp, results);
  }

  /** The pieces do not depend on the segment cursor. */
  lemma {:induction false} ExpectedIgnoresSegment(v: Variant, t: Template, codes: seq<Code>, n: nat, cur: Cursors, other: Cursors, sev: Level, stamp: string, results: Results)
    requires n <= |codes| && Renderable(v, t, codes, cur, sev)
    requires other.lit == cur.lit && other.cb == cur.cb
    ensures Renderable(v, t, codes, other, sev)
    ensures Expected(v, t, codes, n, other, sev, stamp, results) == Expected(v, t, codes, n, cur, sev, stamp, results)
  {
    assert Renderable(v, t, codes, other, sev);
    if n > 0 {
      ExpectedIgnoresSegment(v, t, codes, n - 1, cur, other, sev, stamp, results);
      assert Piece(v, t, codes, n - 1, other, sev, stamp, results) == Piece(v, t, codes, n - 1, cur, sev, stamp, results);
    }
  }

  /** On a valid template, replaying from aligned cursors never runs past the
      literal or closure list: it succeeds whenever a segment remains and a
      level directive meets a real severity, and leaves the cursors aligned at
      the following segment. */
  lemma AlignedReplay(v: Variant, t: Template, cur: Cursors, sev: Level, stamp: string, results: Results)
    requires Valid(t) && Aligned(t, cur) && cur.seg < |t.segs|
    requires InfoCode(v, LevelInfo) in t.segs[cur.seg] ==> IsReal(sev)
    ensures ReplayNext(v, t, true, cur, sev, stamp, results).Ok?
    ensures Aligned(t, ReplayNext(v, t, true, cur, sev, stamp, results).value.cur)
    ensures ReplayNext(v, t, true, cur, sev, stamp, results).value.cur.seg == cur.seg + 1
  {
    var k := cur.seg;
    TotalPrefixStep(t.segs, k, LiteralCode);
    TotalPrefixStep(t.segs, k, ClosureCode);
    TotalPrefixBound(t.segs, k + 1, LiteralCode);
    TotalPrefixBound(t.segs, k + 1, ClosureCode);
    assert forall j :: 0 <= j < |t.segs[k]| ==> t.segs[k][j] < TableSize;
  }

  /** Replaying the first segment of the default template renders
      `"[" <time> "] " <label> ": "`, consuming all three literals and invoking
      nothing; at the `silent` severity it is undefined. */
  lemma DefaultPrefixReplay(v: Variant, names: LevelNames, sev: Level, stamp: string, results: Results)
    ensures IsReal(sev) ==>
              ReplayNext(v, Default(v, names), true, Start, sev, stamp, results)
              == Ok(Step("[" + stamp + "] " + names[sev] + ": ", Cursors(3, 1, 0), []))
    ensures !IsReal(sev) ==> ReplayNext(v, Default(v, names), true, Start, sev, stamp, results).Undefined?
  {
    var t := Default(v, names);
    var codes := t.segs[0];
    assert codes[3] in codes;
    if IsReal(sev) {
      DefaultShapeReplay(v, t, sev, stamp, results);
    }
  }

  /** `DefaultPrefixReplay` for any template shaped like the default one. */
  lemma DefaultShapeReplay(v: Variant, t: Template, sev: Level, stamp: string, results: Results)
    requires t.segs == [[LiteralCode, InfoCode(v, TimeInfo), LiteralCode, InfoCode(v, LevelInfo), LiteralCode], []]
    requires t.lits == ["[", "] ", ": "] && IsReal(sev)
    ensures ReplayNext(v, t, true, Start, sev, stamp, results)
            == Ok(Step("[" + stamp + "] " + t.names[sev] + ": ", Cursors(3, 1, 0), []))
  {
    assert NextSegment(t, Start) == Ok((t.segs[0], Cursors(0, 1, 0)));
    DefaultSegmentRenders(v, t, t.segs[0], sev, stamp, results);
  }

  /** Rendering the default prefix segment, directive by directive. */
  lemma DefaultSegmentRenders(v: Variant, t: Template, codes: seq<Code>, sev: Level, stamp: string, results: Results)
    requires codes == [LiteralCode, InfoCode(v, TimeInfo), LiteralCode, InfoCode(v, LevelInfo), LiteralCode]
    requires t.lits == ["[", "] ", ": "] && IsReal(sev)
    ensures RenderCodes(v, t, codes, Cursors(0, 1, 0), sev, stamp, results)
            == Ok(Step("[" + stamp + "] " + t.names[sev] + ": ", Cursors(3, 1, 0), []))
  {
    var c0 := Cursors(0, 1, 0);
    var p0, p1, p2, p3, p4 := [], codes[..1], codes[..2], codes[..3], codes[..4];
    assert RenderCodes(v, t, p0, c0, sev, stamp, results) == Ok(Step("", c0, []));
    assert p1 == p0 + [LiteralCode];
    RenderLiteralSnoc(v, t, p0, c0, sev, stamp, results);
    assert "" + t.lits[0] == "[";
    assert RenderCodes(v, t, p1, c0, sev, stamp, results) == Ok(Step("[", Cursors(1, 1, 0), []));
    assert p2 == p1 + [InfoCode(v, TimeInfo)];
    RenderInfoSnoc(v, t, p1, TimeInfo, c0, sev, stamp, results);
    assert RenderCodes(v, t, p2, c0, sev, stamp, results) == Ok(Step("[" + stamp, Cursors(1, 1, 0), []));
    assert p3 == p2 + [LiteralCode];
    RenderLiteralSnoc(v, t, p2, c0, sev, stamp, results);
    assert RenderCodes(v, t, p3, c0, sev, stamp, results) == Ok(Step("[" + stamp + "] ", Cursors(2, 1, 0), []));
    assert p4 == p3 + [InfoCode(v, LevelInfo)];
    RenderInfoSnoc(v, t, p3, LevelInfo, c0, sev, stamp, results);
    assert RenderCodes(v, t, p4, c0, sev, stamp, results) == Ok(Step("[" + stamp + "] " + t.names[sev], Cursors(2, 1, 0), []));
    assert codes == p4 + [LiteralCode];
    RenderLiteralSnoc(v, t, p4, c0, sev, stamp, results);
  }

  /** One more directive after codes that rendered, when it renders too,
      appends its text and its invocations. */
  lemma RenderSnoc(v: Variant, t: Template, front: seq<Code>, code: Code, cur: Cursors, sev: Level, stamp: string, results: Results)
    requires RenderCodes(v, t, front, cur, sev, stamp, results).Ok?
    requires RenderOne(v, t, code, RenderCodes(v, t, front, cur, sev, stamp, results).value.cur, sev, stamp, results).Ok?
    ensures
      var s := RenderCodes(v, t, front, cur, sev, stamp, results).value;
      var d := RenderOne(v, t, code, s.cur, sev, stamp, results).value;
      RenderCodes(v, t, front + [code], cur, sev, stamp, results) == Ok(Step(s.text + d.text, d.cur, s.trace + d.trace))
  {
    var codes := front + [code];
    assert codes[..|codes| - 1] == front && codes[|codes| - 1] == code;
  }

  /** A literal directive after codes that rendered appends the next literal. */
  lemma RenderLiteralSnoc(v: Variant, t: Template, front: seq<Code>, cur: Cursors, sev: Level, stamp: string, results: Results)
    requires RenderCodes(v, t, front, cur, sev, stamp, results).Ok?
    requires RenderCodes(v, t, front, cur, sev, stamp, results).value.cur.lit < |t.lits|
    ensures
      var s := RenderCodes(v, t, front, cur, sev, stamp, results).value;
      RenderCodes(v, t, front + [LiteralCode], cur, sev, stamp, results)
      == Ok(Step(s.text + t.lits[s.cur.lit], s.cur.(lit := s.cur.lit + 1), s.trace))
  {
    var s := RenderCodes(v, t, front, cur, sev, stamp, results).value;
    assert RenderOne(v, t, LiteralCode, s.cur, sev, stamp, results) == Ok(Step(t.lits[s.cur.lit], s.cur.(lit := s.cur.lit + 1), []));
    RenderSnoc(v, t, front, LiteralCode, cur, sev, stamp, results);
    assert s.trace + [] == s.trace;
  }

  /** An info directive at a real severity shows the clock reading or the
      label of the severity, and moves no cursor. */
  lemma RenderInfoOne(v: Variant, t: Template, i: InfoToken, cur: Cursors, sev: Level, stamp: string, results: Results)
    requires IsReal(sev)
    ensures RenderOne(v, t, InfoCode(v, i), cur, sev, stamp, results) == Ok(Step(if i == TimeInfo then stamp else t.names[sev], cur, []))
  {
    assert Table(v)[InfoCode(v, i)] == if i == TimeInfo then PutTime else PutLevel;
  }

  /** An info directive after codes that rendered appends the clock reading
      or the label of the severity. */
  lemma RenderInfoSnoc(v: Variant, t: Template, front: seq<Code>, i: InfoToken, cur: Cursors, sev: Level, stamp: string, results: Results)
    requires RenderCodes(v, t, front, cur, sev, stamp, results).Ok? && IsReal(sev)
    ensures
      var s := RenderCodes(v, t, front, cur, sev, stamp, results).value;
      RenderCodes(v, t, front + [InfoCode(v, i)], cur, sev, stamp, results)
      == Ok(Step(s.text + (if i == TimeInfo then stamp else t.names[sev]), s.cur, s.trace))
  {
    var s := RenderCodes(v, t, front, cur, sev, stamp, results).value;
    RenderInfoOne(v, t, i, s.cur, sev, stamp, results);
    RenderSnoc(v, t, front, InfoCode(v, i), cur, sev, stamp, results);
    assert s.trace + [] == s.trace;
  }

  /** The render loop of `putFmtStr`: dispatches each code of a segment
      through the table in turn, stopping at the first fault. */
  method RenderLoop(v: Variant, t: Template, codes: seq<Code>, cur: Cursors, sev: Level, stamp: string, results: Results) returns (r: Outcome<Step>)
    ensures r == RenderCodes(v, t, codes, cur, sev, stamp, results)
  {
    var acc := Step("", cur, []);
    var i := 0;
    while i < |codes|
      invariant 0 <= i <= |codes|
      invariant RenderCodes(v, t, codes[..i], cur, sev, stamp, results) == Ok(acc)
    {
      var d := RenderOne(v, t, codes[i], acc.cur, sev, stamp, results);
      LoopStep(v, t, codes, i, cur, sev, stamp, results, acc);
      if d.Undefined? {
        PrefixFaultPersists(v, t, codes, i + 1, cur, sev, stamp, results);
        return Undefined(d.fault);
      }
      acc := Step(acc.text + d.value.text, d.value.cur, acc.trace + d.value.trace);
      i := i + 1;
    }
    assert codes[..i] == codes;
    return Ok(acc);
  }

  /** One more code extends a rendered prefix by that code's rendering. */
  lemma LoopStep(v: Variant, t: Template, codes: seq<Code>, i: nat, cur: Cursors, sev: Level, stamp: string, results: Results, acc: Step)
    requires i < |codes|
    requires RenderCodes(v, t, codes[..i], cur, sev, stamp, results) == Ok(acc)
    ensures
      var d := RenderOne(v, t, codes[i], acc.cur, sev, stamp, results);
      RenderCodes(v, t, codes[..i + 1], cur, sev, stamp, results)
      == if d.Undefined? then Undefined(d.fault) else Ok(Step(acc.text + d.value.text, d.value.cur, acc.trace + d.value.trace))
  {
    assert codes[..i + 1][..i] == codes[..i];
  }

  /** Once a prefix faults, so do the whole codes, with the same fault. */
  lemma {:induction false} PrefixFaultPersists(v: Variant, t: Template, codes: seq<Code>, n: nat, cur: Cursors, sev: Level, stamp: string, results: Results)
    requires n <= |codes|
    requires RenderCodes(v, t, codes[..n], cur, sev, stamp, results).Undefined?
    ensures RenderCodes(v, t, codes, cur, sev, stamp, results) == RenderCodes(v, t, codes[..n], cur, sev, stamp, results)
    decreases |codes| - n
  {
    if n < |codes| {
      assert codes[..n + 1][..n] == codes[..n];
      PrefixFaultPersists(v, t, codes, n + 1, cur, sev, stamp, results);
    } else {
      assert codes[..n] == codes;
    }
  }
}
