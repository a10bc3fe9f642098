/** The format template (`llfmt`): a list of segments of directive codes, and
    two side lists, literal texts and closures, that the literal and closure
    directives consume in the order they were inserted. */
module Template {

  /** A directive code as a segment stores it. */
  type Code = nat

  const LiteralCode: Code := 0
  const ClosureCode: Code := 3
  /** Entries in the render-routine table; a code at or above it has none. */
  const TableSize: nat := 4

  /** A stored or payload closure, known only by identity. */
  type ClosureId = nat

  /** The five level labels, `fatal` .. `info`. */
  type LevelNames = s: seq<string> | |s| == 5 witness ["", "", "", "", ""]

  /** The two info tokens a template can hold. */
  datatype InfoToken = LevelInfo | TimeInfo

  /** The two variants of the logger, which number the info tokens differently. */
  datatype Variant = Include | Src

  /** The code an info token is stored as: `level = 1, time = 2` in the include
      variant, `time = 1, level = 2` in the src variant. */
  function InfoCode(v: Variant, i: InfoToken): (c: Code)
    ensures LiteralCode < c < ClosureCode
  {
    match (v, i)
    case (Include, LevelInfo) => 1
    case (Include, TimeInfo) => 2
    case (Src, TimeInfo) => 1
    case (Src, LevelInfo) => 2
  }

  datatype Template = Template(segs: seq<seq<Code>>, lits: seq<string>, cbs: seq<ClosureId>, names: LevelNames)

  /** The segment insertions currently go to. */
  function Last(segs: seq<seq<Code>>): seq<Code>
    requires |segs| >= 1
  {
    segs[|segs| - 1]
  }

  /** Occurrences of `c` in one segment. */
  function Count(codes: seq<Code>, c: Code): nat {
    multiset(codes)[c]
  }

  /** Occurrences of `c` across all segments. */
  function Total(segs: seq<seq<Code>>, c: Code): nat
    decreases |segs|
  {
    if segs == [] then 0 else Total(segs[..|segs| - 1], c) + Count(Last(segs), c)
  }

  /** Every code has a render routine. */
  predicate KnownCodes(segs: seq<seq<Code>>) {
    forall i, j :: 0 <= i < |segs| && 0 <= j < |segs[i]| ==> segs[i][j] < TableSize
  }

  /** The template invariant: there is an open segment, every code is known,
      and the literal and closure directives are exactly as many as the
      entries of their side lists. */
  predicate Valid(t: Template) {
    && |t.segs| >= 1
    && KnownCodes(t.segs)
    && Total(t.segs, LiteralCode) == |t.lits|
    && Total(t.segs, ClosureCode) == |t.cbs|
  }

  /** A freshly constructed template: one empty segment, no literal, no closure. */
  function New(names: LevelNames): (t: Template)
    ensures |t.segs| == 1 && t.segs[0] == []
    ensures t.lits == [] && t.cbs == [] && t.names == names
    ensures Valid(t)
  {
    Template([[]], [], [], names)
  }

  /** Appends `c` to the last segment, leaving everything else alone. */
  function Push(t: Template, c: Code): (r: Template)
    requires |t.segs| >= 1
    ensures |r.segs| == |t.segs|
    ensures forall i :: 0 <= i < |t.segs| - 1 ==> r.segs[i] == t.segs[i]
    ensures Last(r.segs) == Last(t.segs) + [c]
    ensures r.lits == t.lits && r.cbs == t.cbs && r.names == t.names
  {
    var n := |t.segs|;
    t.(segs := t.segs[..n - 1] + [t.segs[n - 1] + [c]])
  }

  /** Appending `c` adds one occurrence of `c` to the totals and keeps every
      code known when `c` is. */
  lemma PushCounts(t: Template, c: Code)
    requires |t.segs| >= 1
    ensures Total(Push(t, c).segs, LiteralCode) == Total(t.segs, LiteralCode) + (if c == LiteralCode then 1 else 0)
    ensures Total(Push(t, c).segs, ClosureCode) == Total(t.segs, ClosureCode) + (if c == ClosureCode then 1 else 0)
    ensures c < TableSize && KnownCodes(t.segs) ==> KnownCodes(Push(t, c).segs)
  {
    var r, n := Push(t, c), |t.segs|;
    assert r.segs[..n - 1] == t.segs[..n - 1];
    assert multiset(Last(r.segs)) == multiset(Last(t.segs)) + multiset{c};
  }

  /** Inserting literal text appends a literal directive and the text. */
  function InsertLiteral(t: Template, text: string): (r: Template)
    requires |t.segs| >= 1
    ensures |r.segs| == |t.segs|
    ensures forall i :: 0 <= i < |t.segs| - 1 ==> r.segs[i] == t.segs[i]
    ensures Last(r.segs) == Last(t.segs) + [LiteralCode]
    ensures r.lits == t.lits + [text] && r.cbs == t.cbs && r.names == t.names
  {
    var r := Push(t, LiteralCode);
    r.(lits := r.lits + [text])
  }

  /** Inserting an info token appends its variant's code and no list entry. */
  function InsertInfo(t: Template, v: Variant, i: InfoToken): (r: Template)
    requires |t.segs| >= 1
    ensures |r.segs| == |t.segs|
    ensures forall i :: 0 <= i < |t.segs| - 1 ==> r.segs[i] == t.segs[i]
    ensures Last(r.segs) == Last(t.segs) + [InfoCode(v, i)]
    ensures r.lits == t.lits && r.cbs == t.cbs && r.names == t.names
  {
    Push(t, InfoCode(v, i))
  }

  /** Inserting a closure appends a closure directive and the closure, which
      is stored, not invoked. */
  function InsertClosure(t: Template, id: ClosureId): (r: Template)
    requires |t.segs| >= 1
    ensures |r.segs| == |t.segs|
    ensures forall i :: 0 <= i < |t.segs| - 1 ==> r.segs[i] == t.segs[i]
    ensures Last(r.segs) == Last(t.segs) + [ClosureCode]
    ensures r.lits == t.lits && r.cbs == t.cbs + [id] && r.names == t.names
  {
    var r := Push(t, ClosureCode);
    r.(cbs := r.cbs + [id])
  }

  /** The data marker opens a new, empty segment after the existing ones. */
  function NewSegment(t: Template): (r: Template)
    ensures |r.segs| == |t.segs| + 1 && r.segs[..|t.segs|] == t.segs
    ensures Last(r.segs) == []
    ensures r.lits == t.lits && r.cbs == t.cbs && r.names == t.names
    ensures Total(r.segs, LiteralCode) == Total(t.segs, LiteralCode)
    ensures Total(r.segs, ClosureCode) == Total(t.segs, ClosureCode)
  {
    var r := t.(segs := t.segs + [[]]);
    assert r.segs[..|t.segs|] == t.segs;
    r
  }

  /** The default template `"[" time "] " level ": " <data marker>` as each
      variant builds it. */
  function Default(v: Variant, names: LevelNames): (t: Template)
    ensures t.segs == [[LiteralCode, InfoCode(v, TimeInfo), LiteralCode, InfoCode(v, LevelInfo), LiteralCode], []]
    ensures t.lits == ["[", "] ", ": "] && t.cbs == [] && t.names == names
  {
    var p := DefaultPrefix(v, names);
    var t := NewSegment(p);
    assert t.segs == p.segs + [[]];
    t
  }

  /** The default template satisfies the template invariant. */
  lemma DefaultValid(v: Variant, names: LevelNames)
    ensures Valid(Default(v, names))
  {
    DefaultShapeValid(Default(v, names), InfoCode(v, TimeInfo), InfoCode(v, LevelInfo));
  }

  /** Any template shaped like the default one, with the two info codes in
      either order, satisfies the template invariant. */
  lemma DefaultShapeValid(t: Template, a: Code, b: Code)
    requires t.segs == [[LiteralCode, a, LiteralCode, b, LiteralCode], []]
    requires a in {1, 2} && b in {1, 2}
    requires |t.lits| == 3 && t.cbs == []
    ensures Valid(t)
  {
    PrefixCounts(t.segs[0], a, b);
    TwoSegmentTotal(t.segs, LiteralCode);
    TwoSegmentTotal(t.segs, ClosureCode);
  }

  /** Literal and closure directives of the default prefix segment. */
  lemma PrefixCounts(codes: seq<Code>, a: Code, b: Code)
    requires codes == [LiteralCode, a, LiteralCode, b, LiteralCode]
    requires a in {1, 2} && b in {1, 2}
    ensures Count(codes, LiteralCode) == 3 && Count(codes, ClosureCode) == 0
  {
    var m := multiset{a, b};
    assert m[LiteralCode] == 0 && m[ClosureCode] == 0;
    assert multiset(codes) == multiset{LiteralCode, LiteralCode, LiteralCode} + m;
  }

  /** With a trailing empty segment, all occurrences are in the first one. */
  lemma TwoSegmentTotal(segs: seq<seq<Code>>, c: Code)
    requires |segs| == 2 && segs[1] == []
    ensures Total(segs, c) == Count(segs[0], c)
  {
    var front := segs[..1];
    assert front[..0] == [];
    assert Total(front, c) == Count(segs[0], c);
    assert Total(segs, c) == Total(front, c) + Count([], c);
  }

  /** The default template up to, not including, its data marker. */
  function DefaultPrefix(v: Variant, names: LevelNames): (t: Template)
    ensures t.segs == [[LiteralCode, InfoCode(v, TimeInfo), LiteralCode, InfoCode(v, LevelInfo), LiteralCode]]
    ensures t.lits == ["[", "] ", ": "] && t.cbs == [] && t.names == names
  {
    var time, level := InfoCode(v, TimeInfo), InfoCode(v, LevelInfo);
    var t2 := InsertInfo(InsertLiteral(New(names), "["), v, TimeInfo);
    assert |t2.segs| == 1;
    assert Last(t2.segs) == [LiteralCode, time];
    var t4 := InsertInfo(InsertLiteral(t2, "] "), v, LevelInfo);
    assert |t4.segs| == 1;
    assert Last(t4.segs) == [LiteralCode, time, LiteralCode, level];
    var t5 := InsertLiteral(t4, ": ");
    assert |t5.segs| == 1;
    assert Last(t5.segs) == [LiteralCode, time, LiteralCode, level, LiteralCode];
    assert t5.segs == [Last(t5.segs)];
    t5
  }

  /** Every insertion keeps the directive counts equal to the side-list
      lengths, so replay cursors never run past their lists. */
  lemma InsertionsPreserveValid(t: Template, text: string, v: Variant, i: InfoToken, id: ClosureId)
    requires Valid(t)
    ensures Valid(InsertLiteral(t, text))
    ensures Valid(InsertInfo(t, v, i))
    ensures Valid(InsertClosure(t, id))
    ensures Valid(NewSegment(t))
  {
    PushCounts(t, LiteralCode);
    PushCounts(t, InfoCode(v, i));
    PushCounts(t, ClosureCode);
  }

  /** A prefix of the segment list holds no more of a code than the whole. */
  lemma {:induction false} TotalPrefixBound(segs: seq<seq<Code>>, k: nat, c: Code)
    requires k <= |segs|
    ensures Total(segs[..k], c) <= Total(segs, c)
    decreases |segs|
  {
    if k < |segs| {
      var front := segs[..|segs| - 1];
      assert front[..k] == segs[..k];
      TotalPrefixBound(front, k, c);
    } else {
      assert segs[..k] == segs;
    }
  }

  /** Growing a prefix by one segment adds that segment's occurrences. */
  lemma TotalPrefixStep(segs: seq<seq<Code>>, k: nat, c: Code)
    requires k < |segs|
    ensures Total(segs[..k + 1], c) == Total(segs[..k], c) + Count(segs[k], c)
  {
    assert segs[..k + 1][..k] == segs[..k];
  }
}
