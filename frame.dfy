/**
 * The per-frame uniform push of large-circle-v2.py (`Options.set`), as the
 * list of (uniform, value) pushes it makes rather than as OpenGL calls, and
 * the shape of that list.
 */
module FrameSync {
  import opened Registry
  import Events

  /** The uniforms the shader declares, as the frame push names them. */
  datatype UniformName =
    | UIdleDisplayMode | URatio | UTime | UWedges | UBlinkToggle | URotationSpeed
    | UFocusR1 | UFocusR2 | UFocusColor | UCommandMode | UGrids
    | UNumSelectedPatches | USelectedPatches | UNumRings | UMaxR | URingEdges

  /** The GLSL identifier glGetUniformLocation is given for a uniform. */
  function GlslName(u: UniformName): string {
    match u
    case UIdleDisplayMode => "uIdleDisplayMode"
    case URatio => "uRatio"
    case UTime => "uTime"
    case UWedges => "uWedges"
    case UBlinkToggle => "uBlinkToggle"
    case URotationSpeed => "uRotationSpeed"
    case UFocusR1 => "uFocusR1"
    case UFocusR2 => "uFocusR2"
    case UFocusColor => "uFocusColor"
    case UCommandMode => "uCommandMode"
    case UGrids => "uGrids"
    case UNumSelectedPatches => "uNumSelectedPatches"
    case USelectedPatches => "uSelectedPatches"
    case UNumRings => "uNumRings"
    case UMaxR => "uMaxR"
    case URingEdges => "uRingEdges"
  }

  /** A uniform location: a plain uniform, or element `index` of a uniform array (`name[index]`). */
  datatype Location = Uniform(name: UniformName) | Element(name: UniformName, index: nat)

  /** What one glUniform call sends: glUniform1i, glUniform1f or glUniform3f. */
  datatype Payload = Int1(i: int) | Float1(r: real) | Float3(v: Vec3)

  datatype Push = Push(at: Location, value: Payload)

  datatype Status = Synced | Failed(error: Events.PyError)

  /** The pushes one frame made, in order, and whether it got to its end. */
  datatype FrameResult = FrameResult(pushes: seq<Push>, status: Status)

  /** The bound both arrays must stay below. */
  const MaxEntries := 100

  /** A bool pushed with glUniform1i. */
  function Bool1(b: bool): Payload {
    Int1(if b then 1 else 0)
  }

  /**
   * The eleven scalar uniforms every frame pushes first: each to a plain
   * uniform, no uniform twice.
   */
  function ScalarPushes(s: Settings, now: real): (r: seq<Push>)
    ensures |r| == 11
    ensures forall i :: 0 <= i < |r| ==> r[i].at.Uniform?
    ensures forall i, j :: 0 <= i < j < |r| ==> r[i].at != r[j].at
  {
    [ Push(Uniform(UIdleDisplayMode), Int1(s.idleDisplayMode)),
      Push(Uniform(URatio), Float1(s.ratio)),
      Push(Uniform(UTime), Float1(now - s.tic)),
      Push(Uniform(UWedges), Int1(s.wedges)),
      Push(Uniform(UBlinkToggle), Bool1(s.blinkToggle)),
      Push(Uniform(URotationSpeed), Float1(s.rotationSpeed)),
      Push(Uniform(UFocusR1), Float1(s.focusR1)),
      Push(Uniform(UFocusR2), Float1(s.focusR2)),
      Push(Uniform(UFocusColor), Float3(s.focusColor)),
      Push(Uniform(UCommandMode), Bool1(s.commandMode)),
      Push(Uniform(UGrids), Int1(s.grids)) ]
  }

  /** The glUniform3f payload of each selected patch, in order. */
  function PatchPayloads(ps: seq<Vec3>): seq<Payload> {
    seq(|ps|, i requires 0 <= i < |ps| => Float3(ps[i]))
  }

  /** The glUniform1f payload of each ring edge, in order. */
  function EdgePayloads(es: seq<real>): seq<Payload> {
    seq(|es|, i requires 0 <= i < |es| => Float1(es[i]))
  }

  /** The pushes of `name[0]` .. `name[k-1]`, as the loop `for i in range(k)` makes them. */
  function Indexed(name: UniformName, vals: seq<Payload>, k: nat): (r: seq<Push>)
    requires k <= |vals|
    ensures |r| == k
  {
    if k == 0 then [] else Indexed(name, vals, k - 1) + [Push(Element(name, k - 1), vals[k - 1])]
  }

  /** The selected-patch count and its elements. */
  function PatchRun(s: Settings): seq<Push> {
    var n := |s.selectedPatches|;
    [Push(Uniform(UNumSelectedPatches), Int1(n))] + Indexed(USelectedPatches, PatchPayloads(s.selectedPatches), n)
  }

  /** The ring count. */
  function RingCount(s: Settings): Push {
    Push(Uniform(UNumRings), Int1(|s.ringEdges|))
  }

  /** `uMaxR`, the last ring edge, and the ring-edge elements. */
  function EdgeRun(s: Settings): seq<Push>
    requires |s.ringEdges| > 0
  {
    var m := |s.ringEdges|;
    [Push(Uniform(UMaxR), Float1(s.ringEdges[m - 1]))] + Indexed(URingEdges, EdgePayloads(s.ringEdges), m)
  }

  /**
   * `Options.set` at clock reading `now`: the scalars, the selected-patch
   * count and elements, the ring count, `uMaxR` (the last ring edge) and the
   * ring-edge elements. Each length check fails with AssertionError and an
   * empty ring list fails with IndexError, after the pushes made so far.
   */
  function Frame(s: Settings, now: real): (r: FrameResult)
    ensures r.status == Synced <==> |s.selectedPatches| < MaxEntries && 0 < |s.ringEdges| < MaxEntries
    ensures r.status == Failed(Events.AssertionError) <==> |s.selectedPatches| >= MaxEntries || |s.ringEdges| >= MaxEntries
    ensures r.status == Failed(Events.IndexError) <==> |s.selectedPatches| < MaxEntries && |s.ringEdges| == 0
  {
    var head := ScalarPushes(s, now);
    if |s.selectedPatches| >= MaxEntries then FrameResult(head, Failed(Events.AssertionError))
    else
      var patched := head + PatchRun(s);
      var m := |s.ringEdges|;
      if m >= MaxEntries then FrameResult(patched, Failed(Events.AssertionError))
      else
        var counted := patched + [RingCount(s)];
        if m == 0 then FrameResult(counted, Failed(Events.IndexError))
        else FrameResult(counted + EdgeRun(s), Synced)
  }

  /** Every frame, however it ends, starts with the eleven scalar pushes. */
  lemma FrameStartsWithScalars(s: Settings, now: real)
    ensures |Frame(s, now).pushes| >= 11 && Frame(s, now).pushes[..11] == ScalarPushes(s, now)
  {
    var h := ScalarPushes(s, now);
    var ps := Frame(s, now).pushes;
    var rest := ps[|h|..];
    assert |h| == 11;
    assert ps == h + rest;
  }

  /** The (index, value) pairs pushed to elements of the array uniform `name`, in push order. */
  function ElementsOf(ps: seq<Push>, name: UniformName): seq<(nat, Payload)> {
    if ps == [] then []
    else (if ps[0].at.Element? && ps[0].at.name == name then [(ps[0].at.index, ps[0].value)] else [])
         + ElementsOf(ps[1..], name)
  }

  /** The values pushed to the plain uniform `name`, in push order. */
  function ValuesOf(ps: seq<Push>, name: UniformName): seq<Payload> {
    if ps == [] then []
    else (if ps[0].at == Uniform(name) then [ps[0].value] else []) + ValuesOf(ps[1..], name)
  }

  lemma {:induction false} ElementsOfConcat(a: seq<Push>, b: seq<Push>, name: UniformName)
    ensures ElementsOf(a + b, name) == ElementsOf(a, name) + ElementsOf(b, name)
    decreases |a|
  {
    if a != [] {
      assert (a + b)[1..] == a[1..] + b;
      ElementsOfConcat(a[1..], b, name);
    } else {
      assert a + b == b;
    }
  }

  lemma {:induction false} ValuesOfConcat(a: seq<Push>, b: seq<Push>, name: UniformName)
    ensures ValuesOf(a + b, name) == ValuesOf(a, name) + ValuesOf(b, name)
    decreases |a|
  {
    if a != [] {
      assert (a + b)[1..] == a[1..] + b;
      ValuesOfConcat(a[1..], b, name);
    } else {
      assert a + b == b;
    }
  }

  /** Appending one push adds what that push contributes. */
  lemma AppendOne(a: seq<Push>, x: Push, name: UniformName)
    ensures ElementsOf(a + [x], name)
            == ElementsOf(a, name) + (if x.at.Element? && x.at.name == name then [(x.at.index, x.value)] else [])
    ensures ValuesOf(a + [x], name) == ValuesOf(a, name) + (if x.at == Uniform(name) then [x.value] else [])
  {
    ElementsOfConcat(a, [x], name);
    ValuesOfConcat(a, [x], name);
    Single(x, name);
  }

  lemma {:induction false} PlainOnly(ps: seq<Push>, name: UniformName)
    requires forall i :: 0 <= i < |ps| ==> ps[i].at.Uniform?
    ensures ElementsOf(ps, name) == []
    decreases |ps|
  {
    if ps != [] {
      PlainOnly(ps[1..], name);
    }
  }

  lemma {:induction false} NoneNamed(ps: seq<Push>, name: UniformName)
    requires forall i :: 0 <= i < |ps| ==> ps[i].at != Uniform(name)
    ensures ValuesOf(ps, name) == []
    decreases |ps|
  {
    if ps != [] {
      NoneNamed(ps[1..], name);
    }
  }

  /** The indexed pushes of one array are exactly its elements 0 .. k-1, in order, with their values. */
  lemma {:induction false} IndexedOwn(name: UniformName, vals: seq<Payload>, k: nat)
    requires k <= |vals|
    ensures var es := ElementsOf(Indexed(name, vals, k), name);
      |es| == k && forall i :: 0 <= i < k ==> es[i] == (i, vals[i])
  {
    if k > 0 {
      var prev := Indexed(name, vals, k - 1);
      var last := Push(Element(name, k - 1), vals[k - 1]);
      IndexedOwn(name, vals, k - 1);
      AppendOne(prev, last, name);
    }
  }

  /** They push no element of any other array. */
  lemma {:induction false} IndexedOther(name: UniformName, vals: seq<Payload>, k: nat, other: UniformName)
    requires k <= |vals| && other != name
    ensures ElementsOf(Indexed(name, vals, k), other) == []
  {
    if k > 0 {
      var last := Push(Element(name, k - 1), vals[k - 1]);
      IndexedOther(name, vals, k - 1, other);
      AppendOne(Indexed(name, vals, k - 1), last, other);
    }
  }

  /** And no plain uniform. */
  lemma {:induction false} IndexedNoValues(name: UniformName, vals: seq<Payload>, k: nat, other: UniformName)
    requires k <= |vals|
    ensures ValuesOf(Indexed(name, vals, k), other) == []
  {
    if k > 0 {
      var last := Push(Element(name, k - 1), vals[k - 1]);
      IndexedNoValues(name, vals, k - 1, other);
      AppendOne(Indexed(name, vals, k - 1), last, other);
    }
  }

  lemma IndexedElements(name: UniformName, vals: seq<Payload>, k: nat, other: UniformName)
    requires k <= |vals|
    ensures var es := ElementsOf(Indexed(name, vals, k), other);
      if other == name then |es| == k && forall i :: 0 <= i < k ==> es[i] == (i, vals[i])
      else es == []
    ensures ValuesOf(Indexed(name, vals, k), other) == []
  {
    if other == name {
      IndexedOwn(name, vals, k);
    } else {
      IndexedOther(name, vals, k, other);
    }
    IndexedNoValues(name, vals, k, other);
  }

  lemma ScalarShape(s: Settings, now: real, name: UniformName)
    requires name in {UNumSelectedPatches, UNumRings, UMaxR}
    ensures ElementsOf(ScalarPushes(s, now), USelectedPatches) == []
    ensures ElementsOf(ScalarPushes(s, now), URingEdges) == []
    ensures ValuesOf(ScalarPushes(s, now), name) == []
  {
    var h := ScalarPushes(s, now);
    PlainOnly(h, USelectedPatches);
    PlainOnly(h, URingEdges);
    NoneNamed(h, name);
  }

  lemma Single(p: Push, name: UniformName)
    ensures ValuesOf([p], name) == if p.at == Uniform(name) then [p.value] else []
    ensures ElementsOf([p], name) == if p.at.Element? && p.at.name == name then [(p.at.index, p.value)] else []
  {
    assert [p][1..] == [];
  }

  /** The patch run pushes the count once and then the patch elements. */
  lemma PatchRunShape(s: Settings, name: UniformName)
    ensures var n := |s.selectedPatches|;
      ElementsOf(PatchRun(s), name) == ElementsOf(Indexed(USelectedPatches, PatchPayloads(s.selectedPatches), n), name)
      && ValuesOf(PatchRun(s), name) == (if name == UNumSelectedPatches then [Int1(n)] else [])
  {
    var n := |s.selectedPatches|;
    var p := Push(Uniform(UNumSelectedPatches), Int1(n));
    var run := Indexed(USelectedPatches, PatchPayloads(s.selectedPatches), n);
    ElementsOfConcat([p], run, name);
    ValuesOfConcat([p], run, name);
    Single(p, name);
    IndexedElements(USelectedPatches, PatchPayloads(s.selectedPatches), n, name);
  }

  /** The edge run pushes `uMaxR` once and then the edge elements. */
  lemma EdgeRunShape(s: Settings, name: UniformName)
    requires |s.ringEdges| > 0
    ensures var m := |s.ringEdges|;
      ElementsOf(EdgeRun(s), name) == ElementsOf(Indexed(URingEdges, EdgePayloads(s.ringEdges), m), name)
      && ValuesOf(EdgeRun(s), name) == (if name == UMaxR then [Float1(s.ringEdges[m - 1])] else [])
  {
    var m := |s.ringEdges|;
    var p := Push(Uniform(UMaxR), Float1(s.ringEdges[m - 1]));
    var run := Indexed(URingEdges, EdgePayloads(s.ringEdges), m);
    ElementsOfConcat([p], run, name);
    ValuesOfConcat([p], run, name);
    Single(p, name);
    IndexedElements(URingEdges, EdgePayloads(s.ringEdges), m, name);
  }

  /** Four consecutive parts of which only the second and the fourth push elements of `name`. */
  lemma {:induction false} TwoRuns(h: seq<Push>, p: seq<Push>, c: seq<Push>, e: seq<Push>, name: UniformName)
    requires ElementsOf(h, name) == [] && ElementsOf(c, name) == []
    ensures ElementsOf(h + p + c + e, name) == ElementsOf(p, name) + ElementsOf(e, name)
  {
    ElementsOfConcat(h + p + c, e, name);
    ElementsOfConcat(h + p, c, name);
    ElementsOfConcat(h, p, name);
  }

  /** Four consecutive parts of which the first pushes no value of `name`. */
  lemma {:induction false} LaterValues(h: seq<Push>, p: seq<Push>, c: seq<Push>, e: seq<Push>, name: UniformName)
    requires ValuesOf(h, name) == []
    ensures ValuesOf(h + p + c + e, name) == ValuesOf(p, name) + ValuesOf(c, name) + ValuesOf(e, name)
  {
    ValuesOfConcat(h + p + c, e, name);
    ValuesOfConcat(h + p, c, name);
    ValuesOfConcat(h, p, name);
  }

  /** Of a completed frame, only the two indexed runs push array elements. */
  lemma ElementRuns(s: Settings, now: real, name: UniformName)
    requires Frame(s, now).status == Synced
    ensures ElementsOf(Frame(s, now).pushes, name)
            == ElementsOf(Indexed(USelectedPatches, PatchPayloads(s.selectedPatches), |s.selectedPatches|), name)
               + ElementsOf(Indexed(URingEdges, EdgePayloads(s.ringEdges), |s.ringEdges|), name)
  {
    var h, p, c, e := ScalarPushes(s, now), PatchRun(s), [RingCount(s)], EdgeRun(s);
    assert Frame(s, now).pushes == h + p + c + e;
    PlainOnly(h, name);
    Single(RingCount(s), name);
    TwoRuns(h, p, c, e, name);
    PatchRunShape(s, name);
    EdgeRunShape(s, name);
  }

  /**
   * A frame that completes pushes exactly n selected-patch elements,
   * indices 0 .. n-1 with the current values, so nothing from an earlier,
   * longer list survives.
   */
  lemma FramePatchElements(s: Settings, now: real)
    requires Frame(s, now).status == Synced
    ensures var es := ElementsOf(Frame(s, now).pushes, USelectedPatches);
      |es| == |s.selectedPatches|
      && forall i :: 0 <= i < |s.selectedPatches| ==> es[i] == (i, Float3(s.selectedPatches[i]))
  {
    var name := USelectedPatches;
    ElementRuns(s, now, name);
    IndexedElements(name, PatchPayloads(s.selectedPatches), |s.selectedPatches|, name);
    IndexedElements(URingEdges, EdgePayloads(s.ringEdges), |s.ringEdges|, name);
  }

  /** Likewise for the m ring edges. */
  lemma FrameEdgeElements(s: Settings, now: real)
    requires Frame(s, now).status == Synced
    ensures var es := ElementsOf(Frame(s, now).pushes, URingEdges);
      |es| == |s.ringEdges|
      && forall i :: 0 <= i < |s.ringEdges| ==> es[i] == (i, Float1(s.ringEdges[i]))
  {
    var m := |s.ringEdges|;
    var vals := EdgePayloads(s.ringEdges);
    var b := ElementsOf(Indexed(URingEdges, vals, m), URingEdges);
    ElementRuns(s, now, URingEdges);
    IndexedElements(USelectedPatches, PatchPayloads(s.selectedPatches), |s.selectedPatches|, URingEdges);
    assert ElementsOf(Frame(s, now).pushes, URingEdges) == b;
    IndexedElements(URingEdges, vals, m, URingEdges);
    forall i | 0 <= i < m
      ensures b[i] == (i, Float1(s.ringEdges[i]))
    {
      assert vals[i] == Float1(s.ringEdges[i]);
    }
  }

  /** The values a completed frame pushes to a count or to `uMaxR`. */
  lemma CountValues(s: Settings, now: real, name: UniformName)
    requires Frame(s, now).status == Synced
    requires name in {UNumSelectedPatches, UNumRings, UMaxR}
    ensures ValuesOf(Frame(s, now).pushes, name)
            == (if name == UNumSelectedPatches then [Int1(|s.selectedPatches|)] else [])
               + ValuesOf([RingCount(s)], name)
               + (if name == UMaxR then [Float1(s.ringEdges[|s.ringEdges| - 1])] else [])
  {
    var h, p, c, e := ScalarPushes(s, now), PatchRun(s), [RingCount(s)], EdgeRun(s);
    assert Frame(s, now).pushes == h + p + c + e;
    ScalarShape(s, now, name);
    LaterValues(h, p, c, e, name);
    PatchRunShape(s, name);
    EdgeRunShape(s, name);
  }

  /**
   * A frame that completes pushes each count once, equal to its list's
   * length, and `uMaxR` once, equal to the last ring edge.
   */
  lemma FrameCounts(s: Settings, now: real)
    requires Frame(s, now).status == Synced
    ensures ValuesOf(Frame(s, now).pushes, UNumSelectedPatches) == [Int1(|s.selectedPatches|)]
    ensures ValuesOf(Frame(s, now).pushes, UNumRings) == [Int1(|s.ringEdges|)]
    ensures ValuesOf(Frame(s, now).pushes, UMaxR) == [Float1(s.ringEdges[|s.ringEdges| - 1])]
  {
    CountValues(s, now, UNumSelectedPatches);
    CountValues(s, now, UNumRings);
    CountValues(s, now, UMaxR);
    Single(RingCount(s), UNumSelectedPatches);
    Single(RingCount(s), UNumRings);
    Single(RingCount(s), UMaxR);
  }

  /** A frame stopped by the patch-count check has pushed the eleven scalars and no array element at all. */
  lemma FrameTooManyPatches(s: Settings, now: real)
    requires |s.selectedPatches| >= MaxEntries
    ensures Frame(s, now).pushes == ScalarPushes(s, now)
    ensures ElementsOf(Frame(s, now).pushes, USelectedPatches) == []
    ensures ElementsOf(Frame(s, now).pushes, URingEdges) == []
  {
    ScalarShape(s, now, UMaxR);
  }

  /** A uniform the scalar head pushes, none of which the later runs touch. */
  predicate IsScalar(u: UniformName) {
    u !in {UNumSelectedPatches, USelectedPatches, UNumRings, UMaxR, URingEdges}
  }

  /** A push list naming a plain uniform at exactly one position carries exactly that one value for it. */
  lemma OnlyAt(ps: seq<Push>, k: nat, name: UniformName)
    requires k < |ps| && ps[k].at == Uniform(name)
    requires forall i :: 0 <= i < |ps| && i != k ==> ps[i].at != Uniform(name)
    ensures ValuesOf(ps, name) == [ps[k].value]
  {
    var a, b := ps[..k], ps[k + 1..];
    assert ps == a + [ps[k]] + b;
    ValuesOfConcat(a + [ps[k]], b, name);
    ValuesOfConcat(a, [ps[k]], name);
    NoneNamed(a, name);
    NoneNamed(b, name);
    Single(ps[k], name);
  }

  /** Whatever follows the scalar head pushes no scalar uniform, however the frame ends. */
  lemma LaterNoScalar(s: Settings, now: real, name: UniformName)
    requires IsScalar(name)
    ensures ValuesOf(Frame(s, now).pushes, name) == ValuesOf(ScalarPushes(s, now), name)
  {
    var h, p, c := ScalarPushes(s, now), PatchRun(s), [RingCount(s)];
    var n, m := |s.selectedPatches|, |s.ringEdges|;
    PatchRunShape(s, name);
    Single(RingCount(s), name);
    AppendNone(h, p, name);
    AppendNone(h + p, c, name);
    if n >= MaxEntries {
      assert Frame(s, now).pushes == h;
    } else if m >= MaxEntries {
      assert Frame(s, now).pushes == h + p;
    } else if m == 0 {
      assert Frame(s, now).pushes == h + p + c;
    } else {
      EdgeRunShape(s, name);
      AppendNone(h + p + c, EdgeRun(s), name);
      assert Frame(s, now).pushes == h + p + c + EdgeRun(s);
    }
  }

  lemma AppendNone(a: seq<Push>, b: seq<Push>, name: UniformName)
    requires ValuesOf(b, name) == []
    ensures ValuesOf(a + b, name) == ValuesOf(a, name)
  {
    ValuesOfConcat(a, b, name);
    assert ValuesOf(a, name) + [] == ValuesOf(a, name);
  }

  /** The k-th scalar push is the only value its uniform receives in the whole frame. */
  lemma FrameScalarValue(s: Settings, now: real, k: nat)
    requires k < 11
    ensures var h := ScalarPushes(s, now);
      ValuesOf(Frame(s, now).pushes, h[k].at.name) == [h[k].value]
  {
    var h := ScalarPushes(s, now);
    var name := h[k].at.name;
    assert IsScalar(name);
    OnlyAt(h, k, name);
    LaterNoScalar(s, now, name);
  }

  /**
   * Every frame, complete or not, pushes each scalar uniform exactly once,
   * with the current value of its field; `uTime` gets the time since `tic`.
   */
  lemma FrameScalars(s: Settings, now: real)
    ensures ValuesOf(Frame(s, now).pushes, UIdleDisplayMode) == [Int1(s.idleDisplayMode)]
    ensures ValuesOf(Frame(s, now).pushes, URatio) == [Float1(s.ratio)]
    ensures ValuesOf(Frame(s, now).pushes, UTime) == [Float1(now - s.tic)]
    ensures ValuesOf(Frame(s, now).pushes, UWedges) == [Int1(s.wedges)]
    ensures ValuesOf(Frame(s, now).pushes, UBlinkToggle) == [Int1(if s.blinkToggle then 1 else 0)]
    ensures ValuesOf(Frame(s, now).pushes, URotationSpeed) == [Float1(s.rotationSpeed)]
    ensures ValuesOf(Frame(s, now).pushes, UFocusR1) == [Float1(s.focusR1)]
    ensures ValuesOf(Frame(s, now).pushes, UFocusR2) == [Float1(s.focusR2)]
    ensures ValuesOf(Frame(s, now).pushes, UFocusColor) == [Float3(s.focusColor)]
    ensures ValuesOf(Frame(s, now).pushes, UCommandMode) == [Int1(if s.commandMode then 1 else 0)]
    ensures ValuesOf(Frame(s, now).pushes, UGrids) == [Int1(s.grids)]
  {
    FrameIntScalars(s, now);
    FrameFloatScalars(s, now);
  }

  /** The five scalars pushed with glUniform1i. */
  lemma FrameIntScalars(s: Settings, now: real)
    ensures ValuesOf(Frame(s, now).pushes, UIdleDisplayMode) == [Int1(s.idleDisplayMode)]
    ensures ValuesOf(Frame(s, now).pushes, UWedges) == [Int1(s.wedges)]
    ensures ValuesOf(Frame(s, now).pushes, UBlinkToggle) == [Int1(if s.blinkToggle then 1 else 0)]
    ensures ValuesOf(Frame(s, now).pushes, UCommandMode) == [Int1(if s.commandMode then 1 else 0)]
    ensures ValuesOf(Frame(s, now).pushes, UGrids) == [Int1(s.grids)]
  {
    FrameScalarValue(s, now, 0);
    FrameScalarValue(s, now, 3);
    FrameScalarValue(s, now, 4);
    FrameScalarValue(s, now, 9);
    FrameScalarValue(s, now, 10);
  }

  /** The six scalars pushed with glUniform1f or glUniform3f. */
  lemma FrameFloatScalars(s: Settings, now: real)
    ensures ValuesOf(Frame(s, now).pushes, URatio) == [Float1(s.ratio)]
    ensures ValuesOf(Frame(s, now).pushes, UTime) == [Float1(now - s.tic)]
    ensures ValuesOf(Frame(s, now).pushes, URotationSpeed) == [Float1(s.rotationSpeed)]
    ensures ValuesOf(Frame(s, now).pushes, UFocusR1) == [Float1(s.focusR1)]
    ensures ValuesOf(Frame(s, now).pushes, UFocusR2) == [Float1(s.focusR2)]
    ensures ValuesOf(Frame(s, now).pushes, UFocusColor) == [Float3(s.focusColor)]
  {
    FrameScalarValue(s, now, 1);
    FrameScalarValue(s, now, 2);
    FrameScalarValue(s, now, 5);
    FrameScalarValue(s, now, 6);
    FrameScalarValue(s, now, 7);
    FrameScalarValue(s, now, 8);
  }
}
