/** Bounds inference at the outermost level: the box of each producer that each consumer
    requires, their union, and the lets that define the region of every stage. */
module BoundsInference {
  import opened IR
  import opened Intervals
  import opened BoundsRules
  import opened Boxes
  import opened BoxesTouched
  import opened RegionVisitor
  import opened Pipeline
  import opened Text

  datatype CondValue = CondValue(cond: Expr, value: Expr)

  function Guarded(cond: Expr, cvs: seq<CondValue>, c: Tools): seq<CondValue> {
    seq(|cvs|, i requires 0 <= i < |cvs| => CondValue(c.simplify(And2(cond, cvs[i].cond)), cvs[i].value))
  }

  /** Values that are the same under all conditions are kept once. */
  function Combined(cvs: seq<CondValue>): seq<CondValue> {
    if |cvs| > 1 && (forall i :: 0 <= i < |cvs| ==> cvs[i].value == cvs[0].value)
    then [CondValue(ConstTrue(), cvs[0].value)] else cvs
  }

  function Defaults(d: Definition): seq<CondValue> {
    seq(|d.values|, k requires 0 <= k < |d.values| => CondValue(ConstTrue(), d.values[k]))
  }

  /** The values of the default and of the specializations from the i-th on. */
  function ExprsFrom(d: Definition, i: nat, c: Tools): seq<CondValue>
    requires i <= |d.specializations|
    decreases d, |d.specializations| - i, 0
  {
    if i == |d.specializations| then Defaults(d)
    else
      var s := d.specializations[i];
      Guarded(Not(s.cond), ExprsFrom(d, i + 1, c), c) + Guarded(s.cond, StageExprs(s.def, c), c)
  }

  /** compute_exprs_helper for a pure definition. */
  function StageExprs(d: Definition, c: Tools): seq<CondValue>
    decreases d, |d.specializations| + 1, 1
  {
    Combined(ExprsFrom(d, 0, c))
  }

  // ---------- stages ----------

  function StageVar(f: Func, arg: string): string { f.name + ".s0." + arg }
  function StageMin(f: Func, arg: string): string { StageVar(f, arg) + ".min" }
  function StageMax(f: Func, arg: string): string { StageVar(f, arg) + ".max" }

  /** populate_scope: symbols for the bounds over which the stage will be computed. */
  function StageScope(f: Func): Scope {
    map a | a in f.args :: Range(Var(Int(32), StageMin(f, a)), Var(Int(32), StageMax(f, a)))
  }

  const Reading := Mode(true, false, "")

  /** The boxes one value requires, under the condition on which it is evaluated. */
  function AddRequired(c: Tools, boxes: BoxMap, required: BoxMap, cond: Expr): BoxMap {
    map n | n in boxes.Keys + required.Keys ::
      if n in required then Merge(c, BoxOf(boxes, n), Box(Some(cond), required[n].bounds)) else boxes[n]
  }

  function RequiredBy(f: Func, cvs: seq<CondValue>, n: nat, c: Tools): BoxMap
    requires n <= |cvs|
  {
    if n == 0 then map[]
    else AddRequired(c, RequiredBy(f, cvs, n - 1, c), BoxesTouchedBy(Evaluate(cvs[n - 1].value), StageScope(f), true, false, "", c), cvs[n - 1].cond)
  }

  /** Everything a consumer requires of its producers. */
  function Requirements(f: Func, c: Tools): BoxMap {
    var cvs := StageExprs(f.def, c);
    RequiredBy(f, cvs, |cvs|, c)
  }

  function OutMin(f: Func, d: nat): Expr { Var(Int(32), f.name + ".min." + Digits(d)) }
  function OutExtent(f: Func, d: nat): Expr { Var(Int(32), f.name + ".extent." + Digits(d)) }

  /** The region required of an output is the size of its buffer. */
  function OutputBox(f: Func): Box {
    Box(None, seq(|f.args|, d requires 0 <= d < |f.args| =>
      Range(OutMin(f, d), Bin(Sub, Int(32), Bin(Add, Int(32), OutMin(f, d), OutExtent(f, d)), Imm(Int(32), 1)))))
  }

  /** A stage: its function, the boxes required of it by consumer, and the consumers.  The
      output buffer is entered under the stage's own number. */
  datatype Stage = Stage(func: Func, bounds: map<nat, Box>, consumers: seq<nat>)

  /** What each function requires. */
  function AllRequirements(funcs: seq<Func>, c: Tools): (all: seq<BoxMap>)
    ensures |all| == |funcs|
  {
    seq(|funcs|, i requires 0 <= i < |funcs| => Requirements(funcs[i], c))
  }

  /** The box of stage j that consumer i requires. */
  function BoxRequired(funcs: seq<Func>, required: seq<BoxMap>, i: nat, j: nat): Box
    requires i < |required| && j < |funcs|
  {
    BoxOf(required[i], funcs[j].name)
  }

  /** The boxes required of stage j by the consumers up to n, before outputs are added. */
  function BoundsUpTo(funcs: seq<Func>, required: seq<BoxMap>, j: nat, n: nat): map<nat, Box>
    requires j < |funcs| && n <= |required|
  {
    if n <= j + 1 then map[] else WithConsumer(BoundsUpTo(funcs, required, j, n - 1), n - 1, BoxRequired(funcs, required, n - 1, j))
  }

  function WithConsumer(bounds: map<nat, Box>, i: nat, b: Box): map<nat, Box> {
    if b.Empty() then bounds else bounds[i := b]
  }

  lemma {:induction false} BoundsUpToIs(funcs: seq<Func>, required: seq<BoxMap>, j: nat, n: nat)
    requires j < |funcs| && n <= |required|
    ensures forall i :: i in BoundsUpTo(funcs, required, j, n) <==> j < i < n && !BoxRequired(funcs, required, i, j).Empty()
    ensures forall i :: i in BoundsUpTo(funcs, required, j, n) ==> BoundsUpTo(funcs, required, j, n)[i] == BoxRequired(funcs, required, i, j)
  {
    if n > j + 1 { BoundsUpToIs(funcs, required, j, n - 1); }
  }

  function StageBounds(funcs: seq<Func>, required: seq<BoxMap>, j: nat, outputs: set<nat>): map<nat, Box>
    requires j < |funcs|
  {
    var b := BoundsUpTo(funcs, required, j, |required|);
    if j in outputs then b[j := OutputBox(funcs[j])] else b
  }

  /** A consumer may not require an unbounded region. */
  predicate BoundedFor(funcs: seq<Func>, required: seq<BoxMap>, i: nat)
    requires i < |required| == |funcs|
  {
    forall j :: 0 <= j < i ==> Bounded(BoxRequired(funcs, required, i, j))
  }

  predicate BoundedUpTo(funcs: seq<Func>, required: seq<BoxMap>, n: nat)
    requires n <= |required| == |funcs|
  {
    n == 0 || (BoundedUpTo(funcs, required, n - 1) && BoundedFor(funcs, required, n - 1))
  }

  predicate AllBounded(funcs: seq<Func>, required: seq<BoxMap>)
    requires |required| == |funcs|
  {
    BoundedUpTo(funcs, required, |funcs|)
  }

  lemma {:induction false} BoundedAt(funcs: seq<Func>, required: seq<BoxMap>, n: nat, i: nat)
    requires i < n <= |required| == |funcs| && BoundedUpTo(funcs, required, n)
    ensures BoundedFor(funcs, required, i)
  {
    if i < n - 1 { BoundedAt(funcs, required, n - 1, i); }
  }

  /** Merge the boxes of the consumers produced somewhere inside, in the given order. */
  function MergedBox(funcs: seq<Func>, bounds: map<nat, Box>, order: seq<nat>, inner: set<string>, c: Tools): Box {
    if order == [] then Box(None, [])
    else
      var i := order[|order| - 1];
      var b := MergedBox(funcs, bounds, order[..|order| - 1], inner, c);
      if i in bounds && i < |funcs| && funcs[i].name in inner then Merge(c, b, bounds[i]) else b
  }

  // ---------- lets ----------

  datatype Binding = Binding(name: string, value: Expr)

  /** The statement inside lets, the outermost first. */
  function Nest(lets: seq<Binding>, s: Stmt): Stmt {
    if lets == [] then s else LetStmt(lets[0].name, lets[0].value, Nest(lets[1..], s))
  }

  lemma {:induction false} NestSplits(a: seq<Binding>, b: seq<Binding>, s: Stmt)
    ensures Nest(a + b, s) == Nest(a, Nest(b, s))
  {
    if a == [] {
      assert a + b == b;
    } else {
      assert (a + b)[1..] == a[1..] + b;
      NestSplits(a[1..], b, s);
    }
  }

  /** The two lets of one dimension.  A single point is computed once. */
  function DimLets(f: Func, b: Box, d: nat): seq<Binding>
    requires d < |b.bounds| == |f.args| && Bounded(b)
  {
    var i, a := b.bounds[d], f.args[d];
    [Binding(StageMax(f, a), i.max.e),
     Binding(StageMin(f, a), if i.IsPoint() then Var(Int(32), StageMax(f, a)) else i.min.e)]
  }

  /** The lets of the dimensions from d on; later dimensions are further out. */
  function StageLets(f: Func, b: Box, d: nat): seq<Binding>
    requires (b.Empty() || |b.bounds| == |f.args|) && d <= |b.bounds| && Bounded(b)
    decreases |b.bounds| - d
  {
    if d == |b.bounds| then [] else StageLets(f, b, d + 1) + DimLets(f, b, d)
  }

  /** The region required of stage j. */
  function FinalBox(funcs: seq<Func>, required: seq<BoxMap>, j: nat, outputs: set<nat>, order: seq<nat>,
      inner: set<string>, c: Tools): Box
    requires j < |funcs|
  {
    MergedBox(funcs, StageBounds(funcs, required, j, outputs), order, inner, c)
  }

  /** The regions of all stages. */
  function FinalBoxesOf(funcs: seq<Func>, outputs: set<nat>, order: seq<nat>, inner: set<string>,
      c: Tools): (bs: seq<Box>)
    ensures |bs| == |funcs|
  {
    seq(|funcs|, j requires 0 <= j < |funcs| => FinalBox(funcs, AllRequirements(funcs, c), j, outputs, order, inner, c))
  }

  /** The boxes of the stages have ends in every dimension, and the right dimensions. */
  predicate BoxesFit(funcs: seq<Func>, boxes: seq<Box>) {
    |boxes| == |funcs| && forall j :: 0 <= j < |funcs| ==>
      Bounded(boxes[j]) && (boxes[j].Empty() || |boxes[j].bounds| == |funcs[j].args|)
  }

  /** The lets of the stages from j on; later stages are further out. */
  function LetsFrom(funcs: seq<Func>, boxes: seq<Box>, j: nat): seq<Binding>
    requires BoxesFit(funcs, boxes) && j <= |funcs|
    decreases |funcs| - j
  {
    if j == |funcs| then [] else LetsFrom(funcs, boxes, j + 1) + StageLets(funcs[j], boxes[j], 0)
  }

  // ---------- the pass ----------

  /** The pass itself, for the outermost loop: the constructor lays out the stages and the
      relations between them; the mutator wraps the body in lets. */
  class Inference {
    const funcs: seq<Func>
    const tools: Tools
    var stages: seq<Stage>

    constructor (fs: seq<Func>, c: Tools)
      ensures funcs == fs && tools == c && stages == []
    {
      funcs := fs;
      tools := c;
      stages := [];
    }

    ghost predicate RelatedUpTo(required: seq<BoxMap>, n: nat)
      requires n <= |required| == |funcs|
      reads this
    {
      |stages| == |funcs| &&
      forall j :: 0 <= j < |funcs| ==> stages[j].func == funcs[j] && stages[j].bounds == BoundsUpTo(funcs, required, j, n)
    }

    ghost predicate Related(required: seq<BoxMap>, outputs: set<nat>)
      reads this
    {
      |stages| == |funcs| &&
      forall j :: 0 <= j < |funcs| ==> stages[j].func == funcs[j] && stages[j].bounds == StageBounds(funcs, required, j, outputs)
    }

    /** The whole pass: nothing if some region is unbounded, else the body in its lets. */
    method Infer(body: Stmt, outputs: set<nat>, order: seq<nat>, inner: set<string>) returns (s: Option<Stmt>)
      requires BoxesFit(funcs, FinalBoxesOf(funcs, outputs, order, inner, tools))
      requires forall j :: 0 <= j < |funcs| ==> funcs[j].name in inner
      modifies this
      ensures s.Some? <==> AllBounded(funcs, AllRequirements(funcs, tools))
      ensures s.Some? ==> s.value == Nest(LetsFrom(funcs, FinalBoxesOf(funcs, outputs, order, inner, tools), 0), body)
    {
      ghost var required := AllRequirements(funcs, tools);
      assert RequiredAre(required) by { forall i | 0 <= i < |funcs| ensures RequiredIs(required, i) {} }
      var ok := Relate(outputs, required);
      if !ok { return None; }
      var nest := WrapOutermost(body, order, inner, FinalBoxesOf(funcs, outputs, order, inner, tools));
      s := Some(nest);
    }

    method LayOut(ghost required: seq<BoxMap>)
      requires |required| == |funcs|
      modifies this
      ensures RelatedUpTo(required, 0)
    {
      stages := seq(|funcs|, j requires 0 <= j < |funcs| => Stage(funcs[j], map[], []));
    }

    /** Lay out the stages and compute all boxes.  False when a region is unbounded. */
    method Relate(outputs: set<nat>, ghost required: seq<BoxMap>) returns (ok: bool)
      requires RequiredAre(required)
      modifies this
      ensures ok <==> AllBounded(funcs, required)
      ensures ok ==> Related(required, outputs)
    {
      LayOut(required);
      ok := RelateAll(required);
      if ok { AddOutputs(outputs, required); }
    }

    /** Each consumer in realization order. */
    method RelateAll(ghost required: seq<BoxMap>) returns (ok: bool)
      requires RequiredAre(required) && RelatedUpTo(required, 0)
      modifies this
      ensures ok <==> AllBounded(funcs, required)
      ensures ok ==> RelatedUpTo(required, |funcs|)
    {
      var i := 0;
      while i < |funcs|
        invariant 0 <= i <= |funcs| && RelatedUpTo(required, i)
        invariant BoundedUpTo(funcs, required, i)
      {
        var bounded := ComputeConsumer(i, required);
        if !bounded {
          if AllBounded(funcs, required) { BoundedAt(funcs, required, |funcs|, i); }
          return false;
        }
        i := i + 1;
      }
      ok := true;
    }

    ghost predicate RequiredAre(required: seq<BoxMap>) {
      |required| == |funcs| && forall i :: 0 <= i < |funcs| ==> RequiredIs(required, i)
    }

    ghost predicate RequiredIs(required: seq<BoxMap>, i: nat)
      requires i < |required| == |funcs|
    {
      required[i] == Requirements(funcs[i], tools)
    }

    method ComputeConsumer(i: nat, ghost required: seq<BoxMap>) returns (ok: bool)
      requires RequiredAre(required) && i < |funcs| && RelatedUpTo(required, i)
      modifies this
      ensures ok <==> BoundedFor(funcs, required, i)
      ensures ok ==> RelatedUpTo(required, i + 1)
    {
      var boxes := ComputeRequirements(funcs[i]);
      assert RequiredIs(required, i);
      ok := RelateConsumer(i, boxes, required);
    }

    /** Enter what consumer i requires with each of its producers. */
    method RelateConsumer(i: nat, boxes: BoxMap, ghost required: seq<BoxMap>) returns (ok: bool)
      requires i < |required| == |funcs| && RelatedUpTo(required, i) && boxes == required[i]
      modifies this
      ensures ok <==> BoundedFor(funcs, required, i)
      ensures ok ==> RelatedUpTo(required, i + 1)
    {
      var j := 0;
      while j < i
        invariant 0 <= j <= i && |stages| == |funcs|
        invariant forall k :: 0 <= k < |funcs| ==> stages[k].func == funcs[k]
        invariant forall k :: 0 <= k < j ==> stages[k].bounds == BoundsUpTo(funcs, required, k, i + 1)
        invariant forall k :: j <= k < |funcs| ==> stages[k].bounds == BoundsUpTo(funcs, required, k, i)
        invariant forall k :: 0 <= k < j ==> Bounded(BoxRequired(funcs, required, i, k))
      {
        var b := BoxOf(boxes, funcs[j].name);
        assert b == BoxRequired(funcs, required, i, j);
        var bounded := IsBounded(b);
        if !bounded { return false; }
        if !b.Empty() {
          stages := stages[j := Stage(funcs[j], stages[j].bounds[i := b], stages[j].consumers + [i])];
        }
        j := j + 1;
      }
      ok := true;
    }

    method IsBounded(b: Box) returns (r: bool)
      ensures r <==> Bounded(b)
    {
      var k := 0;
      while k < |b.bounds|
        invariant 0 <= k <= |b.bounds| && forall d :: 0 <= d < k ==> b.bounds[d].IsBounded()
      {
        if !b.bounds[k].IsBounded() { return false; }
        k := k + 1;
      }
      r := true;
    }

    method ComputeRequirements(f: Func) returns (boxes: BoxMap)
      ensures boxes == Requirements(f, tools)
    {
      var cvs := StageExprs(f.def, tools);
      boxes := map[];
      var n := 0;
      while n < |cvs|
        invariant 0 <= n <= |cvs| && boxes == RequiredBy(f, cvs, n, tools)
      {
        var required := BoxesTouchedIn(Evaluate(cvs[n].value), StageScope(f), true, false, "", tools);
        boxes := AddRequired(tools, boxes, required, cvs[n].cond);
        n := n + 1;
      }
    }

    method AddOutputs(outputs: set<nat>, ghost required: seq<BoxMap>)
      requires |required| == |funcs| && RelatedUpTo(required, |funcs|)
      modifies this
      ensures Related(required, outputs)
    {
      var i := 0;
      while i < |stages|
        invariant 0 <= i <= |stages| == |funcs|
        invariant forall j :: 0 <= j < |funcs| ==> stages[j].func == funcs[j]
        invariant forall j :: 0 <= j < i ==> stages[j].bounds == StageBounds(funcs, required, j, outputs)
        invariant forall j :: i <= j < |funcs| ==> stages[j].bounds == BoundsUpTo(funcs, required, j, |funcs|)
      {
        if i in outputs {
          stages := stages[i := Stage(funcs[i], stages[i].bounds[i := OutputBox(funcs[i])], stages[i].consumers)];
        }
        i := i + 1;
      }
    }

    /** Wrap the body in lets that define the region of every stage, the first stage
        innermost.  At the outermost loop every function is produced somewhere inside, so
        the bounds of every stage are needed. */
    method WrapOutermost(body: Stmt, order: seq<nat>, inner: set<string>, ghost boxes: seq<Box>) returns (s: Stmt)
      requires |stages| == |funcs| && BoxesFit(funcs, boxes)
      requires forall j :: 0 <= j < |funcs| ==> funcs[j].name in inner
      requires forall j :: 0 <= j < |funcs| ==> boxes[j] == MergedBox(funcs, stages[j].bounds, order, inner, tools)
      ensures s == Nest(LetsFrom(funcs, boxes, 0), body)
    {
      s := body;
      var j := 0;
      assert Nest(LetsFrom(funcs, boxes, |funcs|), s) == s;
      while j < |stages|
        invariant 0 <= j <= |funcs|
        invariant Nest(LetsFrom(funcs, boxes, j), s) == Nest(LetsFrom(funcs, boxes, 0), body)
      {
        ghost var before := s;
        s := DefineBounds(s, funcs[j], stages[j].bounds, order, inner, boxes[j]);
        NestSplits(LetsFrom(funcs, boxes, j + 1), StageLets(funcs[j], boxes[j], 0), before);
        j := j + 1;
      }
    }

    method DefineBounds(body: Stmt, f: Func, bounds: map<nat, Box>, order: seq<nat>, inner: set<string>,
        ghost box: Box) returns (s: Stmt)
      requires box == MergedBox(funcs, bounds, order, inner, tools)
      requires Bounded(box) && (box.Empty() || |box.bounds| == |f.args|)
      ensures s == Nest(StageLets(f, box, 0), body)
    {
      var b := Box(None, []);
      var k := 0;
      while k < |order|
        invariant 0 <= k <= |order| && b == MergedBox(funcs, bounds, order[..k], inner, tools)
      {
        var i := order[k];
        assert order[..k + 1][..k] == order[..k];
        if i in bounds && i < |funcs| && funcs[i].name in inner { b := Merge(tools, b, bounds[i]); }
        k := k + 1;
      }
      assert order[..k] == order;
      s := body;
      var d := 0;
      while d < |b.bounds|
        invariant 0 <= d <= |b.bounds|
        invariant Nest(StageLets(f, b, d), s) == Nest(StageLets(f, b, 0), body)
      {
        ghost var before := s;
        var i, a := b.bounds[d], f.args[d];
        if i.IsPoint() {
          s := LetStmt(StageMin(f, a), Var(Int(32), StageMax(f, a)), s);
        } else {
          s := LetStmt(StageMin(f, a), i.min.e, s);
        }
        s := LetStmt(StageMax(f, a), i.max.e, s);
        TwoLets(DimLets(f, b, d), before);
        NestSplits(StageLets(f, b, d + 1), DimLets(f, b, d), before);
        d := d + 1;
      }
    }
  }

  lemma TwoLets(lets: seq<Binding>, s: Stmt)
    requires |lets| == 2
    ensures Nest(lets, s) == LetStmt(lets[0].name, lets[0].value, LetStmt(lets[1].name, lets[1].value, s))
  {
    var rest := lets[1..];
    assert rest[0] == lets[1] && rest[1..] == [];
    assert Nest(rest, s) == LetStmt(rest[0].name, rest[0].value, Nest(rest[1..], s));
  }
}
