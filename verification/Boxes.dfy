/** Boxes: conditional products of intervals, the regions of a function that a piece of code
    may touch. */
module Boxes {
  import opened IR
  import opened Intervals
  import opened BoundsRules
  import opened RuleSoundness

  /** Used only under the condition, if there is one. */
  datatype Box = Box(used: Option<Expr>, bounds: seq<Interval>) {
    predicate Empty() { bounds == [] }
    predicate MaybeUnused() { used.Some? && !IsOne(used.value) }
  }

  predicate IsOne(e: Expr) {
    match e
    case Imm(_, v) => v == 1
    case Cast(_, value) => IsOne(value)
    case Broadcast(value, _) => IsOne(value)
    case _ => false
  }

  // ---------- merging ----------

  predicate Complementary(a: Box, b: Box)
    requires a.used.Some? && b.used.Some?
  {
    a.used.value == Not(b.used.value) || Not(a.used.value) == b.used.value
  }

  /** The end of the merged box when both boxes have that end. */
  function MergedEnd(op: BinOp, a: Box, b: Box, x: Expr, y: Expr): Expr
    requires IsExt(op)
  {
    var both := MakeExt(op, x, y);
    if a.MaybeUnused() && b.MaybeUnused() then
      if Complementary(a, b) then Select(a.used.value, x, y)
      else Select(Bin(And, Bool(1), a.used.value, b.used.value), both, Select(a.used.value, x, y))
    else if a.MaybeUnused() then Select(a.used.value, both, y)
    else if b.MaybeUnused() then Select(b.used.value, both, x)
    else both
  }

  function MergeEnd(c: Tools, op: BinOp, a: Box, b: Box, x: Bound, y: Bound, both: bool): Bound
    requires IsExt(op) && (both ==> x.Fin? && y.Fin?)
  {
    if x == y then x
    else if both then Fin(c.simplify(MergedEnd(op, a, b, x.e, y.e)))
    else if op.Min? then NegInf else PosInf
  }

  /** The lower end is written first; the test for the upper end reads the interval so
      updated. */
  function MergeInterval(c: Tools, a: Box, b: Box, i: nat): Interval
    requires i < |a.bounds| == |b.bounds|
  {
    var x, y := a.bounds[i], b.bounds[i];
    var x' := Interval(MergeEnd(c, Min, a, b, x.min, y.min, x.HasLower() && y.HasLower()), x.max);
    Interval(x'.min, MergeEnd(c, Max, a, b, x.max, y.max, x'.HasUpper() && y.HasUpper()))
  }

  function MergeUsed(c: Tools, a: Box, b: Box): Option<Expr> {
    if a.MaybeUnused() && b.MaybeUnused() then
      if a.used == b.used then a.used
      else
        var u := c.simplify(Bin(Or, Bool(1), a.used.value, b.used.value));
        if IsOne(u) then None else Some(u)
    else None
  }

  /** What merge_boxes leaves in its first argument.  Boxes of different non-zero
      dimensions are never merged; for them the first is kept. */
  function Merge(c: Tools, a: Box, b: Box): Box {
    if b.Empty() then a
    else if a.Empty() then b
    else if |a.bounds| != |b.bounds| then a
    else Box(MergeUsed(c, a, b), seq(|a.bounds|, i requires 0 <= i < |a.bounds| => MergeInterval(c, a, b, i)))
  }

  /** merge_boxes: dimension by dimension, updating the box in place. */
  class BoxCell {
    var box: Box

    constructor (b: Box)
      ensures box == b
    { box := b; }

    method MergeBoxes(c: Tools, b: Box)
      requires box.Empty() || b.Empty() || |box.bounds| == |b.bounds|
      modifies this
      ensures box == Merge(c, old(box), b)
    {
      if b.Empty() { return; }
      if box.Empty() {
        box := b;
        return;
      }
      var a := box;
      var i := 0;
      while i < |box.bounds|
        invariant 0 <= i <= |box.bounds| == |a.bounds|
        invariant box.used == a.used
        invariant forall k :: 0 <= k < i ==> box.bounds[k] == MergeInterval(c, a, b, k)
        invariant forall k :: i <= k < |a.bounds| ==> box.bounds[k] == a.bounds[k]
      {
        var x, y := box.bounds[i], b.bounds[i];
        x := Interval(MergeEnd(c, Min, box, b, x.min, y.min, x.HasLower() && y.HasLower()), x.max);
        x := Interval(x.min, MergeEnd(c, Max, box, b, x.max, y.max, x.HasUpper() && y.HasUpper()));
        UsedDecides(c, box, a, b, i);
        box := Box(box.used, box.bounds[i := x]);
        i := i + 1;
      }
      box := Box(MergeUsed(c, box, b), box.bounds);
      assert box.bounds == Merge(c, a, b).bounds;
    }
  }

  lemma UsedDecides(c: Tools, a: Box, a': Box, b: Box, i: nat)
    requires a.used == a'.used && i < |a.bounds| == |a'.bounds| == |b.bounds| && a.bounds[i] == a'.bounds[i]
    ensures MergeInterval(c, a, b, i) == MergeInterval(c, a', b, i)
  {}

  // ---------- what a box says ----------

  predicate UsedIn(b: Box, w: World, env: Env) { b.used.Some? ==> Eval(b.used.value, w, env) != 0 }

  predicate InBox(b: Box, w: World, env: Env, pt: seq<int>) {
    |pt| == |b.bounds| && forall i :: 0 <= i < |pt| ==> Contains(b.bounds[i], w, env, pt[i])
  }

  /** The box is used under these parameters, and the point lies inside. */
  predicate Covers(b: Box, w: World, env: Env, pt: seq<int>) {
    UsedIn(b, w, env) && InBox(b, w, env, pt)
  }

  lemma {:induction false} OneIsOdd(e: Expr, w: World, env: Env)
    requires IsOne(e)
    ensures Eval(e, w, env) % 2 == 1
  {
    match e
    case Imm(_, _) =>
    case Cast(t, value) => OneIsOdd(value, w, env); WrapKeepsParity(t, Eval(value, w, env));
    case Broadcast(value, _) => OneIsOdd(value, w, env);
  }

  lemma ModKeepsParity(v: int, h: int)
    requires h > 0
    ensures (v % (2 * h)) % 2 == v % 2
  {
    var k := v / (2 * h);
    assert v == (2 * h) * k + v % (2 * h);
    TwiceIsEven(h, k);
  }

  lemma TwiceIsEven(h: int, k: int)
    ensures ((2 * h) * k) % 2 == 0
  {
    assert (2 * h) * k == 2 * (h * k);
  }

  lemma ParityShift(x: int, v: int, m: int)
    requires x % 2 == (v - m) % 2
    ensures (x + m) % 2 == v % 2
  {}

  lemma WrapKeepsParity(t: Type, v: int)
    ensures Wrap(t, v) % 2 == v % 2
  {
    if !InRange(t, v) {
      var h := Pow2(t.bits - 1);
      assert Pow2(t.bits) == 2 * h;
      if t.Narrow() {
        ModKeepsParity(v - MinOf(t), h);
        assert Modulus(t) == 2 * h;
        ParityShift((v - MinOf(t)) % (2 * h), v, MinOf(t));
      } else {
        ModKeepsParity(v, h);
      }
    }
  }

  /** A box without a condition, or with a trivial one, is always used. */
  lemma AlwaysUsed(b: Box, w: World, env: Env)
    requires !b.MaybeUnused()
    ensures UsedIn(b, w, env)
  {
    if b.used.Some? { OneIsOdd(b.used.value, w, env); }
  }

  /** The merged box is used exactly when one of the two is. */
  lemma MergeUsedValue(c: Tools, a: Box, b: Box, w: World, env: Env)
    requires SimplifierSound(c, w) && !a.Empty() && !b.Empty() && |a.bounds| == |b.bounds|
    ensures UsedIn(Merge(c, a, b), w, env) <==> UsedIn(a, w, env) || UsedIn(b, w, env)
  {
    if !a.MaybeUnused() { AlwaysUsed(a, w, env); }
    if !b.MaybeUnused() { AlwaysUsed(b, w, env); }
    if a.MaybeUnused() && b.MaybeUnused() && a.used != b.used {
      var e := Bin(Or, Bool(1), a.used.value, b.used.value);
      assert Eval(c.simplify(e), w, env) == Eval(e, w, env);
      if IsOne(c.simplify(e)) { OneIsOdd(c.simplify(e), w, env); }
    }
  }

  /** The bounding value of whichever of the two boxes are used. */
  function Hull(op: BinOp, ua: bool, ub: bool, x: int, y: int): int
    requires IsExt(op)
  {
    if ua && ub then Ext(op, x, y) else if ua then x else y
  }

  lemma MergedEndValue(op: BinOp, a: Box, b: Box, x: Expr, y: Expr, w: World, env: Env)
    requires IsExt(op) && (UsedIn(a, w, env) || UsedIn(b, w, env))
    ensures Eval(MergedEnd(op, a, b, x, y), w, env)
         == Hull(op, UsedIn(a, w, env), UsedIn(b, w, env), Eval(x, w, env), Eval(y, w, env))
  {
    MakeExtValue(op, x, y, w, env);
    var both := MakeExt(op, x, y);
    if a.MaybeUnused() && b.MaybeUnused() {
      if Complementary(a, b) {
        OnlyOneUsed(a, b, w, env);
        SelectValue(a.used.value, x, y, w, env);
      } else {
        SelectValue(a.used.value, x, y, w, env);
        AndValue(a.used.value, b.used.value, w, env);
        SelectValue(Bin(And, Bool(1), a.used.value, b.used.value), both, Select(a.used.value, x, y), w, env);
      }
    } else if a.MaybeUnused() {
      AlwaysUsed(b, w, env);
      SelectValue(a.used.value, both, y, w, env);
    } else if b.MaybeUnused() {
      AlwaysUsed(a, w, env);
      SelectValue(b.used.value, both, x, w, env);
    } else {
      AlwaysUsed(a, w, env);
      AlwaysUsed(b, w, env);
    }
  }

  lemma SelectValue(k: Expr, x: Expr, y: Expr, w: World, env: Env)
    ensures Eval(Select(k, x, y), w, env) == if Eval(k, w, env) != 0 then Eval(x, w, env) else Eval(y, w, env)
  {}

  lemma AndValue(x: Expr, y: Expr, w: World, env: Env)
    ensures Eval(Bin(And, Bool(1), x, y), w, env) != 0 <==> Eval(x, w, env) != 0 && Eval(y, w, env) != 0
  {}

  lemma OnlyOneUsed(a: Box, b: Box, w: World, env: Env)
    requires a.used.Some? && b.used.Some? && Complementary(a, b)
    ensures UsedIn(a, w, env) <==> !UsedIn(b, w, env)
  {}

  lemma MergeEndValue(c: Tools, op: BinOp, a: Box, b: Box, x: Expr, y: Expr, w: World, env: Env)
    requires SimplifierSound(c, w) && IsExt(op) && (UsedIn(a, w, env) || UsedIn(b, w, env))
    ensures var r := MergeEnd(c, op, a, b, Fin(x), Fin(y), true);
            r.Fin? && Eval(r.e, w, env) == Hull(op, UsedIn(a, w, env), UsedIn(b, w, env), Eval(x, w, env), Eval(y, w, env))
  {
    MergedEndValue(op, a, b, x, y, w, env);
    var m := MergedEnd(op, a, b, x, y);
    assert Eval(c.simplify(m), w, env) == Eval(m, w, env);
  }

  /** In a dimension where both boxes are bounded, the merged interval is exactly the
      bounding interval of those that are used: nothing narrower contains them, and
      nothing wider is reported. */
  lemma MergeIsHull(c: Tools, a: Box, b: Box, i: nat, w: World, env: Env)
    requires SimplifierSound(c, w) && i < |a.bounds| == |b.bounds|
    requires a.bounds[i].IsBounded() && b.bounds[i].IsBounded()
    requires UsedIn(a, w, env) || UsedIn(b, w, env)
    ensures var m := Merge(c, a, b).bounds[i];
            var ua, ub := UsedIn(a, w, env), UsedIn(b, w, env);
            && m.IsBounded()
            && Eval(m.min.e, w, env) == Hull(Min, ua, ub, Eval(a.bounds[i].min.e, w, env), Eval(b.bounds[i].min.e, w, env))
            && Eval(m.max.e, w, env) == Hull(Max, ua, ub, Eval(a.bounds[i].max.e, w, env), Eval(b.bounds[i].max.e, w, env))
  {
    var x, y := a.bounds[i], b.bounds[i];
    MergeEndValue(c, Min, a, b, x.min.e, y.min.e, w, env);
    MergeEndValue(c, Max, a, b, x.max.e, y.max.e, w, env);
  }

  lemma MergeContains(c: Tools, a: Box, b: Box, i: nat, w: World, env: Env, v: int)
    requires SimplifierSound(c, w) && i < |a.bounds| == |b.bounds|
    requires (UsedIn(a, w, env) && Contains(a.bounds[i], w, env, v)) || (UsedIn(b, w, env) && Contains(b.bounds[i], w, env, v))
    ensures Contains(MergeInterval(c, a, b, i), w, env, v)
  {
    var x, y := a.bounds[i], b.bounds[i];
    if x.min.Fin? && y.min.Fin? { MergeEndValue(c, Min, a, b, x.min.e, y.min.e, w, env); }
    if x.max.Fin? && y.max.Fin? { MergeEndValue(c, Max, a, b, x.max.e, y.max.e, w, env); }
  }

  /** Whatever either box covers, the merged box covers, bounded or not. */
  lemma MergeCovers(c: Tools, a: Box, b: Box, w: World, env: Env, pt: seq<int>)
    requires SimplifierSound(c, w)
    requires a.Empty() || b.Empty() || |a.bounds| == |b.bounds|
    ensures Covers(a, w, env, pt) && pt != [] ==> Covers(Merge(c, a, b), w, env, pt)
    ensures Covers(b, w, env, pt) && pt != [] ==> Covers(Merge(c, a, b), w, env, pt)
  {
    if pt != [] && !a.Empty() && !b.Empty() && (Covers(a, w, env, pt) || Covers(b, w, env, pt)) {
      MergeUsedValue(c, a, b, w, env);
      forall i | 0 <= i < |pt| ensures Contains(Merge(c, a, b).bounds[i], w, env, pt[i]) {
        MergeContains(c, a, b, i, w, env, pt[i]);
      }
    }
  }

  // ---------- containment and overlap ----------

  function And2(a: Expr, b: Expr): Expr { Bin(And, Bool(1), a, b) }

  /** Every dimension has both ends. */
  predicate Bounded(b: Box) { forall i :: 0 <= i < |b.bounds| ==> b.bounds[i].IsBounded() }

  /** Both intervals have both ends.  An infinite end is a variable of handle type, and
      comparing it with another end is an error. */
  predicate Comparable(x: Interval, y: Interval) { x.min.Fin? && y.min.Fin? && x.max.Fin? && y.max.Fin? }

  predicate AllComparable(outer: Box, inner: Box, n: nat)
    requires n <= |inner.bounds| <= |outer.bounds|
  {
    forall i :: 0 <= i < n ==> Comparable(outer.bounds[i], inner.bounds[i])
  }

  function ContainsCondition(outer: Box, inner: Box, n: nat): Expr
    requires n <= |inner.bounds| <= |outer.bounds| && AllComparable(outer, inner, n)
  {
    if n == 0 then ConstTrue()
    else
      var o, i := outer.bounds[n - 1], inner.bounds[n - 1];
      And2(And2(ContainsCondition(outer, inner, n - 1), Bin(LE, Bool(1), o.min.e, i.min.e)),
           Bin(GE, Bool(1), o.max.e, i.max.e))
  }

  lemma {:induction false} ContainsMeans(outer: Box, inner: Box, n: nat, i: nat, w: World, env: Env)
    requires i < n <= |inner.bounds| <= |outer.bounds| && AllComparable(outer, inner, n)
    requires Eval(ContainsCondition(outer, inner, n), w, env) != 0
    ensures Eval(outer.bounds[i].min.e, w, env) <= Eval(inner.bounds[i].min.e, w, env)
    ensures Eval(inner.bounds[i].max.e, w, env) <= Eval(outer.bounds[i].max.e, w, env)
  {
    var o, k := outer.bounds[n - 1], inner.bounds[n - 1];
    var lo, hi := Bin(LE, Bool(1), o.min.e, k.min.e), Bin(GE, Bool(1), o.max.e, k.max.e);
    BothHold(And2(ContainsCondition(outer, inner, n - 1), lo), hi, w, env);
    BothHold(ContainsCondition(outer, inner, n - 1), lo, w, env);
    if i < n - 1 { ContainsMeans(outer, inner, n - 1, i, w, env); }
  }

  /** The condition under which the inner box's use implies the outer one's. */
  function ImpliesUse(outer: Box, inner: Box): Expr
    requires outer.used.Some? && inner.used.Some?
  {
    Bin(EQ, Bool(1), And2(outer.used.value, inner.used.value), inner.used.value)
  }

  /** Contained under every assignment of the parameters. */
  ghost predicate Inside(outer: Box, inner: Box, w: World, env: Env, pt: seq<int>) {
    Covers(inner, w, env, pt) ==>
      UsedIn(outer, w, env) && |pt| <= |outer.bounds| && forall i :: 0 <= i < |pt| ==> Contains(outer.bounds[i], w, env, pt[i])
  }

  lemma ContainsProof(c: Tools, outer: Box, inner: Box, condition: Expr, w: World, env: Env, pt: seq<int>)
    requires SimplifierSound(c, w) && IsOne(c.simplify(condition))
    requires |inner.bounds| <= |outer.bounds| && AllComparable(outer, inner, |inner.bounds|)
    requires var all := ContainsCondition(outer, inner, |inner.bounds|);
             if outer.MaybeUnused() then inner.MaybeUnused() && condition == And2(all, ImpliesUse(outer, inner)) else condition == all
    ensures Inside(outer, inner, w, env, pt)
  {
    var all := ContainsCondition(outer, inner, |inner.bounds|);
    OneIsOdd(c.simplify(condition), w, env);
    assert Eval(c.simplify(condition), w, env) == Eval(condition, w, env);
    if outer.MaybeUnused() {
      BothHold(all, ImpliesUse(outer, inner), w, env);
      AndValue(outer.used.value, inner.used.value, w, env);
    } else {
      AlwaysUsed(outer, w, env);
    }
    if Covers(inner, w, env, pt) {
      forall i | 0 <= i < |pt| ensures Contains(outer.bounds[i], w, env, pt[i]) {
        ContainsMeans(outer, inner, |inner.bounds|, i, w, env);
      }
    }
  }

  /** box_contains: true means contained, whatever the parameters; the answer is an error
      exactly if some dimension of the inner box or its partner lacks an end. */
  method BoxContains(c: Tools, outer: Box, inner: Box) returns (r: Option<bool>)
    ensures r == Some(true) ==> forall w, env, pt :: SimplifierSound(c, w) ==> Inside(outer, inner, w, env, pt)
    ensures r.None? <==> |inner.bounds| <= |outer.bounds| && !AllComparable(outer, inner, |inner.bounds|)
    ensures r.Some? && (|inner.bounds| > |outer.bounds| || (outer.MaybeUnused() && !inner.MaybeUnused())) ==> r == Some(false)
  {
    if |inner.bounds| > |outer.bounds| { return Some(false); }
    var condition := ConstTrue();
    var i := 0;
    while i < |inner.bounds|
      invariant 0 <= i <= |inner.bounds|
      invariant AllComparable(outer, inner, i) && condition == ContainsCondition(outer, inner, i)
    {
      if !Comparable(outer.bounds[i], inner.bounds[i]) { return None; }
      condition := And2(And2(condition, Bin(LE, Bool(1), outer.bounds[i].min.e, inner.bounds[i].min.e)),
                        Bin(GE, Bool(1), outer.bounds[i].max.e, inner.bounds[i].max.e));
      i := i + 1;
    }
    if outer.MaybeUnused() {
      if inner.MaybeUnused() {
        condition := And2(condition, ImpliesUse(outer, inner));
      } else {
        return Some(false);
      }
    }
    r := Some(IsOne(c.simplify(condition)));
    if r == Some(true) {
      forall w, env, pt | SimplifierSound(c, w) ensures Inside(outer, inner, w, env, pt) {
        ContainsProof(c, outer, inner, condition, w, env, pt);
      }
    }
  }

  /** The guards of the two comparisons of a dimension test one end of each box, but the
      comparisons read the two other ends. */
  predicate TestsFirst(x: Interval, y: Interval) { x.HasUpper() && y.HasLower() }
  predicate TestsSecond(x: Interval, y: Interval) { x.HasLower() && y.HasUpper() }

  predicate FirstOk(x: Interval, y: Interval) { TestsFirst(x, y) ==> y.max.Fin? && x.min.Fin? }
  predicate SecondOk(x: Interval, y: Interval) { TestsSecond(x, y) ==> x.max.Fin? && y.min.Fin? }

  predicate GuardsHold(a: Box, b: Box, n: nat)
    requires n <= |a.bounds| == |b.bounds|
  {
    forall i :: 0 <= i < n ==> FirstOk(a.bounds[i], b.bounds[i]) && SecondOk(a.bounds[i], b.bounds[i])
  }

  /** (-infinity, x] and [y, infinity) overlap or not as y <= x, but cannot be compared. */
  lemma CrossedGuards(x: Expr, y: Expr)
    ensures !GuardsHold(Box(None, [Interval(NegInf, Fin(x))]), Box(None, [Interval(Fin(y), PosInf)]), 1)
  {
    var a, b := Box(None, [Interval(NegInf, Fin(x))]), Box(None, [Interval(Fin(y), PosInf)]);
    assert !FirstOk(a.bounds[0], b.bounds[0]);
  }

  /** For intervals that are not empty the guards serve if and only if they come out the
      same. */
  lemma GuardsServe(x: Interval, y: Interval)
    requires x.Proper() && y.Proper()
    ensures FirstOk(x, y) && SecondOk(x, y) <==> (TestsFirst(x, y) <==> TestsSecond(x, y))
  {}

  function BothUsed(a: Box, b: Box): Expr {
    And2(if a.MaybeUnused() then a.used.value else ConstTrue(), if b.MaybeUnused() then b.used.value else ConstTrue())
  }

  function TestFirst(condition: Expr, x: Interval, y: Interval): Expr
    requires FirstOk(x, y)
  {
    if TestsFirst(x, y) then And2(condition, Bin(GE, Bool(1), y.max.e, x.min.e)) else condition
  }

  function TestSecond(condition: Expr, x: Interval, y: Interval): Expr
    requires SecondOk(x, y)
  {
    if TestsSecond(x, y) then And2(condition, Bin(GE, Bool(1), x.max.e, y.min.e)) else condition
  }

  function OverlapCondition(a: Box, b: Box, n: nat): Expr
    requires n <= |a.bounds| == |b.bounds| && GuardsHold(a, b, n)
  {
    if n == 0 then BothUsed(a, b)
    else
      var x, y := a.bounds[n - 1], b.bounds[n - 1];
      TestSecond(TestFirst(OverlapCondition(a, b, n - 1), x, y), x, y)
  }

  lemma TestsKeep(condition: Expr, x: Interval, y: Interval, w: World, env: Env, v: int)
    requires FirstOk(x, y) && SecondOk(x, y) && Eval(condition, w, env) != 0
    requires Contains(x, w, env, v) && Contains(y, w, env, v)
    ensures Eval(TestSecond(TestFirst(condition, x, y), x, y), w, env) != 0
  {
    var first := TestFirst(condition, x, y);
    if TestsFirst(x, y) {
      var p := Bin(GE, Bool(1), y.max.e, x.min.e);
      assert Eval(p, w, env) != 0;
      AndValue(condition, p, w, env);
    }
    if TestsSecond(x, y) {
      var q := Bin(GE, Bool(1), x.max.e, y.min.e);
      assert Eval(q, w, env) != 0;
      AndValue(first, q, w, env);
    }
  }

  /** Two boxes that share a point meet the overlap condition. */
  lemma {:induction false} SharedPointOverlaps(a: Box, b: Box, n: nat, w: World, env: Env, pt: seq<int>)
    requires n <= |a.bounds| == |b.bounds| && GuardsHold(a, b, n)
    requires Covers(a, w, env, pt) && Covers(b, w, env, pt)
    ensures Eval(OverlapCondition(a, b, n), w, env) != 0
  {
    if n == 0 {
      var ua := if a.MaybeUnused() then a.used.value else ConstTrue();
      var ub := if b.MaybeUnused() then b.used.value else ConstTrue();
      assert Eval(ConstTrue(), w, env) == 1;
      AndValue(ua, ub, w, env);
    } else {
      SharedPointOverlaps(a, b, n - 1, w, env, pt);
      TestsKeep(OverlapCondition(a, b, n - 1), a.bounds[n - 1], b.bounds[n - 1], w, env, pt[n - 1]);
    }
  }

  lemma DisjointProof(c: Tools, a: Box, b: Box, w: World, env: Env, pt: seq<int>)
    requires ToolsSound(c, w) && |a.bounds| == |b.bounds| && GuardsHold(a, b, |a.bounds|)
    requires c.prove(c.simplify(Not(OverlapCondition(a, b, |a.bounds|))))
    ensures !(Covers(a, w, env, pt) && Covers(b, w, env, pt))
  {
    var o := OverlapCondition(a, b, |a.bounds|);
    assert Eval(c.simplify(Not(o)), w, env) != 0;
    assert Eval(c.simplify(Not(o)), w, env) == Eval(Not(o), w, env);
    if Covers(a, w, env, pt) && Covers(b, w, env, pt) { SharedPointOverlaps(a, b, |a.bounds|, w, env, pt); }
  }

  /** boxes_overlap: false means disjoint, whatever the parameters; the answer is an error
      exactly if the dimensions differ (unless one box has none) or a guard lets an
      infinite end through. */
  method BoxesOverlap(c: Tools, a: Box, b: Box) returns (r: Option<bool>)
    ensures r == Some(false) ==> forall w, env, pt :: ToolsSound(c, w) ==> !(Covers(a, w, env, pt) && Covers(b, w, env, pt))
    ensures r.None? <==> if |a.bounds| != |b.bounds| then !a.Empty() && !b.Empty() else !GuardsHold(a, b, |a.bounds|)
    ensures r.Some? && |a.bounds| != |b.bounds| ==> r == Some(false)
  {
    if |a.bounds| != |b.bounds| && (a.Empty() || b.Empty()) { return Some(false); }
    if |a.bounds| != |b.bounds| { return None; }
    var overlap := And2(if a.MaybeUnused() then a.used.value else ConstTrue(),
        if b.MaybeUnused() then b.used.value else ConstTrue());
    var i := 0;
    while i < |a.bounds|
      invariant 0 <= i <= |a.bounds|
      invariant GuardsHold(a, b, i) && overlap == OverlapCondition(a, b, i)
    {
      var x, y := a.bounds[i], b.bounds[i];
      if x.HasUpper() && y.HasLower() {
        if !(y.max.Fin? && x.min.Fin?) { return None; }
        overlap := And2(overlap, Bin(GE, Bool(1), y.max.e, x.min.e));
      }
      if x.HasLower() && y.HasUpper() {
        if !(x.max.Fin? && y.min.Fin?) { return None; }
        overlap := And2(overlap, Bin(GE, Bool(1), x.max.e, y.min.e));
      }
      i := i + 1;
    }
    r := Some(!c.prove(c.simplify(Not(overlap))));
    if r == Some(false) {
      forall w, env, pt | ToolsSound(c, w) ensures !(Covers(a, w, env, pt) && Covers(b, w, env, pt)) {
        DisjointProof(c, a, b, w, env, pt);
      }
    }
  }
}
