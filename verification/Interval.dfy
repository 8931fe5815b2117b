/** Intervals of expressions, possibly unbounded, with the eagerly simplifying minimum and
    maximum that build them. */
module Intervals {
  import opened IR

  /** One end of an interval. */
  datatype Bound = NegInf | PosInf | Fin(e: Expr)

  datatype Interval = Interval(min: Bound, max: Bound) {
    /** Both ends are the same expression. */
    predicate IsPoint() { min.Fin? && min == max }
    /** Both ends are this very expression. */
    predicate IsPointAt(e: Expr) { min == Fin(e) && max == Fin(e) }
    predicate IsEmpty() { min.PosInf? || max.NegInf? }
    predicate IsEverything() { min.NegInf? && max.PosInf? }
    predicate HasUpper() { max.Fin? && !IsEmpty() }
    predicate HasLower() { min.Fin? && !IsEmpty() }
    predicate IsBounded() { HasLower() && HasUpper() }
    /** Neither end is the wrong infinity: what every interval is meant to be. */
    predicate Proper() { !IsEmpty() }
  }

  function Everything(): Interval { Interval(NegInf, PosInf) }
  function Nothing(): Interval { Interval(PosInf, NegInf) }
  function Point(e: Expr): Interval { Interval(Fin(e), Fin(e)) }
  function Range(lo: Expr, hi: Expr): Interval { Interval(Fin(lo), Fin(hi)) }

  // ---------- minimum and maximum ----------

  /** as_const_int and as_const_uint: the value and signedness of an immediate. */
  function AsConst(e: Expr): Option<(bool, int)> {
    match e
    case Imm(t, v) => Some((t.signed, v))
    case Broadcast(value, _) => AsConst(value)
    case _ => None
  }

  predicate IsExt(op: BinOp) { op.Min? || op.Max? }

  predicate IsNode(op: BinOp, e: Expr) { e.Bin? && e.op == op }

  function Spine(op: BinOp, e: Expr): nat {
    if IsNode(op, e) then 1 + Spine(op, e.a) else 0
  }

  predicate OfConsts(op: BinOp, e: Expr) { IsNode(op, e) && IsConst(e.a) && IsConst(e.b) }

  /** The operand that should stand on the left comes first. */
  function Ordered(op: BinOp, a: Expr, b: Expr): (Expr, Expr) {
    if IsNode(op, b) && !IsNode(op, a) && !OfConsts(op, b) then (b, a) else (a, b)
  }

  function Foldable(a: Expr, b: Expr): bool {
    AsConst(a).Some? && AsConst(b).Some? && AsConst(a).value.0 == AsConst(b).value.0
  }

  predicate Regroups(op: BinOp, x: Expr, y: Expr) { IsNode(op, x) && IsConst(x.b) && IsConst(y) }

  /** The finite part of Interval::make_min and Interval::make_max: equal operands
      collapse, immediates fold, and constants are pushed to the right of a left-leaning
      tree. */
  function MakeExt(op: BinOp, a: Expr, b: Expr): (r: Expr)
    requires IsExt(op)
    ensures IsConst(a) && IsConst(b) ==> r == a || r == b || r == Bin(op, TypeOf(a), a, b)
    ensures FV(r) <= FV(a) + FV(b) && Calls(r) <= Calls(a) + Calls(b)
    ensures Scalar(a) && Scalar(b) ==> Scalar(r)
    decreases Spine(op, a) + Spine(op, b), if OfConsts(op, b) then 0 else 1
  {
    if a == b then a
    else if Foldable(a, b) then
      if (AsConst(a).value.1 > AsConst(b).value.1) == op.Max? then a else b
    else
      var (x, y) := Ordered(op, a, b);
      if Regroups(op, x, y) then
        ConstsHaveNoSpine(op, x.b);
        ConstsHaveNoSpine(op, y);
        var inner := MakeExt(op, x.b, y);
        ConstsHaveNoSpine(op, inner);
        MakeExt(op, x.a, inner)
      else Joined(op, x, y)
  }

  /** A new node, unless one operand already counts the other. */
  function Joined(op: BinOp, x: Expr, y: Expr): (r: Expr)
    ensures r == x || r == Bin(op, TypeOf(x), x, y)
    ensures Scalar(x) && Scalar(y) ==> Scalar(r)
  {
    if IsNode(op, x) && (x.a == y || x.b == y) then x
    else ScalarLanes(x); Bin(op, TypeOf(x), x, y)
  }

  lemma JoinedValue(op: BinOp, x: Expr, y: Expr, w: World, env: Env)
    requires IsExt(op)
    ensures Eval(Joined(op, x, y), w, env) == Ext(op, Eval(x, w, env), Eval(y, w, env))
  {
    if IsNode(op, x) && (x.a == y || x.b == y) {
      Absorbed(op, x, y, w, env);
    } else {
      ExtIsApply(op, TypeOf(x), Eval(x, w, env), Eval(y, w, env));
    }
  }

  lemma Absorbed(op: BinOp, x: Expr, y: Expr, w: World, env: Env)
    requires IsExt(op) && IsNode(op, x) && (x.a == y || x.b == y)
    ensures Eval(x, w, env) == Ext(op, Eval(x, w, env), Eval(y, w, env))
  {
    ExtIsApply(op, x.t, Eval(x.a, w, env), Eval(x.b, w, env));
  }

  lemma NodeValue(op: BinOp, x: Expr, w: World, env: Env)
    requires IsExt(op) && IsNode(op, x)
    ensures Eval(x, w, env) == Ext(op, Eval(x.a, w, env), Eval(x.b, w, env))
  {
    ExtIsApply(op, x.t, Eval(x.a, w, env), Eval(x.b, w, env));
  }

  lemma ConstsHaveNoSpine(op: BinOp, e: Expr)
    requires IsExt(op)
    ensures IsConst(e) ==> Spine(op, e) == 0
    ensures OfConsts(op, e) ==> Spine(op, e) == 1
  {}

  lemma {:induction false} ScalarLanes(e: Expr)
    ensures Scalar(e) ==> TypeOf(e).lanes == 1
  {
    match e
    case Not(a) => ScalarLanes(a);
    case Select(_, tv, _) => ScalarLanes(tv);
    case Let(_, _, body) => ScalarLanes(body);
    case _ =>
  }

  lemma {:induction false} AsConstValue(e: Expr, w: World, env: Env)
    requires AsConst(e).Some?
    ensures Eval(e, w, env) == AsConst(e).value.1
  {
    if e.Broadcast? { AsConstValue(e.value, w, env); }
  }

  function Ext(op: BinOp, x: int, y: int): int
    requires IsExt(op)
  {
    if (x > y) == op.Max? then x else y
  }

  /** However it rearranges its operands, the result is their minimum or maximum. */
  lemma {:induction false} MakeExtValue(op: BinOp, a: Expr, b: Expr, w: World, env: Env)
    requires IsExt(op)
    ensures Eval(MakeExt(op, a, b), w, env) == Ext(op, Eval(a, w, env), Eval(b, w, env))
    decreases Spine(op, a) + Spine(op, b), if OfConsts(op, b) then 0 else 1
  {
    if a == b {
    } else if Foldable(a, b) {
      FoldedValue(op, a, b, w, env);
    } else {
      var (x, y) := Ordered(op, a, b);
      OrderedValue(op, a, b, w, env);
      if Regroups(op, x, y) {
        ConstsHaveNoSpine(op, x.b);
        ConstsHaveNoSpine(op, y);
        var inner := MakeExt(op, x.b, y);
        ConstsHaveNoSpine(op, inner);
        MakeExtValue(op, x.b, y, w, env);
        MakeExtValue(op, x.a, inner, w, env);
        RegroupValue(op, x, w, env, Eval(y, w, env));
      } else {
        JoinedValue(op, x, y, w, env);
      }
    }
  }

  lemma FoldedValue(op: BinOp, a: Expr, b: Expr, w: World, env: Env)
    requires IsExt(op) && Foldable(a, b)
    ensures Eval(MakeExt(op, a, b), w, env) == Ext(op, Eval(a, w, env), Eval(b, w, env))
  {
    AsConstValue(a, w, env);
    AsConstValue(b, w, env);
  }

  lemma OrderedValue(op: BinOp, a: Expr, b: Expr, w: World, env: Env)
    requires IsExt(op)
    ensures Ext(op, Eval(Ordered(op, a, b).0, w, env), Eval(Ordered(op, a, b).1, w, env))
         == Ext(op, Eval(a, w, env), Eval(b, w, env))
  {}

  lemma RegroupValue(op: BinOp, x: Expr, w: World, env: Env, vy: int)
    requires IsExt(op) && IsNode(op, x)
    ensures Ext(op, Eval(x.a, w, env), Ext(op, Eval(x.b, w, env), vy)) == Ext(op, Eval(x, w, env), vy)
  {
    ExtAssociates(op, Eval(x.a, w, env), Eval(x.b, w, env), vy);
    NodeValue(op, x, w, env);
  }

  lemma ExtAssociates(op: BinOp, x: int, y: int, z: int)
    requires IsExt(op)
    ensures Ext(op, x, Ext(op, y, z)) == Ext(op, Ext(op, x, y), z)
  {}

  lemma ExtIsApply(op: BinOp, t: Type, x: int, y: int)
    requires IsExt(op)
    ensures Apply(op, t, x, y) == Ext(op, x, y)
  {}

  /** Interval::make_min and Interval::make_max, which respect infinities. */
  function MakeBound(op: BinOp, a: Bound, b: Bound): Bound
    requires IsExt(op)
  {
    var absorbing := if op.Max? then PosInf else NegInf;
    if a == b then a
    else if a == absorbing || b == absorbing then absorbing
    else if !a.Fin? then b
    else if !b.Fin? then a
    else Fin(MakeExt(op, a.e, b.e))
  }

  function MakeMin(a: Bound, b: Bound): Bound { MakeBound(Min, a, b) }
  function MakeMax(a: Bound, b: Bound): Bound { MakeBound(Max, a, b) }

  function Include(i: Interval, j: Interval): Interval {
    Interval(MakeMin(i.min, j.min), MakeMax(i.max, j.max))
  }

  // ---------- what an interval says ----------

  predicate AtLeast(b: Bound, w: World, env: Env, v: int) {
    b.NegInf? || (b.Fin? && Eval(b.e, w, env) <= v)
  }

  predicate AtMost(b: Bound, w: World, env: Env, v: int) {
    b.PosInf? || (b.Fin? && v <= Eval(b.e, w, env))
  }

  predicate BoundOk(b: Bound, t: Type, w: World, env: Env) {
    b.Fin? ==> InRange(t, Eval(b.e, w, env))
  }

  /** The ends lie in the range of the type. */
  predicate EndsOk(i: Interval, t: Type, w: World, env: Env) {
    BoundOk(i.min, t, w, env) && BoundOk(i.max, t, w, env)
  }

  predicate Contains(i: Interval, w: World, env: Env, v: int) {
    AtLeast(i.min, w, env, v) && AtMost(i.max, w, env, v)
  }

  /** The interval contains the value, and its ends are values of the type. */
  predicate Brackets(i: Interval, t: Type, w: World, env: Env, v: int) {
    Contains(i, w, env, v) && EndsOk(i, t, w, env)
  }

  function BoundFV(b: Bound): set<string> { if b.Fin? then FV(b.e) else {} }
  function IntervalFV(i: Interval): set<string> { BoundFV(i.min) + BoundFV(i.max) }

  predicate ScalarBound(b: Bound) { b.Fin? ==> Scalar(b.e) }

  lemma MakeBoundFacts(op: BinOp, a: Bound, b: Bound, t: Type, w: World, env: Env)
    requires IsExt(op)
    ensures BoundFV(MakeBound(op, a, b)) <= BoundFV(a) + BoundFV(b)
    ensures ScalarBound(a) && ScalarBound(b) ==> ScalarBound(MakeBound(op, a, b))
    ensures BoundOk(a, t, w, env) && BoundOk(b, t, w, env) ==> BoundOk(MakeBound(op, a, b), t, w, env)
    ensures forall v :: op.Max? ==>
      (AtMost(MakeBound(op, a, b), w, env, v) <==> AtMost(a, w, env, v) || AtMost(b, w, env, v))
    ensures forall v :: op.Min? ==>
      (AtLeast(MakeBound(op, a, b), w, env, v) <==> AtLeast(a, w, env, v) || AtLeast(b, w, env, v))
    ensures forall v :: op.Max? ==>
      (AtLeast(MakeBound(op, a, b), w, env, v) <==> AtLeast(a, w, env, v) && AtLeast(b, w, env, v))
    ensures forall v :: op.Min? ==>
      (AtMost(MakeBound(op, a, b), w, env, v) <==> AtMost(a, w, env, v) && AtMost(b, w, env, v))
  {
    if a.Fin? && b.Fin? { MakeExtValue(op, a.e, b.e, w, env); }
  }
}
