/** Each rule of the interval analysis is sound: from intervals that contain the operands'
    values it builds an interval that contains the result, and whose ends are values of
    the result's type. */
module RuleSoundness {
  import opened IR
  import opened Intervals
  import opened BoundsRules

  /** Whatever can_prove answers true to always holds. */
  ghost predicate ProverSound(c: Tools, w: World) {
    forall e, env :: c.prove(e) ==> Eval(e, w, env) != 0
  }

  /** Simplifying changes neither value nor type, and needs no new variable or function. */
  ghost predicate SimplifierSound(c: Tools, w: World) {
    && (forall e, env :: Eval(c.simplify(e), w, env) == Eval(e, w, env))
    && (forall e :: FV(c.simplify(e)) <= FV(e) && Calls(c.simplify(e)) <= Calls(e))
    && (forall e :: Scalar(e) ==> Scalar(c.simplify(e)))
  }

  ghost predicate ToolsSound(c: Tools, w: World) { ProverSound(c, w) && SimplifierSound(c, w) }

  // ---------- when the rules are sound ----------

  /** The sign read off a constant, looking through its casts, is not the opposite of that of
      its value. */
  predicate SignIs(e: Expr, k: int) { (IsPositiveConst(e) ==> k >= 0) && (IsNegativeConst(e) ==> k <= 0) }

  predicate HonestSign(b: Bound) { b.Fin? && IsConst(b.e) ==> PlainConst(b.e) && SignIs(b.e, ConstOf(b.e)) }

  /** The sign read is that of the value, which is not zero. */
  predicate HonestEnd(b: Bound) {
    HonestSign(b) && (b.Fin? && (IsPositiveConst(b.e) || IsNegativeConst(b.e)) ==> ConstOf(b.e) != 0)
  }

  /** A half-open interval fits neither "bounded" nor "everything". */
  predicate BoundedOrAll(i: Interval) { i.IsBounded() || i.IsEverything() }

  /** The value is one of the expression's own type, as its outermost nodes show. */
  predicate Ranged(e: Expr) {
    match e
    case Imm(t, v) => InRange(t, v)
    case Var(_, _) => true
    case Cast(_, _) => true
    case Load(_, _, _) => true
    case Bin(op, t, a, b) => if IsExt(op) then Ranged(a) && Ranged(b) && TypeOf(a) == TypeOf(b) == t else IsArith(op)
    case Select(_, tv, fv) => Ranged(tv) && Ranged(fv) && TypeOf(tv) == TypeOf(fv)
    case Let(_, _, body) => Ranged(body)
    case _ => false
  }

  predicate KeepsAll(to: Type, from: Type) { to.CanRepresent(from) || (to.IsInt() && to.bits >= 32) }

  /** Wherever find_constant_bound finds a constant, it looks only through casts that keep
      every value. */
  predicate WidensOnly(c: Tools, e: Expr, upper: bool) {
    FindConstantBound(c, e, upper).Some? ==>
      if IsConst(e) then Ranged(e)
      else
        match e
        case Bin(op, t, a, b) =>
          IsExt(op) ==> TypeOf(a) == TypeOf(b) == t && WidensOnly(c, a, upper) && WidensOnly(c, b, upper)
        case Cast(t, value) => KeepsAll(t, TypeOf(value)) && Ranged(value) && WidensOnly(c, value, upper)
        case _ => true
  }

  /** The rule of a cast narrows its operand's interval to the constants found around it. */
  predicate Narrows(op: Expr, a: Interval)
    requires op.Cast?
  {
    var to, from := op.t.ElementOf(), TypeOf(op.value).ElementOf();
    a.IsBounded() && !a.IsPoint() && !KeepsAll(to, from) && from.CanRepresent(to)
  }

  predicate CastRegular(c: Tools, op: Expr, a: Interval)
    requires op.Cast?
  {
    Narrows(op, a) ==> WidensOnly(c, a.min.e, false) && WidensOnly(c, a.max.e, true)
  }

  /** No quotient of the two intervals' values is MIN / -1 in a type below 32 bits: the
      divisor is positive or a constant below -1, or the dividend's lower end is a
      constant above MIN. */
  predicate DivCannotWrap(c: Tools, t: Type, a: Interval, b: Interval)
    requires a.min.Fin? && b.IsBounded()
  {
    t.signed && t.Narrow() ==>
      || StaticSign(c, b.min.e) == 1
      || (PlainConst(b.max.e) && ConstOf(b.max.e) < -1)
      || (PlainConst(a.min.e) && ConstOf(a.min.e) > MinOf(t))
  }

  /** The sign read off a factor must be its sign, and a negative one must scale an
      interval with both ends. */
  predicate MulRegular(t: Type, a: Interval, b: Interval) {
    b.IsPoint() && !a.IsPoint() && !t.IsUInt() ==>
      HonestSign(b.min) && (IsNegativeConst(b.min.e) ==> a.IsBounded() || t.Narrow())
  }

  /** The same for a divisor, where the rule divides at all. */
  predicate DivRegular(c: Tools, op: Expr, a: Interval, b: Interval)
    requires op.Bin?
  {
    var t := op.t.ElementOf();
    b.IsBounded() && !(a.IsPointAt(op.a) && b.IsPointAt(op.b)) ==>
      if c.prove(Bin(EQ, Bool(1), b.min.e, b.max.e)) then
        && (!t.IsUInt() ==> HonestSign(b.min) && (IsNegativeConst(b.min.e) ==> a.IsBounded()))
        && (a.IsBounded() ==> DivCannotWrap(c, t, a, b))
      else if a.IsBounded() && StaticSign(c, b.min.e) == StaticSign(c, b.max.e) != 0 then
        HonestEnd(b.min) && HonestEnd(b.max) && DivCannotWrap(c, t, a, b)
      else true
  }

  /** A divisor without both ends must be unsigned and without a lower end, or unbounded
      above and able to be zero or less. */
  predicate ModRegular(op: Expr, a: Interval, b: Interval)
    requires op.Bin?
  {
    var t := op.t.ElementOf();
    if b.IsBounded() then t.IsUInt() || (a.IsPoint() && b.IsPoint()) || HonestSign(b.min)
    else
      || b.IsEverything()
      || (t.IsUInt() && !b.HasLower())
      || (b.max.PosInf? && b.min.Fin? && PlainConst(b.min.e) && ConstOf(b.min.e) <= 0)
  }

  /** The inputs on which the rule of an arithmetic node is sound.  Each clause guards one
      branch of the rule that drops or misreads an end of an interval. */
  predicate BinRegular(c: Tools, op: Expr, a: Interval, b: Interval)
    requires op.Bin?
  {
    var t := op.t.ElementOf();
    match op.op
    case Add => t.Narrow() ==> BoundedOrAll(AddRule(c, op, a, b)) || (t.IsUInt() && AddRule(c, op, a, b).HasUpper())
    case Sub => t.Narrow() || t.IsUInt() ==> BoundedOrAll(SubRule(c, op, a, b)) || (t.IsUInt() && SubRule(c, op, a, b).HasLower())
    case Mul => if MulSwaps(a, b) then MulRegular(t, b, a) else MulRegular(t, a, b)
    case Div => DivRegular(c, op, a, b)
    case Mod => ModRegular(op, a, b)
    case _ => true
  }

  predicate SelectRegular(a: Interval, b: Interval) {
    BoundedOrAll(a) && (a.IsBounded() ==> BoundedOrAll(b))
  }

  // ---------- facts about constants ----------

  lemma {:induction false} ZeroIsZero(e: Expr, w: World, env: Env)
    requires IsZero(e)
    ensures Eval(e, w, env) == 0
  {
    match e
    case Imm(_, _) =>
    case Cast(t, value) => ZeroIsZero(value, w, env); ZeroInRange(t);
    case Broadcast(value, _) => ZeroIsZero(value, w, env);
  }

  lemma ZeroInRange(t: Type)
    ensures InRange(t, 0)
  {}

  lemma SignedConstsAreConsts(e: Expr)
    ensures IsPositiveConst(e) ==> IsConst(e)
    ensures IsNegativeConst(e) ==> IsConst(e)
  {}

  /** The sign read off an end of an interval is not the opposite of that of its value. */
  lemma SignOfEnd(b: Bound, w: World, env: Env)
    requires b.Fin? && HonestSign(b)
    ensures SignIs(b.e, Eval(b.e, w, env))
    ensures HonestEnd(b) && IsPositiveConst(b.e) ==> Eval(b.e, w, env) > 0
    ensures HonestEnd(b) && IsNegativeConst(b.e) ==> Eval(b.e, w, env) < 0
  {
    SignedConstsAreConsts(b.e);
    if IsConst(b.e) { ConstOfIs(b.e, w, env); }
  }

  lemma StaticSignIs(c: Tools, b: Bound, w: World, env: Env)
    requires b.Fin? && HonestSign(b) && SimplifierSound(c, w)
    ensures StaticSign(c, b.e) == 1 ==> Eval(b.e, w, env) >= 0
    ensures StaticSign(c, b.e) == -1 ==> Eval(b.e, w, env) <= 0
    ensures HonestEnd(b) && StaticSign(c, b.e) == 1 ==> Eval(b.e, w, env) > 0
    ensures HonestEnd(b) && StaticSign(c, b.e) == -1 ==> Eval(b.e, w, env) < 0
  {
    SignOfEnd(b, w, env);
    var t := TypeOf(b.e);
    var gt, lt := Bin(GT, Bool(1), b.e, Imm(t, 0)), Bin(LT, Bool(1), b.e, Imm(t, 0));
    if c.simplify(gt) == ConstTrue() { SimplifiesToTrue(c, gt, w, env); }
    if c.simplify(lt) == ConstTrue() { SimplifiesToTrue(c, lt, w, env); }
  }

  /** A sign found is the sign of the value. */
  lemma StaticSignSound(c: Tools, b: Bound, w: World, env: Env)
    requires b.Fin? && HonestEnd(b) && SimplifierSound(c, w)
    ensures StaticSign(c, b.e) == 1 ==> Eval(b.e, w, env) > 0
    ensures StaticSign(c, b.e) == -1 ==> Eval(b.e, w, env) < 0
  {
    StaticSignIs(c, b, w, env);
  }

  lemma SimplifiesToTrue(c: Tools, e: Expr, w: World, env: Env)
    requires SimplifierSound(c, w) && c.simplify(e) == ConstTrue()
    ensures Eval(e, w, env) == 1
  {
    assert Eval(c.simplify(e), w, env) == Eval(e, w, env);
  }

  lemma ElementRange(t: Type, v: int)
    ensures Wrap(t, v) == Wrap(t.ElementOf(), v)
    ensures InRange(t, v) <==> InRange(t.ElementOf(), v)
  {
    assert MinOf(t) == MinOf(t.ElementOf()) && MaxOf(t) == MaxOf(t.ElementOf());
  }

  lemma TypeBounds(t: Type, w: World, env: Env, v: int)
    requires InRange(t, v)
    ensures Brackets(BoundsOfType(t), t.ElementOf(), w, env, v)
  {
    ElementRange(t, v);
  }

  // ---------- addition and subtraction ----------

  predicate Exact(op: BinOp) { op.Add? || op.Sub? || op.Mul? }

  function ExactValue(op: BinOp, x: int, y: int): int
    requires Exact(op)
  {
    if op.Add? then x + y else if op.Sub? then x - y else x * y
  }

  lemma ApplyExact(op: BinOp, t: Type, x: int, y: int)
    requires Exact(op)
    ensures Apply(op, t, x, y) == Wrap(t, ExactValue(op, x, y))
  {}

  /** An end built from two ends has their exact sum, difference or product as its value:
      by the overflow test below 32 bits, by the lack of wrapping above. */
  lemma ExactEnd(op: BinOp, t: Type, p: Expr, q: Expr, w: World, env: Env)
    requires Exact(op)
    requires if t.Narrow() then Eval(NoOverflow(op, t, p, q), w, env) != 0
             else InRange(t, ExactValue(op, Eval(p, w, env), Eval(q, w, env)))
    ensures Eval(Bin(op, t, p, q), w, env) == ExactValue(op, Eval(p, w, env), Eval(q, w, env))
    ensures InRange(t, ExactValue(op, Eval(p, w, env), Eval(q, w, env)))
  {
    var x, y := Eval(p, w, env), Eval(q, w, env);
    ApplyExact(op, t, x, y);
    if t.Narrow() { ApplyExact(op, Int(32), x, y); }
  }

  lemma AddSound(c: Tools, op: Expr, a: Interval, b: Interval, w: World, env: Env, x: int, y: int)
    requires op.Bin? && op.op.Add? && ToolsSound(c, w)
    requires Brackets(a, op.t.ElementOf(), w, env, x) && Brackets(b, op.t.ElementOf(), w, env, y)
    requires InRange(op.t, x) && InRange(op.t, y)
    requires BinRegular(c, op, a, b)
    ensures Brackets(AddRule(c, op, a, b), op.t.ElementOf(), w, env, Wrap(op.t, x + y))
  {
    var t := op.t.ElementOf();
    ElementRange(op.t, x + y);
    ElementRange(op.t, x);
    ElementRange(op.t, y);
    if a.IsPoint() && b.IsPoint() {
      AddPoints(c, op, a, b, w, env, x, y);
    } else if AddRule(c, op, a, b) == BoundsOfType(t) {
      TypeBounds(t, w, env, Wrap(t, x + y));
    } else {
      AddOpen(c, op, a, b, w, env, x, y);
    }
  }

  lemma AddPoints(c: Tools, op: Expr, a: Interval, b: Interval, w: World, env: Env, x: int, y: int)
    requires op.Bin? && op.op.Add? && a.IsPoint() && b.IsPoint() && Contains(a, w, env, x) && Contains(b, w, env, y)
    ensures Brackets(AddRule(c, op, a, b), op.t.ElementOf(), w, env, Wrap(op.t.ElementOf(), x + y))
  {
    ElementRange(op.t, x + y);
  }

  lemma AddOpen(c: Tools, op: Expr, a: Interval, b: Interval, w: World, env: Env, x: int, y: int)
    requires op.Bin? && op.op.Add? && ToolsSound(c, w)
    requires Brackets(a, op.t.ElementOf(), w, env, x) && Brackets(b, op.t.ElementOf(), w, env, y)
    requires InRange(op.t, x) && InRange(op.t, y)
    requires BinRegular(c, op, a, b) && !(a.IsPoint() && b.IsPoint())
    requires AddRule(c, op, a, b) != BoundsOfType(op.t.ElementOf())
    ensures Brackets(AddRule(c, op, a, b), op.t.ElementOf(), w, env, Wrap(op.t.ElementOf(), x + y))
  {
    var t := op.t.ElementOf();
    var r := AddRule(c, op, a, b);
    ElementRange(op.t, x);
    ElementRange(op.t, y);
    if r.HasLower() { ExactEnd(Add, t, a.min.e, b.min.e, w, env); }
    if r.HasUpper() { ExactEnd(Add, t, a.max.e, b.max.e, w, env); }
    if !r.IsEverything() { assert InRange(t, x + y); }
  }

  lemma SubSound(c: Tools, op: Expr, a: Interval, b: Interval, w: World, env: Env, x: int, y: int)
    requires op.Bin? && op.op.Sub? && ToolsSound(c, w)
    requires Brackets(a, op.t.ElementOf(), w, env, x) && Brackets(b, op.t.ElementOf(), w, env, y)
    requires InRange(op.t, x) && InRange(op.t, y)
    requires BinRegular(c, op, a, b)
    ensures Brackets(SubRule(c, op, a, b), op.t.ElementOf(), w, env, Wrap(op.t, x - y))
  {
    var t := op.t.ElementOf();
    ElementRange(op.t, x - y);
    ElementRange(op.t, x);
    ElementRange(op.t, y);
    if SubRule(c, op, a, b) == BoundsOfType(t) {
      TypeBounds(t, w, env, Wrap(t, x - y));
    } else if !(a.IsPoint() && b.IsPoint()) {
      SubOpen(c, op, a, b, w, env, x, y);
    }
  }

  lemma SubOpen(c: Tools, op: Expr, a: Interval, b: Interval, w: World, env: Env, x: int, y: int)
    requires op.Bin? && op.op.Sub? && ToolsSound(c, w)
    requires Brackets(a, op.t.ElementOf(), w, env, x) && Brackets(b, op.t.ElementOf(), w, env, y)
    requires InRange(op.t, x) && InRange(op.t, y)
    requires BinRegular(c, op, a, b) && !(a.IsPoint() && b.IsPoint())
    requires SubRule(c, op, a, b) != BoundsOfType(op.t.ElementOf())
    ensures Brackets(SubRule(c, op, a, b), op.t.ElementOf(), w, env, Wrap(op.t.ElementOf(), x - y))
  {
    var t := op.t.ElementOf();
    var r := SubRule(c, op, a, b);
    if r.HasLower() {
      if t.IsUInt() { assert Eval(Bin(LE, Bool(1), b.max.e, a.min.e), w, env) != 0; }
      ExactEnd(Sub, t, a.min.e, b.max.e, w, env);
    }
    if r.HasUpper() {
      ExactEnd(Sub, t, a.max.e, b.min.e, w, env);
    }
    if !r.IsEverything() { assert InRange(t, x - y); }
  }

  // ---------- multiplication ----------

  lemma MulMonotone(x: int, x': int, y: int)
    requires x <= x'
    ensures y >= 0 ==> x * y <= x' * y
    ensures y <= 0 ==> x' * y <= x * y
  {
    if y >= 0 { assert (x' - x) * y >= 0; } else { assert (x' - x) * y <= 0; }
  }

  function Least(p: int, q: int, r: int, s: int): int { Ext(Min, Ext(Min, Ext(Min, p, q), r), s) }
  function Greatest(p: int, q: int, r: int, s: int): int { Ext(Max, Ext(Max, Ext(Max, p, q), r), s) }

  /** A product over a rectangle is extreme at a corner. */
  lemma MulCorners(x0: int, x: int, x1: int, y0: int, y: int, y1: int)
    requires x0 <= x <= x1 && y0 <= y <= y1
    ensures Least(x0 * y0, x0 * y1, x1 * y0, x1 * y1) <= x * y <= Greatest(x0 * y0, x0 * y1, x1 * y0, x1 * y1)
  {
    MulMonotone(x0, x, y);
    MulMonotone(x, x1, y);
    MulMonotone(y0, y, x0);
    MulMonotone(y, y1, x0);
    MulMonotone(y0, y, x1);
    MulMonotone(y, y1, x1);
  }

  predicate ProductExact(t: Type, p: Expr, q: Expr, w: World, env: Env) {
    var v := Eval(p, w, env) * Eval(q, w, env);
    Eval(Bin(Mul, t, p, q), w, env) == v && InRange(t, v)
  }

  /** The products at the corners neither wrap nor leave the type. */
  lemma CornersExact(c: Tools, t: Type, a: Interval, b: Interval, w: World, env: Env)
    requires ProverSound(c, w) && a.IsBounded() && b.IsBounded()
    requires EndsOk(a, t, w, env) && EndsOk(b, t, w, env)
    requires t.Narrow() ==> CornersFit(c, t, a, b)
    ensures ProductExact(t, a.min.e, b.min.e, w, env) && ProductExact(t, a.min.e, b.max.e, w, env)
    ensures ProductExact(t, a.max.e, b.min.e, w, env) && ProductExact(t, a.max.e, b.max.e, w, env)
  {
    if t.Narrow() {
      NarrowProduct(c, t, a, b, w, env);
    } else {
      WideProduct(t, a.min.e, b.min.e, w, env);
      WideProduct(t, a.min.e, b.max.e, w, env);
      WideProduct(t, a.max.e, b.min.e, w, env);
      WideProduct(t, a.max.e, b.max.e, w, env);
    }
  }

  lemma WideProduct(t: Type, p: Expr, q: Expr, w: World, env: Env)
    requires !t.Narrow() && InRange(t, Eval(p, w, env)) && InRange(t, Eval(q, w, env))
    ensures ProductExact(t, p, q, w, env)
  {
    NonNegative(Eval(p, w, env), Eval(q, w, env));
    ExactEnd(Mul, t, p, q, w, env);
  }

  lemma NonNegative(x: int, y: int)
    ensures x >= 0 && y >= 0 ==> ExactValue(Mul, x, y) >= 0
  {
    if x >= 0 && y >= 0 { MulMonotone(0, x, y); }
  }

  lemma BothHold(p: Expr, q: Expr, w: World, env: Env)
    requires Eval(Bin(And, Bool(1), p, q), w, env) != 0
    ensures Eval(p, w, env) != 0 && Eval(q, w, env) != 0
  {}

  lemma NarrowProduct(c: Tools, t: Type, a: Interval, b: Interval, w: World, env: Env)
    requires ProverSound(c, w) && a.IsBounded() && b.IsBounded() && t.Narrow() && CornersFit(c, t, a, b)
    ensures ProductExact(t, a.min.e, b.min.e, w, env) && ProductExact(t, a.min.e, b.max.e, w, env)
    ensures ProductExact(t, a.max.e, b.min.e, w, env) && ProductExact(t, a.max.e, b.max.e, w, env)
  {
    var t1, t2 := NoOverflow(Mul, t, a.min.e, b.min.e), NoOverflow(Mul, t, a.min.e, b.max.e);
    var t3, t4 := NoOverflow(Mul, t, a.max.e, b.min.e), NoOverflow(Mul, t, a.max.e, b.max.e);
    BothHold(Bin(And, Bool(1), Bin(And, Bool(1), t1, t2), t3), t4, w, env);
    BothHold(Bin(And, Bool(1), t1, t2), t3, w, env);
    BothHold(t1, t2, w, env);
    ExactEnd(Mul, t, a.min.e, b.min.e, w, env);
    ExactEnd(Mul, t, a.min.e, b.max.e, w, env);
    ExactEnd(Mul, t, a.max.e, b.min.e, w, env);
    ExactEnd(Mul, t, a.max.e, b.max.e, w, env);
  }

  /** Including four expressions gives their minimum and maximum. */
  lemma IncludesFour(p: Expr, q: Expr, r: Expr, s: Expr, t: Type, w: World, env: Env, v: int)
    requires InRange(t, Eval(p, w, env)) && InRange(t, Eval(q, w, env))
    requires InRange(t, Eval(r, w, env)) && InRange(t, Eval(s, w, env))
    requires Least(Eval(p, w, env), Eval(q, w, env), Eval(r, w, env), Eval(s, w, env)) <= v
    requires v <= Greatest(Eval(p, w, env), Eval(q, w, env), Eval(r, w, env), Eval(s, w, env))
    ensures Brackets(Include(Include(Include(Include(Nothing(), Point(p)), Point(q)), Point(r)), Point(s)), t, w, env, v)
  {
    var i := MakeExt(Min, MakeExt(Min, MakeExt(Min, p, q), r), s);
    var j := MakeExt(Max, MakeExt(Max, MakeExt(Max, p, q), r), s);
    MakeExtValue(Min, p, q, w, env);
    MakeExtValue(Max, p, q, w, env);
    MakeExtValue(Min, MakeExt(Min, p, q), r, w, env);
    MakeExtValue(Max, MakeExt(Max, p, q), r, w, env);
    MakeExtValue(Min, MakeExt(Min, MakeExt(Min, p, q), r), s, w, env);
    MakeExtValue(Max, MakeExt(Max, MakeExt(Max, p, q), r), s, w, env);
    IncludeFourIs(p, q, r, s);
  }

  lemma IncludeFourIs(p: Expr, q: Expr, r: Expr, s: Expr)
    ensures Include(Include(Include(Include(Nothing(), Point(p)), Point(q)), Point(r)), Point(s)) ==
            Range(MakeExt(Min, MakeExt(Min, MakeExt(Min, p, q), r), s), MakeExt(Max, MakeExt(Max, MakeExt(Max, p, q), r), s))
  {
    assert Include(Nothing(), Point(p)) == Point(p);
    IncludePoint(p, p, q);
    IncludePoint(MakeExt(Min, p, q), MakeExt(Max, p, q), r);
    IncludePoint(MakeExt(Min, MakeExt(Min, p, q), r), MakeExt(Max, MakeExt(Max, p, q), r), s);
  }

  lemma IncludePoint(lo: Expr, hi: Expr, e: Expr)
    ensures Include(Range(lo, hi), Point(e)) == Range(MakeExt(Min, lo, e), MakeExt(Max, hi, e))
  {}

  /** The second operand is a single value of known sign. */
  lemma MulByPoint(op: Expr, a: Interval, b: Interval, w: World, env: Env, x: int, y: int)
    requires op.Bin? && b.IsPoint() && !(a.IsPoint() && b.IsPoint())
    requires Brackets(a, op.t.ElementOf(), w, env, x) && Brackets(b, op.t.ElementOf(), w, env, y)
    requires InRange(op.t.ElementOf(), x) && (!op.t.IsUInt() ==> HonestSign(b.min))
    requires IsNegativeConst(b.min.e) && !op.t.IsUInt() ==> a.IsBounded()
    requires a.HasLower() ==> ProductExact(op.t.ElementOf(), a.min.e, b.min.e, w, env)
    requires a.HasUpper() ==> ProductExact(op.t.ElementOf(), a.max.e, b.min.e, w, env)
    ensures Brackets(MulCore(op, a, b), op.t.ElementOf(), w, env, x * y)
  {
    var t := op.t.ElementOf();
    if !t.IsUInt() { SignOfEnd(b.min, w, env); }
    if a.HasLower() { MulMonotone(Eval(a.min.e, w, env), x, y); }
    if a.HasUpper() { MulMonotone(x, Eval(a.max.e, w, env), y); }
    if IsZero(b.min.e) {
      ZeroIsZero(b.min.e, w, env);
      ZeroInRange(t);
    } else if IsPositiveConst(b.min.e) || t.IsUInt() {
      assert y >= 0;
    } else if IsNegativeConst(b.min.e) {
      assert y <= 0;
    } else if a.IsBounded() {
      MulUnknownSign(t, a.min.e, a.max.e, b.min.e, w, env, x);
    }
  }

  lemma MulUnknownSign(t: Type, lo: Expr, hi: Expr, b: Expr, w: World, env: Env, x: int)
    requires Eval(lo, w, env) <= x <= Eval(hi, w, env)
    requires ProductExact(t, lo, b, w, env) && ProductExact(t, hi, b, w, env)
    ensures Brackets(BySign(GE, t, b, Bin(Mul, t, lo, b), Bin(Mul, t, hi, b)), t, w, env, x * Eval(b, w, env))
  {
    var y := Eval(b, w, env);
    var v := x * y;
    MulMonotone(Eval(lo, w, env), x, y);
    MulMonotone(x, Eval(hi, w, env), y);
    var e1, e2 := Bin(Mul, t, lo, b), Bin(Mul, t, hi, b);
    assert y >= 0 ==> Eval(e1, w, env) <= v <= Eval(e2, w, env);
    assert y <= 0 ==> Eval(e2, w, env) <= v <= Eval(e1, w, env);
    BySignSound(GE, t, b, e1, e2, w, env, v);
  }

  lemma BySignSound(cmp: BinOp, t: Type, b: Expr, e1: Expr, e2: Expr, w: World, env: Env, v: int)
    requires cmp.GE? || cmp.GT?
    requires InRange(t, Eval(e1, w, env)) && InRange(t, Eval(e2, w, env))
    requires Eval(b, w, env) >= 0 ==> Eval(e1, w, env) <= v <= Eval(e2, w, env)
    requires Eval(b, w, env) <= 0 ==> Eval(e2, w, env) <= v <= Eval(e1, w, env)
    ensures Brackets(BySign(cmp, t, b, e1, e2), t, w, env, v)
  {
    SignTest(cmp, t, b, w, env);
  }

  lemma SignTest(cmp: BinOp, t: Type, b: Expr, w: World, env: Env)
    requires cmp.GE? || cmp.GT?
    ensures Eval(Bin(cmp, Bool(1), b, Imm(t, 0)), w, env) != 0 ==> Eval(b, w, env) >= 0
    ensures Eval(Bin(cmp, Bool(1), b, Imm(t, 0)), w, env) == 0 ==> Eval(b, w, env) <= 0
  {
    assert Eval(Imm(t, 0), w, env) == 0;
  }

  lemma MulSound(c: Tools, op: Expr, a: Interval, b: Interval, w: World, env: Env, x: int, y: int)
    requires op.Bin? && op.op.Mul? && ToolsSound(c, w)
    requires Brackets(a, op.t.ElementOf(), w, env, x) && Brackets(b, op.t.ElementOf(), w, env, y)
    requires InRange(op.t, x) && InRange(op.t, y)
    requires BinRegular(c, op, a, b)
    ensures Brackets(MulRule(c, op, a, b), op.t.ElementOf(), w, env, Wrap(op.t, x * y))
  {
    ElementRange(op.t, x * y);
    ElementRange(op.t, x);
    ElementRange(op.t, y);
    if MulSwaps(a, b) {
      Commutes(x, y);
      MulOrderedSound(c, op, b, a, w, env, y, x);
    } else {
      MulOrderedSound(c, op, a, b, w, env, x, y);
    }
  }

  lemma Commutes(x: int, y: int)
    ensures x * y == y * x
  {}

  lemma MulOrderedSound(c: Tools, op: Expr, a: Interval, b: Interval, w: World, env: Env, x: int, y: int)
    requires op.Bin? && op.op.Mul? && ToolsSound(c, w)
    requires Brackets(a, op.t.ElementOf(), w, env, x) && Brackets(b, op.t.ElementOf(), w, env, y)
    requires InRange(op.t.ElementOf(), x) && InRange(op.t.ElementOf(), y)
    requires MulRegular(op.t.ElementOf(), a, b)
    ensures Brackets(MulOrdered(c, op, a, b), op.t.ElementOf(), w, env, Wrap(op.t.ElementOf(), x * y))
  {
    var t := op.t.ElementOf();
    if t.Narrow() && !(a.IsBounded() && b.IsBounded() && CornersFit(c, t, a, b)) {
      TypeBounds(t, w, env, Wrap(t, x * y));
    } else {
      MulCoreSound(c, op, a, b, w, env, x, y);
    }
  }

  lemma MulCoreSound(c: Tools, op: Expr, a: Interval, b: Interval, w: World, env: Env, x: int, y: int)
    requires op.Bin? && op.op.Mul? && ToolsSound(c, w)
    requires Brackets(a, op.t.ElementOf(), w, env, x) && Brackets(b, op.t.ElementOf(), w, env, y)
    requires InRange(op.t.ElementOf(), x) && InRange(op.t.ElementOf(), y)
    requires b.IsPoint() && !a.IsPoint() && !op.t.IsUInt() ==> HonestSign(b.min)
    requires op.t.Narrow() ==> a.IsBounded() && b.IsBounded() && CornersFit(c, op.t.ElementOf(), a, b)
    requires b.IsPoint() && !a.IsPoint() && !op.t.IsUInt() && IsNegativeConst(b.min.e) ==> a.IsBounded()
    ensures Brackets(MulCore(op, a, b), op.t.ElementOf(), w, env, Wrap(op.t.ElementOf(), x * y))
  {
    var t := op.t.ElementOf();
    if a.IsPoint() && b.IsPoint() {
      ElementRange(op.t, x * y);
    } else if a.IsBounded() && b.IsBounded() {
      CornersExact(c, t, a, b, w, env);
      MulCorners(Eval(a.min.e, w, env), x, Eval(a.max.e, w, env), Eval(b.min.e, w, env), y, Eval(b.max.e, w, env));
      if b.IsPoint() {
        MulByPoint(op, a, b, w, env, x, y);
      } else {
        IncludesFour(Bin(Mul, t, a.min.e, b.min.e), Bin(Mul, t, a.min.e, b.max.e),
                     Bin(Mul, t, a.max.e, b.min.e), Bin(Mul, t, a.max.e, b.max.e), t, w, env, x * y);
      }
      assert InRange(t, x * y);
    } else if b.IsPoint() {
      if a.HasLower() { WideProduct(t, a.min.e, b.min.e, w, env); }
      if a.HasUpper() { WideProduct(t, a.max.e, b.min.e, w, env); }
      MulByPoint(op, a, b, w, env, x, y);
      if t.IsUInt() { MulMonotone(0, x, y); }
    }
  }

  // ---------- division ----------

  function DivValue(x: int, y: int): int { if y == 0 then 0 else x / y }

  lemma Euclid(x: int, y: int)
    requires y != 0
    ensures x == y * (x / y) + x % y && 0 <= x % y < AbsInt(y)
  {}

  lemma DivByNegative(x: int, y: int)
    requires y != 0
    ensures x / (-y) == -(x / y)
  {
    Euclid(x, y);
    Euclid(x, -y);
    var q, q' := x / y, -(x / (-y));
    assert y * q + x % y == y * q' + x % (-y);
    assert y * (q - q') == x % (-y) - x % y;
    if q != q' { SmallMultiple(y, q - q'); }
  }

  lemma SmallMultiple(y: int, k: int)
    requires k != 0
    ensures y * k >= AbsInt(y) || y * k <= -AbsInt(y)
  {
    if k >= 1 {
      MulMonotone(1, k, y);
    } else {
      MulMonotone(k, -1, y);
    }
  }

  lemma DivMonotone(x: int, x': int, y: int)
    requires x <= x'
    ensures y > 0 ==> x / y <= x' / y
    ensures y < 0 ==> x' / y <= x / y
  {
    if y > 0 {
      DivPositive(x, x', y);
    } else if y < 0 {
      DivPositive(x, x', -y);
      DivByNegative(x, y);
      DivByNegative(x', y);
    }
  }

  lemma DivPositive(x: int, x': int, y: int)
    requires x <= x' && y > 0
    ensures x / y <= x' / y
  {
    Euclid(x, y);
    Euclid(x', y);
    if x / y >= x' / y + 1 { MulMonotone(x' / y + 1, x / y, y); }
  }

  /** A quotient lies between those by a smaller and a larger divisor of the same sign. */
  lemma DivBetween(x: int, y0: int, y: int, y1: int)
    requires y0 <= y <= y1 && (y0 > 0 || y1 < 0)
    ensures Ext(Min, x / y0, x / y1) <= x / y <= Ext(Max, x / y0, x / y1)
  {
    if y0 > 0 {
      DivBetweenPositive(x, y0, y, y1);
    } else {
      DivBetweenPositive(x, -y1, -y, -y0);
      DivByNegative(x, y0);
      DivByNegative(x, y);
      DivByNegative(x, y1);
    }
  }

  lemma DivBetweenPositive(x: int, y0: int, y: int, y1: int)
    requires 0 < y0 <= y <= y1
    ensures Ext(Min, x / y0, x / y1) <= x / y <= Ext(Max, x / y0, x / y1)
  {
    DivSlope(x, y0, y);
    DivSlope(x, y, y1);
  }

  lemma DivSlope(x: int, y: int, y': int)
    requires 0 < y <= y'
    ensures x >= 0 ==> x / y' <= x / y
    ensures x < 0 ==> x / y <= x / y'
  {
    Euclid(x, y);
    Euclid(x, y');
    var q, q' := x / y, x / y';
    if x >= 0 && q' >= q + 1 {
      MulMonotone(q + 1, q', y');
      assert q + 1 > 0 by { if q + 1 <= 0 { MulMonotone(q + 1, 0, y); } }
      MulMonotone(y, y', q + 1);
    } else if x < 0 && q >= q' + 1 {
      MulMonotone(q' + 1, q, y');
      assert q < 0 by { if q >= 0 { MulMonotone(0, q, y); } }
      MulMonotone(y, y', q);
    }
  }

  lemma DivCorners(x0: int, x: int, x1: int, y0: int, y: int, y1: int)
    requires x0 <= x <= x1 && y0 <= y <= y1 && (y0 > 0 || y1 < 0)
    ensures Least(x0 / y0, x1 / y0, x0 / y1, x1 / y1) <= x / y <= Greatest(x0 / y0, x1 / y0, x0 / y1, x1 / y1)
  {
    DivMonotone(x0, x, y);
    DivMonotone(x, x1, y);
    DivBetween(x0, y0, y, y1);
    DivBetween(x1, y0, y, y1);
  }

  /** Not the one quotient that does not fit its type. */
  predicate Fits(t: Type, x: int, y: int) { t.signed && t.Narrow() ==> !(x == MinOf(t) && y == -1) }

  lemma DivInRange(t: Type, x: int, y: int)
    requires InRange(t, x) && InRange(t, y) && Fits(t, x, y)
    ensures InRange(t, DivValue(x, y))
  {
    if y > 0 {
      DivByPositive(x, y);
    } else if y < 0 && t.signed && t.Narrow() {
      DivByNegative(x, y);
      DivByPositive(x, -y);
      if x == MinOf(t) { HalfIsLess(x, -y); }
    }
  }

  lemma DivByPositive(x: int, y: int)
    requires y > 0
    ensures if x >= 0 then 0 <= x / y <= x else x <= x / y <= 0
  {
    DivSlope(x, 1, y);
    assert x / 1 == x;
    assert 0 / y == 0;
    if x < 0 { DivMonotone(x, 0, y); } else { DivMonotone(0, x, y); }
  }

  lemma HalfIsLess(x: int, y: int)
    requires x < 0 && 2 <= y <= -x
    ensures x < x / y
  {
    DivSlope(x, 2, y);
  }

  predicate QuotientExact(t: Type, p: Expr, q: Expr, w: World, env: Env) {
    var v := DivValue(Eval(p, w, env), Eval(q, w, env));
    Eval(Bin(Div, t, p, q), w, env) == v && InRange(t, v)
  }

  lemma QuotientEnd(t: Type, p: Expr, q: Expr, w: World, env: Env)
    requires InRange(t, Eval(p, w, env)) && InRange(t, Eval(q, w, env)) && Fits(t, Eval(p, w, env), Eval(q, w, env))
    ensures QuotientExact(t, p, q, w, env)
  {
    DivInRange(t, Eval(p, w, env), Eval(q, w, env));
    ApplyDiv(t, Eval(p, w, env), Eval(q, w, env));
  }

  lemma ApplyDiv(t: Type, x: int, y: int)
    ensures Apply(Div, t, x, y) == Wrap(t, DivValue(x, y))
  {}

  lemma DivValueMonotone(x: int, x': int, y: int)
    requires x <= x'
    ensures y >= 0 ==> DivValue(x, y) <= DivValue(x', y)
    ensures y <= 0 ==> DivValue(x', y) <= DivValue(x, y)
  {
    if y != 0 { DivMonotone(x, x', y); }
  }

  lemma DivByPoint(c: Tools, op: Expr, a: Interval, b: Interval, w: World, env: Env, x: int, y: int)
    requires op.Bin? && op.op.Div? && ToolsSound(c, w) && b.IsBounded()
    requires Brackets(a, op.t.ElementOf(), w, env, x) && Eval(b.min.e, w, env) == y == Eval(b.max.e, w, env)
    requires InRange(op.t.ElementOf(), x) && InRange(op.t.ElementOf(), y)
    requires !op.t.IsUInt() ==> HonestSign(b.min) && (IsNegativeConst(b.min.e) ==> a.IsBounded())
    requires a.HasLower() ==> Fits(op.t.ElementOf(), Eval(a.min.e, w, env), y)
    requires a.HasUpper() ==> Fits(op.t.ElementOf(), Eval(a.max.e, w, env), y)
    requires c.prove(Bin(EQ, Bool(1), b.min.e, b.max.e)) && !(a.IsPointAt(op.a) && b.IsPointAt(op.b))
    ensures Brackets(DivRule(c, op, a, b), op.t.ElementOf(), w, env, DivValue(x, y))
  {
    var t := op.t.ElementOf();
    if !t.IsUInt() { SignOfEnd(b.min, w, env); }
    if a.HasLower() {
      QuotientEnd(t, a.min.e, b.min.e, w, env);
      DivValueMonotone(Eval(a.min.e, w, env), x, y);
    }
    if a.HasUpper() {
      QuotientEnd(t, a.max.e, b.max.e, w, env);
      DivValueMonotone(x, Eval(a.max.e, w, env), y);
    }
    if IsPositiveConst(b.min.e) || t.IsUInt() {
    } else if IsNegativeConst(b.min.e) {
    } else if a.IsBounded() {
      BySignSound(GT, t, b.min.e, Bin(Div, t, a.min.e, b.min.e), Bin(Div, t, a.max.e, b.max.e), w, env, DivValue(x, y));
    }
  }

  lemma DivByRange(c: Tools, t: Type, a: Interval, b: Interval, w: World, env: Env, x: int, y: int)
    requires SimplifierSound(c, w) && a.IsBounded() && b.IsBounded()
    requires Brackets(a, t, w, env, x) && Brackets(b, t, w, env, y)
    requires HonestEnd(b.min) && HonestEnd(b.max)
    requires StaticSign(c, b.min.e) == StaticSign(c, b.max.e) != 0
    requires QuotientsFit(t, Eval(a.min.e, w, env), Eval(b.min.e, w, env), Eval(b.max.e, w, env))
    ensures Brackets(Include(Include(Include(Include(Nothing(),
              Point(Bin(Div, t, a.min.e, b.min.e))), Point(Bin(Div, t, a.max.e, b.min.e))),
              Point(Bin(Div, t, a.min.e, b.max.e))), Point(Bin(Div, t, a.max.e, b.max.e))), t, w, env, DivValue(x, y))
  {
    StaticSignSound(c, b.min, w, env);
    StaticSignSound(c, b.max, w, env);
    QuotientEnd(t, a.min.e, b.min.e, w, env);
    QuotientEnd(t, a.max.e, b.min.e, w, env);
    QuotientEnd(t, a.min.e, b.max.e, w, env);
    QuotientEnd(t, a.max.e, b.max.e, w, env);
    DivCorners(Eval(a.min.e, w, env), x, Eval(a.max.e, w, env), Eval(b.min.e, w, env), y, Eval(b.max.e, w, env));
    IncludesFour(Bin(Div, t, a.min.e, b.min.e), Bin(Div, t, a.max.e, b.min.e),
                 Bin(Div, t, a.min.e, b.max.e), Bin(Div, t, a.max.e, b.max.e), t, w, env, DivValue(x, y));
  }

  /** No quotient of values above x0 by values from y0 to y1 is MIN / -1. */
  predicate QuotientsFit(t: Type, x0: int, y0: int, y1: int) {
    t.signed && t.Narrow() ==> y0 >= 0 || y1 < -1 || x0 > MinOf(t)
  }

  lemma CannotWrap(c: Tools, t: Type, a: Interval, b: Interval, w: World, env: Env)
    requires SimplifierSound(c, w) && a.min.Fin? && b.IsBounded() && HonestSign(b.min) && DivCannotWrap(c, t, a, b)
    ensures QuotientsFit(t, Eval(a.min.e, w, env), Eval(b.min.e, w, env), Eval(b.max.e, w, env))
  {
    StaticSignIs(c, b.min, w, env);
    if PlainConst(b.max.e) { ConstOfIs(b.max.e, w, env); }
    if PlainConst(a.min.e) { ConstOfIs(a.min.e, w, env); }
  }

  lemma DivSingle(c: Tools, op: Expr, a: Interval, b: Interval, w: World, env: Env, x: int, y: int)
    requires op.Bin? && op.op.Div? && ToolsSound(c, w) && b.IsBounded() && DivRegular(c, op, a, b)
    requires Brackets(a, op.t.ElementOf(), w, env, x) && Brackets(b, op.t.ElementOf(), w, env, y)
    requires InRange(op.t.ElementOf(), x) && InRange(op.t.ElementOf(), y)
    requires c.prove(Bin(EQ, Bool(1), b.min.e, b.max.e)) && !(a.IsPointAt(op.a) && b.IsPointAt(op.b))
    ensures Brackets(DivRule(c, op, a, b), op.t.ElementOf(), w, env, Wrap(op.t.ElementOf(), DivValue(x, y)))
  {
    var t := op.t.ElementOf();
    assert Eval(Bin(EQ, Bool(1), b.min.e, b.max.e), w, env) != 0;
    if !t.IsUInt() { SignOfEnd(b.min, w, env); }
    if a.IsBounded() && !t.IsUInt() { CannotWrap(c, t, a, b, w, env); }
    if DivRule(c, op, a, b) != Everything() {
      DivInRange(t, x, y);
      DivByPoint(c, op, a, b, w, env, x, y);
    }
  }

  lemma DivSound(c: Tools, op: Expr, a: Interval, b: Interval, w: World, env: Env, x: int, y: int)
    requires op.Bin? && op.op.Div? && ToolsSound(c, w)
    requires Brackets(a, op.t.ElementOf(), w, env, x) && Brackets(b, op.t.ElementOf(), w, env, y)
    requires InRange(op.t, x) && InRange(op.t, y)
    requires BinRegular(c, op, a, b)
    ensures Brackets(DivRule(c, op, a, b), op.t.ElementOf(), w, env, Wrap(op.t, DivValue(x, y)))
  {
    var t := op.t.ElementOf();
    ElementRange(op.t, DivValue(x, y));
    ElementRange(op.t, x);
    ElementRange(op.t, y);
    if b.IsBounded() {
      if a.IsPointAt(op.a) && b.IsPointAt(op.b) {
        ApplyDiv(op.t, x, y);
      } else {
        var same := Bin(EQ, Bool(1), b.min.e, b.max.e);
        if c.prove(same) {
          DivSingle(c, op, a, b, w, env, x, y);
        } else if a.IsBounded() && StaticSign(c, b.min.e) == StaticSign(c, b.max.e) != 0 {
          CannotWrap(c, t, a, b, w, env);
          DivInRange(t, x, y);
          DivByRange(c, t, a, b, w, env, x, y);
        }
      }
    }
  }

  // ---------- remainder ----------

  function ModValue(x: int, y: int): int { if y == 0 then 0 else x % y }

  lemma ApplyMod(t: Type, x: int, y: int)
    ensures Apply(Mod, t, x, y) == Wrap(t, ModValue(x, y))
  {}

  lemma ModSound(c: Tools, op: Expr, a: Interval, b: Interval, w: World, env: Env, x: int, y: int)
    requires op.Bin? && op.op.Mod?
    requires Brackets(a, op.t.ElementOf(), w, env, x) && Brackets(b, op.t.ElementOf(), w, env, y)
    requires InRange(op.t, x) && InRange(op.t, y) && y != 0
    requires BinRegular(c, op, a, b)
    ensures Brackets(ModRule(op, a, b), op.t.ElementOf(), w, env, Wrap(op.t, ModValue(x, y)))
  {
    var t := op.t.ElementOf();
    ElementRange(op.t, ModValue(x, y));
    ElementRange(op.t, y);
    ApplyMod(op.t, x, y);
    ApplyMod(t, x, y);
    if !b.IsBounded() {
      Euclid(x, y);
      if b.min.Fin? && PlainConst(b.min.e) { ConstOfIs(b.min.e, w, env); }
    } else if !(a.IsPoint() && b.IsPoint()) {
      if !t.IsUInt() { SignOfEnd(b.min, w, env); }
      Euclid(x, y);
      if t.IsUInt() || IsPositiveConst(b.min.e) {
        ModPositive(t, b.max.e, w, env, x, y);
      } else {
        ModAnySign(t, b.min.e, b.max.e, w, env, x, y);
      }
    }
  }

  lemma ModPositive(t: Type, hi: Expr, w: World, env: Env, x: int, y: int)
    requires 0 < y <= Eval(hi, w, env) && InRange(t, Eval(hi, w, env)) && InRange(t, y)
    ensures Brackets(Range(Imm(t, 0), Bin(Sub, t, hi, Imm(t, 1))), t, w, env, Wrap(t, ModValue(x, y)))
  {
    Euclid(x, y);
    ZeroInRange(t);
    assert InRange(t, Eval(hi, w, env) - 1);
    assert InRange(t, ModValue(x, y));
    SubOne(t, hi, w, env);
  }

  lemma SubOne(t: Type, hi: Expr, w: World, env: Env)
    ensures Eval(Bin(Sub, t, hi, Imm(t, 1)), w, env) == Wrap(t, Eval(hi, w, env) - 1)
  {
    assert Eval(Imm(t, 1), w, env) == 1;
  }

  /** The bound max(|lo|, |hi|) - 1 holds even when |MIN| does not fit the signed type:
      the cast wraps it to MIN, and MIN - 1 wraps to MAX. */
  lemma ModAnySign(t: Type, lo: Expr, hi: Expr, w: World, env: Env, x: int, y: int)
    requires t.signed && y != 0 && Eval(lo, w, env) <= y <= Eval(hi, w, env)
    requires InRange(t, Eval(lo, w, env)) && InRange(t, Eval(hi, w, env)) && InRange(t, y)
    ensures var u := Type(false, t.bits, 1);
            var m := Bin(Max, u, Call(Abs, u, "abs", 0, [lo]), Call(Abs, u, "abs", 0, [hi]));
            Brackets(Range(Imm(t, 0), Bin(Sub, t, Cast(t, m), Imm(t, 1))), t, w, env, Wrap(t, ModValue(x, y)))
  {
    var k := Ext(Max, AbsInt(Eval(lo, w, env)), AbsInt(Eval(hi, w, env)));
    var m := LargestAbs(t, lo, hi);
    LargestAbsValue(t, lo, hi, w, env);
    RemainderBelow(x, y, Eval(lo, w, env), Eval(hi, w, env));
    UpperEnd(t, m, k, w, env);
    ZeroInRange(t);
    assert InRange(t, ModValue(x, y));
  }

  function LargestAbs(t: Type, lo: Expr, hi: Expr): Expr {
    var u := Type(false, t.bits, 1);
    Bin(Max, u, Call(Abs, u, "abs", 0, [lo]), Call(Abs, u, "abs", 0, [hi]))
  }

  lemma LargestAbsValue(t: Type, lo: Expr, hi: Expr, w: World, env: Env)
    requires t.signed && InRange(t, Eval(lo, w, env)) && InRange(t, Eval(hi, w, env))
    ensures Eval(LargestAbs(t, lo, hi), w, env) == Ext(Max, AbsInt(Eval(lo, w, env)), AbsInt(Eval(hi, w, env)))
    ensures t.Narrow() ==> Ext(Max, AbsInt(Eval(lo, w, env)), AbsInt(Eval(hi, w, env))) <= MaxOf(t) + 1
  {
    AbsExact(t, lo, w, env);
    AbsExact(t, hi, w, env);
    ExtIsApply(Max, Type(false, t.bits, 1), AbsInt(Eval(lo, w, env)), AbsInt(Eval(hi, w, env)));
  }

  lemma AbsExact(t: Type, e: Expr, w: World, env: Env)
    requires t.signed && InRange(t, Eval(e, w, env))
    ensures Eval(Call(Abs, Type(false, t.bits, 1), "abs", 0, [e]), w, env) == AbsInt(Eval(e, w, env))
    ensures t.Narrow() ==> AbsInt(Eval(e, w, env)) <= MaxOf(t) + 1
  {
    AbsFits(t, Eval(e, w, env));
    AbsValue(Type(false, t.bits, 1), e, w, env);
  }

  lemma RemainderBelow(x: int, y: int, lo: int, hi: int)
    requires y != 0 && lo <= y <= hi
    ensures 0 <= ModValue(x, y) <= Ext(Max, AbsInt(lo), AbsInt(hi)) - 1
  {
    Euclid(x, y);
  }

  lemma UpperEnd(t: Type, m: Expr, k: int, w: World, env: Env)
    requires t.signed && Eval(m, w, env) == k && k > 0 && (t.Narrow() ==> k <= MaxOf(t) + 1)
    ensures Eval(Bin(Sub, t, Cast(t, m), Imm(t, 1)), w, env) == k - 1 && InRange(t, k - 1)
  {
    WrapTwice(t, k);
    SubOne(t, Cast(t, m), w, env);
  }

  lemma AbsValue(u: Type, e: Expr, w: World, env: Env)
    ensures Eval(Call(Abs, u, "abs", 0, [e]), w, env) == Wrap(u, AbsInt(Eval(e, w, env)))
  {
    EvalOne(e, w, env);
  }

  lemma AbsFits(t: Type, v: int)
    requires t.signed && InRange(t, v)
    ensures InRange(Type(false, t.bits, 1), AbsInt(v))
    ensures t.Narrow() ==> AbsInt(v) <= MaxOf(t) + 1
  {}

  lemma WrapTwice(t: Type, k: int)
    requires t.signed && k > 0 && (t.Narrow() ==> k <= MaxOf(t) + 1)
    ensures Wrap(t, Wrap(t, k) - 1) == k - 1 && InRange(t, k - 1)
  {
    if t.Narrow() && k == MaxOf(t) + 1 {
      var n := Modulus(t);
      assert k - MinOf(t) == n;
      ModFacts(n);
      assert Wrap(t, k) == MinOf(t);
    }
  }

  lemma ModFacts(n: int)
    requires n > 0
    ensures n % n == 0 && (-1) % n == n - 1
  {}

  // ---------- casts ----------

  lemma {:induction false} Pow2Monotone(m: nat, n: nat)
    requires m <= n
    ensures Pow2(m) <= Pow2(n)
    decreases n
  {
    if m < n { Pow2Monotone(m, n - 1); }
  }

  /** can_represent means what it says. */
  lemma Represents(to: Type, from: Type, v: int)
    requires to.CanRepresent(from) && InRange(from, v)
    ensures InRange(to, v)
  {
    Pow2Monotone(from.bits - 1, from.bits);
    Pow2Monotone(to.bits - 1, to.bits);
    if from.bits < to.bits { Pow2Monotone(from.bits, to.bits - 1); }
    if from.bits <= to.bits {
      Pow2Monotone(from.bits, to.bits);
      Pow2Monotone(from.bits - 1, to.bits - 1);
    }
  }

  lemma {:induction false} RangedValue(e: Expr, w: World, env: Env)
    requires Ranged(e)
    ensures InRange(TypeOf(e), Eval(e, w, env))
  {
    match e
    case Bin(op, t, a, b) =>
      if IsExt(op) {
        RangedValue(a, w, env);
        RangedValue(b, w, env);
        ExtIsApply(op, t, Eval(a, w, env), Eval(b, w, env));
      } else {
        ArithRange(op, t, Eval(a, w, env), Eval(b, w, env));
      }
    case Select(_, tv, fv) => RangedValue(tv, w, env); RangedValue(fv, w, env);
    case Let(name, value, body) => RangedValue(body, w, env.Set(name, Eval(value, w, env)));
    case _ =>
  }

  lemma ArithRange(op: BinOp, t: Type, x: int, y: int)
    requires IsArith(op) && !IsExt(op)
    ensures InRange(t, Apply(op, t, x, y))
  {}

  /** What find_constant_bound finds is a constant bound, on the side asked for. */
  lemma {:induction false} FindConstantBoundSound(c: Tools, e: Expr, upper: bool, w: World, env: Env)
    requires SimplifierSound(c, w) && WidensOnly(c, e, upper)
    ensures FoundOk(c, e, upper, w, env)
  {
    if FindConstantBound(c, e, upper).None? {
    } else if IsConst(e) {
      RangedValue(e, w, env);
    } else if IsNode(Min, e) || IsNode(Max, e) {
      FindConstantBoundSound(c, e.a, upper, w, env);
      FindConstantBoundSound(c, e.b, upper, w, env);
      FoundInNode(c, e, upper, w, env);
    } else if e.Cast? {
      FindConstantBoundSound(c, e.value, upper, w, env);
      FoundInCast(c, e, upper, w, env);
    }
  }

  /** The constant lies on the side asked for, and is a value of the expression's type. */
  ghost predicate FoundOk(c: Tools, e: Expr, upper: bool, w: World, env: Env) {
    var k := FindConstantBound(c, e, upper);
    k.Some? ==>
      && InRange(TypeOf(e), Eval(k.value, w, env))
      && (if upper then Eval(e, w, env) <= Eval(k.value, w, env) else Eval(k.value, w, env) <= Eval(e, w, env))
  }

  lemma FoundInNode(c: Tools, e: Expr, upper: bool, w: World, env: Env)
    requires SimplifierSound(c, w) && WidensOnly(c, e, upper) && !IsConst(e) && (IsNode(Min, e) || IsNode(Max, e))
    requires FoundOk(c, e.a, upper, w, env) && FoundOk(c, e.b, upper, w, env)
    ensures FoundOk(c, e, upper, w, env)
  {
    NodeValue(e.op, e, w, env);
    var a, b := FindConstantBound(c, e.a, upper), FindConstantBound(c, e.b, upper);
    if a.Some? && b.Some? {
      var m := Bin(e.op, e.t, a.value, b.value);
      assert Eval(c.simplify(m), w, env) == Eval(m, w, env);
      NodeValue(e.op, m, w, env);
    }
  }

  lemma FoundInCast(c: Tools, e: Expr, upper: bool, w: World, env: Env)
    requires SimplifierSound(c, w) && WidensOnly(c, e, upper) && !IsConst(e) && e.Cast?
    requires FoundOk(c, e.value, upper, w, env)
    ensures FoundOk(c, e, upper, w, env)
  {
    var a := FindConstantBound(c, e.value, upper);
    if a.Some? {
      RangedValue(e.value, w, env);
      KeepsValue(e.t, TypeOf(e.value), Eval(e.value, w, env));
      KeepsValue(e.t, TypeOf(e.value), Eval(a.value, w, env));
      assert Eval(c.simplify(Cast(e.t, a.value)), w, env) == Eval(Cast(e.t, a.value), w, env);
    }
  }

  lemma KeepsValue(to: Type, from: Type, v: int)
    requires KeepsAll(to, from) && InRange(from, v)
    ensures InRange(to, v)
  {
    if to.CanRepresent(from) { Represents(to, from, v); }
  }

  lemma WidenedSound(a: Interval, to: Type, from: Type, w: World, env: Env, v: int)
    requires KeepsAll(to, from) && Brackets(a, from, w, env, v) && InRange(from, v) && from.lanes == 1
    ensures Brackets(Widened(a, to, from), to, w, env, Wrap(to, v))
  {
    TypeBounds(from, w, env, v);
    KeepsValue(to, from, v);
    var i := BoundsOfType(from);
    var j := Interval(if a.HasLower() then a.min else i.min, if a.HasUpper() then a.max else i.max);
    assert Brackets(j, from, w, env, v);
    if j.HasLower() { KeepsValue(to, from, Eval(j.min.e, w, env)); }
    if j.HasUpper() { KeepsValue(to, from, Eval(j.max.e, w, env)); }
  }

  lemma SurvivesRoundTrip(to: Type, from: Type, e: Expr, w: World, env: Env)
    requires from.CanRepresent(to) && Eval(Unchanged(to, from, e), w, env) != 0
    ensures InRange(to, Eval(e, w, env))
  {
    var k := Eval(e, w, env);
    Represents(from, to, Wrap(to, k));
    assert Eval(Cast(from, Cast(to, e)), w, env) == Wrap(from, Wrap(to, k));
    assert Wrap(from, Wrap(to, k)) == k;
  }

  lemma CastSound(c: Tools, op: Expr, a: Interval, w: World, env: Env, v: int)
    requires op.Cast? && ToolsSound(c, w) && op.t.lanes == TypeOf(op.value).lanes
    requires Brackets(a, TypeOf(op.value).ElementOf(), w, env, v) && InRange(TypeOf(op.value), v)
    requires CastRegular(c, op, a)
    ensures Brackets(CastRule(c, op, a), op.t.ElementOf(), w, env, Wrap(op.t, v))
  {
    var to, from := op.t.ElementOf(), TypeOf(op.value).ElementOf();
    ElementRange(op.t, v);
    ElementRange(TypeOf(op.value), v);
    if a.IsPointAt(op.value) || a.IsPoint() {
    } else if KeepsAll(to, from) {
      WidenedSound(a, to, from, w, env, v);
    } else {
      TypeBounds(to, w, env, Wrap(to, v));
      if a.IsBounded() && from.CanRepresent(to) { CastNarrowSound(c, op, a, w, env, v); }
    }
  }

  lemma CastNarrowSound(c: Tools, op: Expr, a: Interval, w: World, env: Env, v: int)
    requires op.Cast? && ToolsSound(c, w) && a.IsBounded() && !a.IsPoint()
    requires TypeOf(op.value).ElementOf().CanRepresent(op.t.ElementOf())
    requires !KeepsAll(op.t.ElementOf(), TypeOf(op.value).ElementOf())
    requires Brackets(a, TypeOf(op.value).ElementOf(), w, env, v)
    requires CastRegular(c, op, a)
    ensures Brackets(CastRule(c, op, a), op.t.ElementOf(), w, env, Wrap(op.t.ElementOf(), v))
  {
    var to, from := op.t.ElementOf(), TypeOf(op.value).ElementOf();
    var lo := FindConstantBound(c, a.min.e, false);
    var hi := FindConstantBound(c, a.max.e, true);
    TypeBounds(to, w, env, Wrap(to, v));
    if lo.Some? && hi.Some? {
      var t1, t2 := Unchanged(to, from, lo.value), Unchanged(to, from, hi.value);
      if c.prove(Bin(And, Bool(1), t1, t2)) {
        BothHold(t1, t2, w, env);
        SurvivesRoundTrip(to, from, lo.value, w, env);
        SurvivesRoundTrip(to, from, hi.value, w, env);
        FindConstantBoundSound(c, a.min.e, false, w, env);
        FindConstantBoundSound(c, a.max.e, true, w, env);
      }
    }
  }

  // ---------- select, load, ramp, calls ----------

  lemma SelectSound(cond: Expr, names: set<string>, a: Interval, b: Interval, t: Type, w: World, env: Env, k: int,
      x: int, y: int)
    requires a.IsBounded() && b.IsBounded()
    requires Brackets(a, t, w, env, x) && Brackets(b, t, w, env, y)
    requires TypeOf(cond).lanes == 1 && !UsesVars(cond, names) ==> Eval(cond, w, env) == k
    ensures Brackets(SelectRule(cond, names, a, b), t, w, env, if k != 0 then x else y)
  {
    MakeBoundFacts(Min, a.min, b.min, t, w, env);
    MakeBoundFacts(Max, a.max, b.max, t, w, env);
  }

  lemma ExtSound(op: Expr, a: Interval, b: Interval, w: World, env: Env, x: int, y: int)
    requires op.Bin? && IsExt(op.op)
    requires Brackets(a, op.t.ElementOf(), w, env, x) && Brackets(b, op.t.ElementOf(), w, env, y)
    ensures Brackets(ExtRule(op, a, b), op.t.ElementOf(), w, env, Ext(op.op, x, y))
  {
    ExtIsApply(op.op, op.t, x, y);
    MakeBoundFacts(op.op, a.min, b.min, op.t.ElementOf(), w, env);
    MakeBoundFacts(op.op, a.max, b.max, op.t.ElementOf(), w, env);
  }

  predicate RampRegular(c: Tools, op: Expr, base: Interval, stride: Interval)
    requires op.Ramp?
  {
    var t := TypeOf(op.base);
    var lane := Range(Imm(t, 0), Imm(t, op.lanes - 1));
    && BinRegular(c, LaneProduct(op), lane, stride)
    && BinRegular(c, Bin(Add, t, op.base, LaneProduct(op)), base, MulRule(c, LaneProduct(op), lane, stride))
  }

  function LaneValue(t: Type, lane: int, stride: int): (p: int)
    ensures InRange(t, p)
  {
    Wrap(t, lane * stride)
  }

  lemma RampValueIs(t: Type, base: int, lane: int, stride: int)
    ensures RampValue(t, base, lane, stride) == Wrap(t, base + LaneValue(t, lane, stride))
  {}

  lemma LaneProductSound(c: Tools, op: Expr, stride: Interval, w: World, env: Env, lane: int, y: int)
    requires op.Ramp? && ToolsSound(c, w) && 0 <= lane < op.lanes && TypeOf(op.base).lanes == 1
    requires InRange(TypeOf(op.base), op.lanes - 1) && InRange(TypeOf(op.base), y)
    requires Brackets(stride, TypeOf(op.base), w, env, y)
    requires BinRegular(c, LaneProduct(op), Range(Imm(TypeOf(op.base), 0), Imm(TypeOf(op.base), op.lanes - 1)), stride)
    ensures var t := TypeOf(op.base);
            Brackets(MulRule(c, LaneProduct(op), Range(Imm(t, 0), Imm(t, op.lanes - 1)), stride), t, w, env, LaneValue(t, lane, y))
  {
    var t := TypeOf(op.base);
    var lanes := Range(Imm(t, 0), Imm(t, op.lanes - 1));
    ZeroInRange(t);
    LaneRange(t, lane, op.lanes - 1);
    assert Eval(lanes.min.e, w, env) == 0 && Eval(lanes.max.e, w, env) == op.lanes - 1;
    assert t.ElementOf() == t;
    MulSound(c, LaneProduct(op), lanes, stride, w, env, lane, y);
  }

  lemma RampSound(c: Tools, op: Expr, base: Interval, stride: Interval, w: World, env: Env, lane: int, x: int, y: int)
    requires op.Ramp? && ToolsSound(c, w) && 0 <= lane < op.lanes
    requires var t := TypeOf(op.base);
             && t.lanes == 1 && InRange(t, op.lanes - 1) && InRange(t, x) && InRange(t, y)
             && Brackets(base, t, w, env, x) && Brackets(stride, t, w, env, y)
    requires RampRegular(c, op, base, stride)
    ensures var t := TypeOf(op.base); Brackets(RampRule(c, op, base, stride), t, w, env, RampValue(t, x, lane, y))
  {
    RampLanes(c, op, base, stride, MulRule(c, LaneProduct(op), LaneRangeOf(op), stride), w, env, lane, x, y);
    RampValueIs(TypeOf(op.base), x, lane, y);
  }

  /** The interval of the lane variable. */
  function LaneRangeOf(op: Expr): Interval
    requires op.Ramp?
  {
    Range(Imm(TypeOf(op.base), 0), Imm(TypeOf(op.base), op.lanes - 1))
  }

  lemma RampLanes(c: Tools, op: Expr, base: Interval, stride: Interval, product: Interval, w: World, env: Env,
      lane: int, x: int, y: int)
    requires op.Ramp? && ToolsSound(c, w) && 0 <= lane < op.lanes
    requires product == MulRule(c, LaneProduct(op), LaneRangeOf(op), stride)
    requires var t := TypeOf(op.base);
             && t.lanes == 1 && InRange(t, op.lanes - 1) && InRange(t, x) && InRange(t, y)
             && Brackets(base, t, w, env, x) && Brackets(stride, t, w, env, y)
    requires RampRegular(c, op, base, stride)
    ensures var t := TypeOf(op.base); Brackets(RampRule(c, op, base, stride), t, w, env, Wrap(t, x + LaneValue(t, lane, y)))
  {
    LaneProductSound(c, op, stride, w, env, lane, y);
    RampFromProduct(c, op, base, stride, product, w, env, x, LaneValue(TypeOf(op.base), lane, y));
  }

  lemma RampFromProduct(c: Tools, op: Expr, base: Interval, stride: Interval, product: Interval, w: World, env: Env,
      x: int, p: int)
    requires op.Ramp? && ToolsSound(c, w) && TypeOf(op.base).lanes == 1 && RampRegular(c, op, base, stride)
    requires product == MulRule(c, LaneProduct(op), Range(Imm(TypeOf(op.base), 0), Imm(TypeOf(op.base), op.lanes - 1)), stride)
    requires var t := TypeOf(op.base); InRange(t, x) && InRange(t, p) && Brackets(base, t, w, env, x) && Brackets(product, t, w, env, p)
    ensures var t := TypeOf(op.base); Brackets(RampRule(c, op, base, stride), t, w, env, Wrap(t, x + p))
  {
    RampSum(c, op, base, product, w, env, x, p);
  }

  lemma RampSum(c: Tools, op: Expr, base: Interval, product: Interval, w: World, env: Env, x: int, p: int)
    requires op.Ramp? && ToolsSound(c, w) && TypeOf(op.base).lanes == 1
    requires var t := TypeOf(op.base);
             && InRange(t, x) && InRange(t, p) && Brackets(base, t, w, env, x) && Brackets(product, t, w, env, p)
             && BinRegular(c, Bin(Add, t, op.base, LaneProduct(op)), base, product)
    ensures var t := TypeOf(op.base);
            Brackets(AddRule(c, Bin(Add, t, op.base, LaneProduct(op)), base, product), t, w, env, Wrap(t, x + p))
  {
    var t := TypeOf(op.base);
    assert t.ElementOf() == t;
    AddSound(c, Bin(Add, t, op.base, LaneProduct(op)), base, product, w, env, x, p);
  }

  lemma LaneRange(t: Type, v: int, hi: int)
    requires 0 <= v <= hi && InRange(t, hi)
    ensures InRange(t, v)
  {}

  lemma AbsOk(op: Expr, a: Interval, w: World, env: Env, x: int)
    requires op.Call? && |op.args| == 1 && op.t.IsUInt() && op.t.bits == TypeOf(op.args[0]).bits
    requires Brackets(a, TypeOf(op.args[0]).ElementOf(), w, env, x) && InRange(TypeOf(op.args[0]), x)
    ensures Brackets(AbsRule(op, a), op.t.ElementOf(), w, env, Wrap(op.t, AbsInt(x)))
  {
    var t, arg := op.t.ElementOf(), TypeOf(op.args[0]).ElementOf();
    ElementRange(op.t, AbsInt(x));
    ElementRange(TypeOf(op.args[0]), x);
    AbsFitsAny(arg, t, x);
    ZeroInRange(t);
    if a.IsBounded() {
      var lo, hi := a.min.e, a.max.e;
      AbsFitsAny(arg, t, Eval(lo, w, env));
      AbsFitsAny(arg, t, Eval(hi, w, env));
      if a.min == a.max {
        AbsCall(op, t, hi, w, env);
      } else if arg.IsInt() && arg.bits >= 32 {
        AbsWide(t, arg, lo, hi, w, env, x);
      } else {
        AbsCall(op, t, lo, w, env);
        AbsCall(op, t, hi, w, env);
        var p, q := Call(Abs, t, op.name, op.valueIndex, [lo]), Call(Abs, t, op.name, op.valueIndex, [hi]);
        ExtIsApply(Max, t, Eval(p, w, env), Eval(q, w, env));
      }
    }
  }

  lemma AbsFitsAny(arg: Type, t: Type, v: int)
    requires InRange(arg, v) && t.IsUInt() && t.bits == arg.bits
    ensures InRange(t, AbsInt(v))
  {}

  lemma AbsCall(op: Expr, t: Type, e: Expr, w: World, env: Env)
    requires op.Call?
    ensures Eval(Call(Abs, t, op.name, op.valueIndex, [e]), w, env) == Wrap(t, AbsInt(Eval(e, w, env)))
  {
    EvalOne(e, w, env);
  }

  lemma AbsWide(t: Type, arg: Type, lo: Expr, hi: Expr, w: World, env: Env, x: int)
    requires t.IsUInt() && arg.IsInt() && arg.bits >= 32 && t.bits >= 32
    requires Eval(lo, w, env) <= x <= Eval(hi, w, env)
    ensures var p, q := Cast(t, Bin(Sub, arg, Imm(arg, 0), lo)), Cast(t, hi);
            AbsInt(x) <= Eval(Bin(Max, t, p, q), w, env) && InRange(t, Eval(Bin(Max, t, p, q), w, env))
  {
    var neg := Bin(Sub, arg, Imm(arg, 0), lo);
    var p, q := Cast(t, neg), Cast(t, hi);
    ExactEnd(Sub, arg, Imm(arg, 0), lo, w, env);
    assert Eval(neg, w, env) == -Eval(lo, w, env);
    ExtIsApply(Max, t, Eval(p, w, env), Eval(q, w, env));
  }

  lemma FuncSound(c: Tools, key: (string, nat), t: Type, w: World, env: Env, v: int)
    requires InRange(t, v)
    requires key in c.fb ==> Brackets(c.fb[key], t.ElementOf(), w, env, v)
    ensures Brackets(BoundsOfFunc(c, key, t), t.ElementOf(), w, env, v)
  {
    TypeBounds(t, w, env, v);
  }
}
