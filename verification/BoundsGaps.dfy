/** Where the interval rules fall short: for each rule that drops or misreads an end, exactly
    when the interval it returns contains every result, and an input where it does not. */
module BoundsGaps {
  import opened IR
  import opened Intervals
  import opened BoundsRules
  import opened RuleSoundness
  import opened IntervalSoundness

  /** A value the operand may have. */
  predicate Operand(t: Type, i: Interval, w: World, env: Env, x: int) { InRange(t, x) && Contains(i, w, env, x) }

  /** The least and the greatest value of a type below 32 bits in an interval. */
  function Bottom(t: Type, i: Interval, w: World, env: Env): int { if i.min.Fin? then Eval(i.min.e, w, env) else MinOf(t) }
  function Top(t: Type, i: Interval, w: World, env: Env): int { if i.max.Fin? then Eval(i.max.e, w, env) else MaxOf(t) }

  ghost predicate Inhabited(t: Type, i: Interval, w: World, env: Env) {
    i.Proper() && EndsOk(i, t, w, env) && Bottom(t, i, w, env) <= Top(t, i, w, env)
  }

  // ---------- sums and differences below 32 bits ----------

  /** The exact results run from lo to hi, and one of those is kept as an end.  It must be
      the type's own, or no result may wrap past the other side. */
  predicate EndHolds(t: Type, low: bool, end: int, lo: int, hi: int) {
    if low then end == MinOf(t) || hi <= MaxOf(t) else end == MaxOf(t) || lo >= MinOf(t)
  }

  predicate Within(low: bool, end: int, v: int) { if low then end <= v else v <= end }

  predicate NoWrapPast(t: Type, r: Interval, w: World, env: Env, lo: int, hi: int) {
    && (r.min.Fin? ==> EndHolds(t, true, Eval(r.min.e, w, env), lo, hi))
    && (r.max.Fin? ==> EndHolds(t, false, Eval(r.max.e, w, env), lo, hi))
  }

  lemma EndHoldsAt(t: Type, low: bool, end: int, lo: int, hi: int, v: int)
    requires t.Narrow() && InRange(t, end) && end == (if low then lo else hi) && lo <= v <= hi
    requires EndHolds(t, low, end, lo, hi)
    ensures Within(low, end, Wrap(t, v))
  {}

  lemma EndFails(t: Type, low: bool, end: int, p0: int, p1: int, q0: int, q1: int) returns (x: int, y: int)
    requires t.Narrow() && p0 <= p1 && q0 <= q1 && InRange(t, end) && end == (if low then p0 + q0 else p1 + q1)
    requires !EndHolds(t, low, end, p0 + q0, p1 + q1)
    ensures p0 <= x <= p1 && q0 <= y <= q1 && !Within(low, end, Wrap(t, x + y))
  {
    WrapsAround(t);
    x, y := Reaches(p0, p1, q0, q1, if low then MaxOf(t) + 1 else MinOf(t) - 1);
  }

  lemma WrapsAround(t: Type)
    requires t.Narrow()
    ensures Wrap(t, MaxOf(t) + 1) == MinOf(t) && Wrap(t, MinOf(t) - 1) == MaxOf(t)
  {
    ModFacts(Modulus(t));
  }

  /** Two summands from two ranges make every sum in between. */
  lemma Reaches(p0: int, p1: int, q0: int, q1: int, v: int) returns (x: int, y: int)
    requires p0 <= p1 && q0 <= q1 && p0 + q0 <= v <= p1 + q1
    ensures p0 <= x <= p1 && q0 <= y <= q1 && x + y == v
  {
    if v - p1 >= q0 { x, y := p1, v - p1; } else { x, y := v - q0, q0; }
  }

  /** The interval has one end, of this value. */
  predicate OneEnd(r: Interval, w: World, env: Env, low: bool, end: int) {
    if low then r.max.PosInf? && r.min.Fin? && Eval(r.min.e, w, env) == end
    else r.min.NegInf? && r.max.Fin? && Eval(r.max.e, w, env) == end
  }

  predicate SumIn(t: Type, r: Interval, w: World, env: Env, x: int, y: int) { Contains(r, w, env, Wrap(t, x + y)) }

  ghost predicate AllSumsIn(t: Type, r: Interval, w: World, env: Env, p0: int, p1: int, q0: int, q1: int) {
    forall x, y :: p0 <= x <= p1 && q0 <= y <= q1 ==> SumIn(t, r, w, env, x, y)
  }

  lemma HalfOpenSum(t: Type, r: Interval, w: World, env: Env, low: bool, end: int, p0: int, p1: int, q0: int, q1: int)
    requires t.Narrow() && OneEnd(r, w, env, low, end) && InRange(t, end)
    requires p0 <= p1 && q0 <= q1 && end == (if low then p0 + q0 else p1 + q1)
    ensures AllSumsIn(t, r, w, env, p0, p1, q0, q1) <==> NoWrapPast(t, r, w, env, p0 + q0, p1 + q1)
  {
    assert forall v :: Contains(r, w, env, v) <==> Within(low, end, v);
    if EndHolds(t, low, end, p0 + q0, p1 + q1) {
      forall x, y | p0 <= x <= p1 && q0 <= y <= q1 ensures SumIn(t, r, w, env, x, y) {
        EndHoldsAt(t, low, end, p0 + q0, p1 + q1, x + y);
      }
    } else {
      var x, y := EndFails(t, low, end, p0, p1, q0, q1);
      assert !SumIn(t, r, w, env, x, y);
    }
  }

  lemma AddKeepsEnd(c: Tools, op: Expr, a: Interval, b: Interval, w: World, env: Env) returns (low: bool, end: int)
    requires op.Bin? && op.op.Add? && op.t.Narrow() && op.t.lanes == 1 && ProverSound(c, w)
    requires Inhabited(op.t, a, w, env) && Inhabited(op.t, b, w, env) && !BoundedOrAll(AddRule(c, op, a, b))
    ensures OneEnd(AddRule(c, op, a, b), w, env, low, end) && InRange(op.t, end)
    ensures end == if low then Bottom(op.t, a, w, env) + Bottom(op.t, b, w, env) else Top(op.t, a, w, env) + Top(op.t, b, w, env)
  {
    low := AddRule(c, op, a, b).min.Fin?;
    assert op.t.ElementOf() == op.t;
    if low {
      ExactEnd(Add, op.t, a.min.e, b.min.e, w, env);
      end := Eval(a.min.e, w, env) + Eval(b.min.e, w, env);
    } else {
      ExactEnd(Add, op.t, a.max.e, b.max.e, w, env);
      end := Eval(a.max.e, w, env) + Eval(b.max.e, w, env);
    }
  }

  lemma SubKeepsEnd(c: Tools, op: Expr, a: Interval, b: Interval, w: World, env: Env) returns (low: bool, end: int)
    requires op.Bin? && op.op.Sub? && op.t.Narrow() && op.t.lanes == 1 && ProverSound(c, w)
    requires Inhabited(op.t, a, w, env) && Inhabited(op.t, b, w, env) && !BoundedOrAll(SubRule(c, op, a, b))
    ensures OneEnd(SubRule(c, op, a, b), w, env, low, end) && InRange(op.t, end)
    ensures end == if low then Bottom(op.t, a, w, env) - Top(op.t, b, w, env) else Top(op.t, a, w, env) - Bottom(op.t, b, w, env)
  {
    low := SubRule(c, op, a, b).min.Fin?;
    assert op.t.ElementOf() == op.t;
    if low {
      ExactEnd(Sub, op.t, a.min.e, b.max.e, w, env);
      end := Eval(a.min.e, w, env) - Eval(b.max.e, w, env);
    } else {
      ExactEnd(Sub, op.t, a.max.e, b.min.e, w, env);
      end := Eval(a.max.e, w, env) - Eval(b.min.e, w, env);
    }
  }

  lemma OperandIs(t: Type, i: Interval, w: World, env: Env, x: int)
    requires t.Narrow() && Inhabited(t, i, w, env)
    ensures Operand(t, i, w, env, x) <==> Bottom(t, i, w, env) <= x <= Top(t, i, w, env)
  {}

  ghost predicate SumsRight(t: Type, r: Interval, a: Interval, b: Interval, w: World, env: Env) {
    forall x, y :: Operand(t, a, w, env, x) && Operand(t, b, w, env, y) ==> SumIn(t, r, w, env, x, y)
  }

  ghost predicate DifferencesRight(t: Type, r: Interval, a: Interval, b: Interval, w: World, env: Env) {
    forall x, y :: Operand(t, a, w, env, x) && Operand(t, b, w, env, y) ==> SumIn(t, r, w, env, x, -y)
  }

  /** A half-open sum is right for all operands if and only if it may not wrap past the end
      that was kept. */
  lemma AddHalfOpen(c: Tools, op: Expr, a: Interval, b: Interval, w: World, env: Env)
    requires op.Bin? && op.op.Add? && op.t.Narrow() && op.t.lanes == 1 && ProverSound(c, w)
    requires Inhabited(op.t, a, w, env) && Inhabited(op.t, b, w, env) && !BoundedOrAll(AddRule(c, op, a, b))
    ensures SumsRight(op.t, AddRule(c, op, a, b), a, b, w, env)
       <==> NoWrapPast(op.t, AddRule(c, op, a, b), w, env, Bottom(op.t, a, w, env) + Bottom(op.t, b, w, env),
           Top(op.t, a, w, env) + Top(op.t, b, w, env))
  {
    var low, end := AddKeepsEnd(c, op, a, b, w, env);
    var a0, a1, b0, b1 := Bottom(op.t, a, w, env), Top(op.t, a, w, env), Bottom(op.t, b, w, env), Top(op.t, b, w, env);
    HalfOpenSum(op.t, AddRule(c, op, a, b), w, env, low, end, a0, a1, b0, b1);
    SumsAre(op.t, AddRule(c, op, a, b), a, b, w, env);
  }

  lemma SumsAre(t: Type, r: Interval, a: Interval, b: Interval, w: World, env: Env)
    requires t.Narrow() && Inhabited(t, a, w, env) && Inhabited(t, b, w, env)
    ensures SumsRight(t, r, a, b, w, env)
       <==> AllSumsIn(t, r, w, env, Bottom(t, a, w, env), Top(t, a, w, env), Bottom(t, b, w, env), Top(t, b, w, env))
  {
    var a0, a1, b0, b1 := Bottom(t, a, w, env), Top(t, a, w, env), Bottom(t, b, w, env), Top(t, b, w, env);
    if SumsRight(t, r, a, b, w, env) {
      forall x, y | a0 <= x <= a1 && b0 <= y <= b1 ensures SumIn(t, r, w, env, x, y) {
        OperandIs(t, a, w, env, x);
        OperandIs(t, b, w, env, y);
      }
    }
    if AllSumsIn(t, r, w, env, a0, a1, b0, b1) {
      forall x, y | Operand(t, a, w, env, x) && Operand(t, b, w, env, y) ensures SumIn(t, r, w, env, x, y) {
        OperandIs(t, a, w, env, x);
        OperandIs(t, b, w, env, y);
      }
    }
  }

  /** The same for a difference.  (Of unsigned values, a kept lower end is always right: the
      rule keeps it only if no difference is negative.) */
  lemma SubHalfOpen(c: Tools, op: Expr, a: Interval, b: Interval, w: World, env: Env)
    requires op.Bin? && op.op.Sub? && op.t.Narrow() && op.t.lanes == 1 && ProverSound(c, w)
    requires Inhabited(op.t, a, w, env) && Inhabited(op.t, b, w, env) && !BoundedOrAll(SubRule(c, op, a, b))
    ensures DifferencesRight(op.t, SubRule(c, op, a, b), a, b, w, env)
       <==> NoWrapPast(op.t, SubRule(c, op, a, b), w, env, Bottom(op.t, a, w, env) - Top(op.t, b, w, env),
           Top(op.t, a, w, env) - Bottom(op.t, b, w, env))
  {
    var low, end := SubKeepsEnd(c, op, a, b, w, env);
    var a0, a1, b0, b1 := Bottom(op.t, a, w, env), Top(op.t, a, w, env), Bottom(op.t, b, w, env), Top(op.t, b, w, env);
    assert a0 + -b1 == a0 - b1 && a1 + -b0 == a1 - b0;
    HalfOpenSum(op.t, SubRule(c, op, a, b), w, env, low, end, a0, a1, -b1, -b0);
    DifferencesAre(op.t, SubRule(c, op, a, b), a, b, w, env);
  }

  lemma DifferencesAre(t: Type, r: Interval, a: Interval, b: Interval, w: World, env: Env)
    requires t.Narrow() && Inhabited(t, a, w, env) && Inhabited(t, b, w, env)
    ensures DifferencesRight(t, r, a, b, w, env)
       <==> AllSumsIn(t, r, w, env, Bottom(t, a, w, env), Top(t, a, w, env), -Top(t, b, w, env), -Bottom(t, b, w, env))
  {
    var a0, a1, b0, b1 := Bottom(t, a, w, env), Top(t, a, w, env), Bottom(t, b, w, env), Top(t, b, w, env);
    if DifferencesRight(t, r, a, b, w, env) {
      forall x, z | a0 <= x <= a1 && -b1 <= z <= -b0 ensures SumIn(t, r, w, env, x, z) {
        OperandIs(t, a, w, env, x);
        OperandIs(t, b, w, env, -z);
        assert SumIn(t, r, w, env, x, -(-z));
      }
    }
    if AllSumsIn(t, r, w, env, a0, a1, -b1, -b0) {
      forall x, y | Operand(t, a, w, env, x) && Operand(t, b, w, env, y) ensures SumIn(t, r, w, env, x, -y) {
        OperandIs(t, a, w, env, x);
        OperandIs(t, b, w, env, y);
      }
    }
  }

  // ---------- factors and divisors of a known sign ----------

  lemma SignsExclude(e: Expr)
    ensures IsPositiveConst(e) ==> !IsZero(e) && !IsNegativeConst(e)
    ensures IsNegativeConst(e) ==> !IsZero(e) && !IsPositiveConst(e)
  {}

  lemma WideValue(op: BinOp, t: Type, a: Expr, b: Expr, w: World, env: Env)
    requires t.signed && !t.Narrow() && (op.Mul? || op.Div?)
    ensures Eval(Bin(op, t, a, b), w, env)
         == if op.Mul? then Eval(a, w, env) * Eval(b, w, env) else DivValue(Eval(a, w, env), Eval(b, w, env))
  {}

  lemma Scales(lo: int, x: int, hi: int, k: int)
    requires lo <= x <= hi
    ensures k >= 0 ==> lo * k <= x * k <= hi * k
    ensures k <= 0 ==> hi * k <= x * k <= lo * k
    ensures k != 0 && lo < hi ==> lo * k != hi * k
  {
    MulMonotone(lo, x, k);
    MulMonotone(x, hi, k);
    if k != 0 && lo < hi { SmallMultiple(k, hi - lo); }
  }

  /** A product by a constant is right for every x between the ends if and only if the sign
      of the constant was read right, or there is only one x, or the type's own bounds were
      returned because a corner overflows. */
  lemma MulBySign(c: Tools, op: Expr, a: Interval, b: Interval, w: World, env: Env)
    requires op.Bin? && op.op.Mul? && op.t.signed && ProverSound(c, w)
    requires a.IsBounded() && !a.IsPoint() && b.IsPoint() && (IsPositiveConst(b.min.e) || IsNegativeConst(b.min.e))
    requires EndsOk(a, op.t.ElementOf(), w, env) && EndsOk(b, op.t.ElementOf(), w, env)
    ensures ProductsRight(op.t.ElementOf(), MulRule(c, op, a, b), a, Eval(b.min.e, w, env), w, env)
       <==> || SignIs(b.min.e, Eval(b.min.e, w, env)) || Eval(a.min.e, w, env) >= Eval(a.max.e, w, env)
            || (op.t.Narrow() && !CornersFit(c, op.t.ElementOf(), a, b))
  {
    var t := op.t.ElementOf();
    var k := Eval(b.min.e, w, env);
    if t.Narrow() && !CornersFit(c, t, a, b) {
      forall x | Contains(a, w, env, x) ensures Contains(MulRule(c, op, a, b), w, env, Wrap(t, x * k)) { TypeBounds(t, w, env, Wrap(t, x * k)); }
    } else {
      CornersExact(c, t, a, b, w, env);
      SignsExclude(b.min.e);
      ProductsBySign(op, a, b, w, env);
    }
  }

  ghost predicate ProductsRight(t: Type, r: Interval, a: Interval, k: int, w: World, env: Env) {
    forall x :: Contains(a, w, env, x) ==> Contains(r, w, env, Wrap(t, x * k))
  }

  lemma ProductsBySign(op: Expr, a: Interval, b: Interval, w: World, env: Env)
    requires op.Bin? && op.op.Mul? && op.t.signed && a.IsBounded() && !a.IsPoint() && b.IsPoint()
    requires !IsZero(b.min.e) && (IsPositiveConst(b.min.e) != IsNegativeConst(b.min.e))
    requires ProductExact(op.t.ElementOf(), a.min.e, b.min.e, w, env)
    requires ProductExact(op.t.ElementOf(), a.max.e, b.min.e, w, env)
    ensures ProductsRight(op.t.ElementOf(), MulCore(op, a, b), a, Eval(b.min.e, w, env), w, env)
       <==> SignIs(b.min.e, Eval(b.min.e, w, env)) || Eval(a.min.e, w, env) >= Eval(a.max.e, w, env)
  {
    var t := op.t.ElementOf();
    var lo, hi, k := Eval(a.min.e, w, env), Eval(a.max.e, w, env), Eval(b.min.e, w, env);
    forall x | lo <= x <= hi
      ensures k >= 0 ==> lo * k <= x * k <= hi * k
      ensures k <= 0 ==> hi * k <= x * k <= lo * k
      ensures Wrap(t, x * k) == x * k {
      Scales(lo, x, hi, k);
      assert InRange(t, x * k);
    }
    if lo < hi {
      Scales(lo, lo, hi, k);
      assert Contains(a, w, env, lo);
    }
  }

  /** A product by a negative constant lies in the interval returned if and only if the other
      operand has both ends: a missing end changes sides and not sign. */
  lemma MulByNegative(c: Tools, op: Expr, a: Interval, b: Interval, w: World, env: Env, x: int)
    requires op.Bin? && op.op.Mul? && op.t.signed && !op.t.Narrow()
    requires a.Proper() && !a.IsPoint() && b.IsPoint() && HonestEnd(b.min) && IsNegativeConst(b.min.e)
    requires Contains(a, w, env, x)
    ensures Contains(MulRule(c, op, a, b), w, env, x * Eval(b.min.e, w, env)) <==> a.IsBounded()
  {
    SignOfEnd(b.min, w, env);
    SignsExclude(b.min.e);
    if a.IsBounded() {
      Scales(Eval(a.min.e, w, env), x, Eval(a.max.e, w, env), Eval(b.min.e, w, env));
      WideValue(Mul, op.t.ElementOf(), a.min.e, b.min.e, w, env);
      WideValue(Mul, op.t.ElementOf(), a.max.e, b.min.e, w, env);
    }
  }

  /** Every quotient by k of a value between the ends lies in the interval. */
  ghost predicate AllQuotients(t: Type, r: Interval, a: Interval, k: int, w: World, env: Env) {
    forall x :: Contains(a, w, env, x) ==> Contains(r, w, env, Quotient(t, x, k))
  }

  /** A quotient by a constant is right if and only if its sign was read right, or all
      quotients are the same, or there are none.  (For MIN / -1 see below.) */
  lemma DivBySign(c: Tools, op: Expr, a: Interval, b: Interval, w: World, env: Env)
    requires op.Bin? && op.op.Div? && op.t.signed
    requires a.IsBounded() && !a.IsPoint() && b.IsPoint() && (IsPositiveConst(b.min.e) || IsNegativeConst(b.min.e))
    requires c.prove(Bin(EQ, Bool(1), b.min.e, b.max.e))
    requires EndsOk(a, op.t.ElementOf(), w, env) && EndsOk(b, op.t.ElementOf(), w, env)
    requires Fits(op.t, Eval(a.min.e, w, env), Eval(b.min.e, w, env))
    requires Fits(op.t, Eval(a.max.e, w, env), Eval(b.min.e, w, env))
    ensures var lo, hi, k := Eval(a.min.e, w, env), Eval(a.max.e, w, env), Eval(b.min.e, w, env);
            (AllQuotients(op.t.ElementOf(), DivRule(c, op, a, b), a, k, w, env)
             <==> SignIs(b.min.e, k) || lo > hi || DivValue(lo, k) == DivValue(hi, k))
  {
    var t := op.t.ElementOf();
    var lo, hi, k := Eval(a.min.e, w, env), Eval(a.max.e, w, env), Eval(b.min.e, w, env);
    SignsExclude(b.min.e);
    QuotientEnd(t, a.min.e, b.min.e, w, env);
    QuotientEnd(t, a.max.e, b.max.e, w, env);
    forall x | lo <= x <= hi
      ensures k >= 0 ==> DivValue(lo, k) <= DivValue(x, k) <= DivValue(hi, k)
      ensures k <= 0 ==> DivValue(hi, k) <= DivValue(x, k) <= DivValue(lo, k)
      ensures Quotient(t, x, k) == DivValue(x, k) {
      DivValueMonotone(lo, x, k);
      DivValueMonotone(x, hi, k);
      DivInRange(t, x, k);
    }
    if lo <= hi { assert Contains(a, w, env, lo); }
  }

  /** A divisor of -1 that reads as positive is right down to MIN if and only if nothing but
      MIN and the value above it is divided. */
  lemma DivBySignAtMin(c: Tools, op: Expr, a: Interval, b: Interval, w: World, env: Env)
    requires op.Bin? && op.op.Div? && op.t.signed && op.t.Narrow() && a.IsBounded() && !a.IsPoint() && b.IsPoint()
    requires IsPositiveConst(b.min.e) && c.prove(Bin(EQ, Bool(1), b.min.e, b.max.e))
    requires Inhabited(op.t.ElementOf(), a, w, env)
    requires Eval(b.min.e, w, env) == -1 && Eval(a.min.e, w, env) == MinOf(op.t)
    ensures AllQuotients(op.t.ElementOf(), DivRule(c, op, a, b), a, -1, w, env) <==> Eval(a.max.e, w, env) <= MinOf(op.t) + 1
  {
    var t, hi := op.t.ElementOf(), Eval(a.max.e, w, env);
    NegatedMin(t);
    ApplyDiv(t, Eval(a.min.e, w, env), -1);
    ApplyDiv(t, hi, -1);
    var r := DivRule(c, op, a, b);
    assert r == Range(Bin(Div, t, a.min.e, b.min.e), Bin(Div, t, a.max.e, b.max.e));
    assert forall v :: (Contains(r, w, env, v) <==> MinOf(t) <= v <= Quotient(t, hi, -1));
    if hi > MinOf(t) {
      assert Contains(a, w, env, MinOf(t) + 1) && Quotient(t, MinOf(t) + 1, -1) == MaxOf(t);
    }
  }

  /** A quotient by a negative constant lies in the interval returned if and only if the other
      operand has both ends. */
  lemma DivByNegative(c: Tools, op: Expr, a: Interval, b: Interval, w: World, env: Env, x: int)
    requires op.Bin? && op.op.Div? && op.t.signed
    requires a.Proper() && !a.IsPoint() && b.IsPoint() && HonestEnd(b.min) && IsNegativeConst(b.min.e)
    requires c.prove(Bin(EQ, Bool(1), b.min.e, b.max.e))
    requires EndsOk(a, op.t.ElementOf(), w, env) && EndsOk(b, op.t.ElementOf(), w, env)
    requires Operand(op.t.ElementOf(), a, w, env, x)
    requires a.min.Fin? ==> Fits(op.t, Eval(a.min.e, w, env), Eval(b.min.e, w, env))
    ensures Contains(DivRule(c, op, a, b), w, env, Quotient(op.t.ElementOf(), x, Eval(b.min.e, w, env))) <==> a.IsBounded()
  {
    SignOfEnd(b.min, w, env);
    SignsExclude(b.min.e);
    var t, k := op.t.ElementOf(), Eval(b.min.e, w, env);
    if a.IsBounded() {
      DivValueMonotone(Eval(a.min.e, w, env), x, k);
      DivValueMonotone(x, Eval(a.max.e, w, env), k);
      QuotientEnd(t, a.min.e, b.min.e, w, env);
      QuotientEnd(t, a.max.e, b.max.e, w, env);
      DivInRange(t, x, k);
    }
  }

  // ---------- the one quotient that does not fit ----------

  lemma NegatedMin(t: Type)
    requires t.signed && t.Narrow()
    ensures Apply(Div, t, MinOf(t), -1) == MinOf(t)
  {
    WrapsAround(t);
  }

  /** A quotient below 32 bits by a single divisor is right for all dividends if and only if
      it cannot be MIN / -1 next to others. */
  lemma DivMinByMinusOne(c: Tools, op: Expr, a: Interval, b: Interval, w: World, env: Env)
    requires op.Bin? && op.op.Div? && op.t.signed && op.t.Narrow() && op.t.lanes == 1 && ToolsSound(c, w)
    requires a.IsBounded() && Inhabited(op.t, a, w, env) && b.IsBounded() && EndsOk(b, op.t, w, env) && HonestEnd(b.min)
    requires !(a.IsPointAt(op.a) && b.IsPointAt(op.b)) && c.prove(Bin(EQ, Bool(1), b.min.e, b.max.e))
    ensures var k := Eval(b.min.e, w, env);
            ((forall x :: Operand(op.t, a, w, env, x) ==> Contains(DivRule(c, op, a, b), w, env, Wrap(op.t, DivValue(x, k))))
             <==> !(k == -1 && Eval(a.min.e, w, env) == MinOf(op.t) < Eval(a.max.e, w, env)))
  {
    var t, k, lo, hi := op.t, Eval(b.min.e, w, env), Eval(a.min.e, w, env), Eval(a.max.e, w, env);
    var same := Bin(EQ, Bool(1), b.min.e, b.max.e);
    assert t.ElementOf() == t && Eval(same, w, env) != 0;
    if !(k == -1 && lo == MinOf(t)) {
      forall x | Operand(t, a, w, env, x) ensures Contains(DivRule(c, op, a, b), w, env, Wrap(t, DivValue(x, k))) {
        DivInRange(t, x, k);
        DivByPoint(c, op, a, b, w, env, x, k);
      }
    } else {
      DivAtMin(c, op, a, b, w, env);
    }
  }

  lemma DivAtMin(c: Tools, op: Expr, a: Interval, b: Interval, w: World, env: Env)
    requires op.Bin? && op.op.Div? && op.t.signed && op.t.Narrow() && op.t.lanes == 1
    requires a.IsBounded() && Inhabited(op.t, a, w, env) && b.IsBounded() && HonestEnd(b.min)
    requires !(a.IsPointAt(op.a) && b.IsPointAt(op.b)) && c.prove(Bin(EQ, Bool(1), b.min.e, b.max.e))
    requires Eval(b.min.e, w, env) == -1 == Eval(b.max.e, w, env) && Eval(a.min.e, w, env) == MinOf(op.t)
    ensures (forall x :: Operand(op.t, a, w, env, x) ==> Contains(DivRule(c, op, a, b), w, env, Wrap(op.t, DivValue(x, -1))))
       <==> Eval(a.max.e, w, env) == MinOf(op.t)
  {
    var t, hi := op.t, Eval(a.max.e, w, env);
    NegatedMin(t);
    DivByMinusOne(c, op, a, b, w, env);
    if hi > MinOf(t) {
      assert Operand(t, a, w, env, hi) && DivValue(hi, -1) == -hi;
    }
  }

  lemma DivByMinusOne(c: Tools, op: Expr, a: Interval, b: Interval, w: World, env: Env)
    requires op.Bin? && op.op.Div? && op.t.signed && op.t.Narrow() && op.t.lanes == 1
    requires a.IsBounded() && b.IsBounded() && HonestEnd(b.min) && !(a.IsPointAt(op.a) && b.IsPointAt(op.b))
    requires c.prove(Bin(EQ, Bool(1), b.min.e, b.max.e)) && Eval(b.min.e, w, env) == -1 == Eval(b.max.e, w, env)
    ensures forall v :: (Contains(DivRule(c, op, a, b), w, env, v)
                         <==> Wrap(op.t, DivValue(Eval(a.max.e, w, env), -1)) <= v <= Wrap(op.t, DivValue(Eval(a.min.e, w, env), -1)))
  {
    var t := op.t;
    assert t.ElementOf() == t;
    SignOfEnd(b.min, w, env);
    var e1, e2 := Bin(Div, t, a.min.e, b.min.e), Bin(Div, t, a.max.e, b.max.e);
    ApplyDiv(t, Eval(a.min.e, w, env), -1);
    ApplyDiv(t, Eval(a.max.e, w, env), -1);
    if IsNegativeConst(b.min.e) {
      assert DivRule(c, op, a, b) == Range(e2, e1);
    } else {
      assert DivRule(c, op, a, b) == BySign(GT, t, b.min.e, e1, e2);
      SignAt(t, b.min.e, e1, e2, w, env);
    }
  }

  lemma SignAt(t: Type, b: Expr, e1: Expr, e2: Expr, w: World, env: Env)
    requires Eval(b, w, env) < 0
    ensures var r := BySign(GT, t, b, e1, e2); Eval(r.min.e, w, env) == Eval(e2, w, env) && Eval(r.max.e, w, env) == Eval(e1, w, env)
  {
    assert Eval(Imm(t, 0), w, env) == 0;
    assert Eval(Bin(GT, Bool(1), b, Imm(t, 0)), w, env) == 0;
  }

  // ---------- quotients by a range ----------

  /** The rule builds the four corners. */
  predicate ByCorners(c: Tools, op: Expr, a: Interval, b: Interval)
    requires op.Bin?
  {
    && a.IsBounded() && b.IsBounded() && !(a.IsPointAt(op.a) && b.IsPointAt(op.b))
    && !c.prove(Bin(EQ, Bool(1), b.min.e, b.max.e)) && StaticSign(c, b.min.e) == StaticSign(c, b.max.e) != 0
  }

  lemma CornerEnds(p: Expr, q: Expr, r: Expr, s: Expr, w: World, env: Env)
    ensures var i := Include(Include(Include(Include(Nothing(), Point(p)), Point(q)), Point(r)), Point(s));
            && i.min.Fin? && i.max.Fin?
            && Eval(i.min.e, w, env) == Least(Eval(p, w, env), Eval(q, w, env), Eval(r, w, env), Eval(s, w, env))
            && Eval(i.max.e, w, env) == Greatest(Eval(p, w, env), Eval(q, w, env), Eval(r, w, env), Eval(s, w, env))
  {
    MakeExtValue(Min, p, q, w, env);
    MakeExtValue(Min, MakeExt(Min, p, q), r, w, env);
    MakeExtValue(Min, MakeExt(Min, MakeExt(Min, p, q), r), s, w, env);
    MakeExtValue(Max, p, q, w, env);
    MakeExtValue(Max, MakeExt(Max, p, q), r, w, env);
    MakeExtValue(Max, MakeExt(Max, MakeExt(Max, p, q), r), s, w, env);
    IncludeFourIs(p, q, r, s);
  }

  function Corner(t: Type, x: Bound, y: Bound, w: World, env: Env): int
    requires x.Fin? && y.Fin?
  {
    Eval(Bin(Div, t, x.e, y.e), w, env)
  }

  lemma QuotientEnds(c: Tools, op: Expr, a: Interval, b: Interval, w: World, env: Env)
    requires op.Bin? && op.t.lanes == 1 && ByCorners(c, op, a, b)
    ensures var i, t := DivRule(c, op, a, b), op.t;
            && i.min.Fin? && i.max.Fin?
            && Eval(i.min.e, w, env) == Least(Corner(t, a.min, b.min, w, env), Corner(t, a.max, b.min, w, env),
                                              Corner(t, a.min, b.max, w, env), Corner(t, a.max, b.max, w, env))
            && Eval(i.max.e, w, env) == Greatest(Corner(t, a.min, b.min, w, env), Corner(t, a.max, b.min, w, env),
                                                 Corner(t, a.min, b.max, w, env), Corner(t, a.max, b.max, w, env))
  {
    var t := op.t;
    assert t.ElementOf() == t;
    CornerEnds(Bin(Div, t, a.min.e, b.min.e), Bin(Div, t, a.max.e, b.min.e), Bin(Div, t, a.min.e, b.max.e),
        Bin(Div, t, a.max.e, b.max.e), w, env);
  }

  /** The greatest quotient, wrapped, of values from MIN to hi by divisors from y0 to -1. */
  function Peak(t: Type, hi: int, y0: int): int {
    if hi > MinOf(t) then MaxOf(t) else if y0 <= -2 then MinOf(t) / (-2) else MinOf(t)
  }

  function Quotient(t: Type, x: int, y: int): int { Wrap(t, DivValue(x, y)) }

  lemma BelowPeak(t: Type, hi: int, y0: int, x: int, y: int)
    requires t.signed && t.Narrow() && MinOf(t) <= x <= hi && y0 <= y <= -1 && InRange(t, y0)
    ensures MinOf(t) <= Quotient(t, x, y) <= Peak(t, hi, y0)
  {
    NegatedMin(t);
    if hi == MinOf(t) && y <= -2 {
      RuleSoundness.DivByNegative(x, y);
      RuleSoundness.DivByNegative(x, -2);
      DivSlope(x, 2, -y);
      HalfOfMin(t);
    }
  }

  lemma HalfOfMin(t: Type)
    requires t.signed && t.Narrow() && InRange(t, -2)
    ensures InRange(t, MinOf(t) / (-2))
  {
    DivInRange(t, MinOf(t), -2);
  }

  lemma PeakReached(t: Type, hi: int, y0: int) returns (x: int, y: int)
    requires t.signed && t.Narrow() && MinOf(t) <= hi && y0 <= -1 && InRange(t, y0)
    ensures MinOf(t) <= x <= hi && y0 <= y <= -1 && Quotient(t, x, y) == Peak(t, hi, y0)
  {
    NegatedMin(t);
    if y0 <= -2 { HalfOfMin(t); }
    if hi > MinOf(t) {
      x, y := MinOf(t) + 1, -1;
    } else {
      x, y := MinOf(t), if y0 <= -2 then -2 else -1;
    }
  }

  ghost predicate QuotientsRight(t: Type, r: Interval, a: Interval, b: Interval, w: World, env: Env) {
    forall x, y :: Operand(t, a, w, env, x) && Operand(t, b, w, env, y) ==> Contains(r, w, env, Quotient(t, x, y))
  }

  /** A quotient below 32 bits by a range of divisors of one sign is right for all operands if
      and only if none is MIN / -1, or its upper end reaches the greatest quotient anyway. */
  lemma DivByRangeAtMin(c: Tools, op: Expr, a: Interval, b: Interval, w: World, env: Env)
    requires op.Bin? && op.op.Div? && op.t.signed && op.t.Narrow() && op.t.lanes == 1 && ToolsSound(c, w)
    requires ByCorners(c, op, a, b) && Inhabited(op.t, a, w, env) && Inhabited(op.t, b, w, env) && HonestEnd(b.min)
    requires HonestEnd(b.max)
    ensures DivRule(c, op, a, b).max.Fin?
    ensures QuotientsRight(op.t, DivRule(c, op, a, b), a, b, w, env)
       <==> || !(Eval(a.min.e, w, env) == MinOf(op.t) && Eval(b.max.e, w, env) == -1)
            || Eval(DivRule(c, op, a, b).max.e, w, env) >= Peak(op.t, Eval(a.max.e, w, env), Eval(b.min.e, w, env))
  {
    QuotientEnds(c, op, a, b, w, env);
    StaticSignSound(c, b.min, w, env);
    StaticSignSound(c, b.max, w, env);
    if Eval(a.min.e, w, env) == MinOf(op.t) && Eval(b.max.e, w, env) == -1 {
      CornersAtMin(c, op, a, b, w, env);
    } else {
      CornersRight(c, op, a, b, w, env);
    }
  }

  lemma CornersRight(c: Tools, op: Expr, a: Interval, b: Interval, w: World, env: Env)
    requires op.Bin? && op.op.Div? && op.t.signed && op.t.Narrow() && op.t.lanes == 1 && ToolsSound(c, w)
    requires ByCorners(c, op, a, b) && Inhabited(op.t, a, w, env) && Inhabited(op.t, b, w, env) && HonestEnd(b.min)
    requires HonestEnd(b.max)
    requires Eval(b.min.e, w, env) > 0 || Eval(b.max.e, w, env) < 0
    requires !(Eval(a.min.e, w, env) == MinOf(op.t) && Eval(b.max.e, w, env) == -1)
    ensures QuotientsRight(op.t, DivRule(c, op, a, b), a, b, w, env)
  {
    var t := op.t;
    assert t.ElementOf() == t;
    forall x, y | Operand(t, a, w, env, x) && Operand(t, b, w, env, y) ensures Contains(DivRule(c, op, a, b), w, env, Quotient(t, x, y)) {
      DivInRange(t, x, y);
      DivByRange(c, t, a, b, w, env, x, y);
    }
  }

  lemma CornersAtMin(c: Tools, op: Expr, a: Interval, b: Interval, w: World, env: Env)
    requires op.Bin? && op.op.Div? && op.t.signed && op.t.Narrow() && op.t.lanes == 1
    requires ByCorners(c, op, a, b) && Inhabited(op.t, a, w, env) && Inhabited(op.t, b, w, env)
    requires Eval(a.min.e, w, env) == MinOf(op.t) && Eval(b.max.e, w, env) == -1
    ensures DivRule(c, op, a, b).max.Fin?
    ensures QuotientsRight(op.t, DivRule(c, op, a, b), a, b, w, env)
       <==> Eval(DivRule(c, op, a, b).max.e, w, env) >= Peak(op.t, Eval(a.max.e, w, env), Eval(b.min.e, w, env))
  {
    var t, r := op.t, DivRule(c, op, a, b);
    var hi, y0 := Eval(a.max.e, w, env), Eval(b.min.e, w, env);
    QuotientEnds(c, op, a, b, w, env);
    NegatedMin(t);
    assert Corner(t, a.min, b.max, w, env) == MinOf(t);
    var x, y := PeakReached(t, hi, y0);
    assert Operand(t, a, w, env, x) && Operand(t, b, w, env, y);
    if Eval(r.max.e, w, env) >= Peak(t, hi, y0) {
      forall x, y | Operand(t, a, w, env, x) && Operand(t, b, w, env, y) ensures Contains(r, w, env, Quotient(t, x, y)) {
        BelowPeak(t, hi, y0, x, y);
      }
    }
  }

  // ---------- remainders ----------

  /** Every remainder by a divisor in the interval lies in the other one. */
  ghost predicate RemaindersRight(t: Type, b: Interval, r: Interval, w: World, env: Env) {
    forall x, y :: InRange(t, x) && Operand(t, b, w, env, y) && y != 0 ==> Contains(r, w, env, ModValue(x, y))
  }

  lemma RemainderIs(x: int, y: int)
    requires 0 <= x < AbsInt(y)
    ensures ModValue(x, y) == x
  {
    Euclid(x, y);
    if x / y != 0 { SmallMultiple(y, x / y); }
  }

  /** A divisor without both ends is returned as the interval of the remainders.  That is right
      if and only if it can be zero or less, and its upper end, if it has one, is of an
      unsigned type or the greatest value. */
  lemma ModByHalfBounded(op: Expr, a: Interval, b: Interval, w: World, env: Env)
    requires op.Bin? && op.t.lanes == 1 && b.Proper() && !b.IsBounded() && EndsOk(b, op.t, w, env)
    ensures RemaindersRight(op.t, b, ModRule(op, a, b), w, env)
       <==> && (b.min.Fin? ==> Eval(b.min.e, w, env) <= 0)
            && (b.max.Fin? ==> op.t.IsUInt() || (op.t.Narrow() && Eval(b.max.e, w, env) == MaxOf(op.t)))
  {
    var t := op.t;
    if b.min.Fin? {
      var lo := Eval(b.min.e, w, env);
      if lo > 0 {
        RemainderIs(0, lo);
        assert InRange(t, 0) && Operand(t, b, w, env, lo);
      } else {
        forall x, y | InRange(t, x) && Operand(t, b, w, env, y) && y != 0 ensures Contains(b, w, env, ModValue(x, y)) { Euclid(x, y); }
      }
    } else if b.max.Fin? {
      ModBelow(t, b, w, env);
    }
  }

  lemma ModBelow(t: Type, b: Interval, w: World, env: Env)
    requires b.min.NegInf? && b.max.Fin? && EndsOk(b, t, w, env)
    ensures RemaindersRight(t, b, b, w, env) <==> t.IsUInt() || (t.Narrow() && Eval(b.max.e, w, env) == MaxOf(t))
  {
    var hi := Eval(b.max.e, w, env);
    if t.IsUInt() || (t.Narrow() && hi == MaxOf(t)) {
      forall x, y | InRange(t, x) && Operand(t, b, w, env, y) && y != 0 ensures Contains(b, w, env, ModValue(x, y)) {
        Euclid(x, y);
      }
    } else {
      var x := if hi < 0 then 0 else hi + 1;
      var y := if t.Narrow() then MinOf(t) else if hi < 0 then hi - 1 else -hi - 2;
      RemainderIs(x, y);
      assert InRange(t, x) && Operand(t, b, w, env, y) && !Contains(b, w, env, ModValue(x, y));
    }
  }

  /** Where the lower end of a divisor reads as positive, the upper end less one bounds the
      remainders if and only if the lower end is no further below zero than the upper end is
      above it, or there is no divisor, or less one wraps to the greatest value. */
  lemma ModBySign(op: Expr, a: Interval, b: Interval, w: World, env: Env)
    requires op.Bin? && op.t.signed && op.t.lanes == 1 && EndsOk(b, op.t, w, env)
    requires b.IsBounded() && !a.IsPoint() && IsPositiveConst(b.min.e)
    ensures var lo, hi := Eval(b.min.e, w, env), Eval(b.max.e, w, env);
            (RemaindersRight(op.t, b, ModRule(op, a, b), w, env) <==> lo + hi >= 0 || lo > hi || (op.t.Narrow() && hi == MinOf(op.t)))
  {
    var t, lo, hi := op.t, Eval(b.min.e, w, env), Eval(b.max.e, w, env);
    var r := Range(Imm(t, 0), Bin(Sub, t, b.max.e, Imm(t, 1)));
    assert t.ElementOf() == t && ModRule(op, a, b) == r;
    SubOne(t, b.max.e, w, env);
    if t.Narrow() && hi == MinOf(t) {
      WrapsAround(t);
      forall x, y | InRange(t, x) && Operand(t, b, w, env, y) && y != 0 ensures Contains(r, w, env, ModValue(x, y)) { Euclid(x, y); }
    } else {
      assert forall v :: (Contains(r, w, env, v) <==> 0 <= v <= hi - 1);
      if lo + hi >= 0 || lo > hi {
        forall x, y | InRange(t, x) && Operand(t, b, w, env, y) && y != 0 ensures Contains(r, w, env, ModValue(x, y)) { Euclid(x, y); }
      } else {
        RemainderIs(-lo - 1, lo);
        assert InRange(t, -lo - 1) && Operand(t, b, w, env, lo);
      }
    }
  }

  // ---------- selects ----------

  /** The first interval has an end only where the second has one, no further in. */
  predicate Spans(i: Interval, j: Interval, w: World, env: Env) {
    && (i.min.Fin? ==> j.min.Fin? && Eval(i.min.e, w, env) <= Eval(j.min.e, w, env))
    && (i.max.Fin? ==> j.max.Fin? && Eval(j.max.e, w, env) <= Eval(i.max.e, w, env))
  }

  /** Whichever arm is taken. */
  ghost predicate ArmsRight(r: Interval, a: Interval, b: Interval, w: World, env: Env) {
    forall v :: Contains(a, w, env, v) || Contains(b, w, env, v) ==> Contains(r, w, env, v)
  }

  predicate NotEmpty(i: Interval, w: World, env: Env) {
    i.Proper() && (i.IsBounded() ==> Eval(i.min.e, w, env) <= Eval(i.max.e, w, env))
  }

  /** When an arm lacks an end its interval stands for the whole select, which is right if
      and only if it spans the other arm's. */
  lemma SelectHalfBounded(cond: Expr, keys: set<string>, a: Interval, b: Interval, w: World, env: Env)
    requires NotEmpty(a, w, env) && NotEmpty(b, w, env) && !(a.IsBounded() && b.IsBounded())
    ensures ArmsRight(EitherBounds(cond, keys, a, b), a, b, w, env)
       <==> if a.IsBounded() then Spans(b, a, w, env) else Spans(a, b, w, env)
  {
    if a.IsBounded() { SpansIs(b, a, w, env); } else { SpansIs(a, b, w, env); }
  }

  lemma SpansIs(i: Interval, j: Interval, w: World, env: Env)
    requires NotEmpty(i, w, env) && NotEmpty(j, w, env)
    ensures (forall v :: Contains(j, w, env, v) ==> Contains(i, w, env, v)) <==> Spans(i, j, w, env)
  {
    if !Spans(i, j, w, env) {
      var v;
      if i.min.Fin? && !(j.min.Fin? && Eval(i.min.e, w, env) <= Eval(j.min.e, w, env)) {
        var k := Eval(i.min.e, w, env) - 1;
        v := if j.min.Fin? then Eval(j.min.e, w, env) else if j.max.Fin? && Eval(j.max.e, w, env) < k then Eval(j.max.e, w, env) else k;
      } else {
        var k := Eval(i.max.e, w, env) + 1;
        v := if j.max.Fin? then Eval(j.max.e, w, env) else if j.min.Fin? && Eval(j.min.e, w, env) > k then Eval(j.min.e, w, env) else k;
      }
      assert Contains(j, w, env, v) && !Contains(i, w, env, v);
    }
  }

  // ---------- constants found behind casts ----------

  function Clamped(t: Type, from: Type, k: int): Expr { Cast(t, Bin(Min, from, Var(from, "v"), Imm(from, k))) }

  /** The block of values that the cast keeps in order ends at k, or reaches down to the
      least value of the type cast from. */
  predicate KeepsOrderBelow(t: Type, from: Type, k: int) {
    Wrap(t, k) == MaxOf(t) || (from.Narrow() && k - MinOf(from) <= Wrap(t, k) - MinOf(t))
  }

  lemma WrapBlock(t: Type, k: int, v: int)
    requires t.Narrow() && k - (Wrap(t, k) - MinOf(t)) <= v <= k
    ensures Wrap(t, v) == Wrap(t, k) - (k - v)
  {
    WrapIs(t, k);
    WrapIs(t, v);
    BlockShift(Modulus(t), k - MinOf(t), v - MinOf(t));
  }

  lemma BlockShift(n: int, x: int, y: int)
    requires n > 0 && x - x % n <= y <= x
    ensures y % n == x % n - (x - y)
  {
    var q, d := x / n, x % n;
    Euclid(x, n);
    assert y == n * q + (d - (x - y));
    BlockOf(n, q, d - (x - y));
  }

  lemma WrapIs(t: Type, v: int)
    requires t.Narrow()
    ensures Modulus(t) > 0 && Wrap(t, v) == (v - MinOf(t)) % Modulus(t) + MinOf(t)
  {
    if InRange(t, v) { SmallMod(v - MinOf(t), Modulus(t)); }
  }

  lemma SmallMod(x: int, n: int)
    requires 0 <= x < n
    ensures x % n == x
  {}

  lemma BlockOf(n: int, q: int, d: int)
    requires 0 <= d < n
    ensures (n * q + d) % n == d
  {
    Euclid(n * q + d, n);
    var p := (n * q + d) / n;
    assert n * (q - p) == (n * q + d) % n - d;
    if q != p { SmallMultiple(n, q - p); }
  }

  /** The value just below the block of k is the greatest. */
  lemma BelowBlock(t: Type, k: int)
    requires t.Narrow()
    ensures Wrap(t, k - (Wrap(t, k) - MinOf(t)) - 1) == MaxOf(t)
  {
    var s := k - (Wrap(t, k) - MinOf(t));
    WrapBlock(t, k, s);
    WrapIs(t, s);
    WrapIs(t, s - 1);
    var n := Modulus(t);
    Euclid(s - MinOf(t), n);
    var q := (s - MinOf(t)) / n;
    assert s - 1 - MinOf(t) == n * (q - 1) + (n - 1);
    BlockOf(n, q - 1, n - 1);
  }

  /** For a value clamped to k and then cast, find_constant_bound takes k as cast for an upper
      bound.  It is one for every value if and only if the cast keeps the order below k. */
  lemma CastOfClamp(c: Tools, t: Type, from: Type, k: int, w: World)
    requires SimplifierSound(c, w) && t.Narrow() && t.lanes == 1 && from.lanes == 1 && InRange(from, k)
    requires (from.Narrow() || from.signed)
    ensures (forall env :: FoundOk(c, Clamped(t, from, k), true, w, env)) <==> KeepsOrderBelow(t, from, k)
  {
    var d := k - (Wrap(t, k) - MinOf(t));
    if KeepsOrderBelow(t, from, k) {
      forall env ensures FoundOk(c, Clamped(t, from, k), true, w, env) {
        FoundForClamp(c, t, from, k, w, env);
        var u := Ext(Min, Wrap(from, env.Get("v")), k);
        if u >= d { WrapBlock(t, k, u); }
      }
    } else {
      var env := Env(map["v" := d - 1], 0);
      assert env.Get("v") == d - 1;
      FoundForClamp(c, t, from, k, w, env);
      BelowBlock(t, k);
      assert !FoundOk(c, Clamped(t, from, k), true, w, env);
    }
  }

  lemma FoundForClamp(c: Tools, t: Type, from: Type, k: int, w: World, env: Env)
    requires SimplifierSound(c, w) && InRange(from, k)
    ensures FoundOk(c, Clamped(t, from, k), true, w, env) <==> Wrap(t, Ext(Min, Wrap(from, env.Get("v")), k)) <= Wrap(t, k)
  {
    var v := Var(from, "v");
    var m := Bin(Min, from, v, Imm(from, k));
    assert FindConstantBound(c, v, true).None?;
    assert FindConstantBound(c, m, true) == Some(Imm(from, k));
    var found := Cast(t, Imm(from, k));
    assert FindConstantBound(c, Clamped(t, from, k), true) == Some(c.simplify(found));
    assert Eval(c.simplify(found), w, env) == Eval(found, w, env) == Wrap(t, k);
    NodeValue(Min, m, w, env);
  }

  // the same from below

  function ClampedBelow(t: Type, from: Type, k: int): Expr { Cast(t, Bin(Max, from, Var(from, "v"), Imm(from, k))) }

  predicate KeepsOrderAbove(t: Type, from: Type, k: int) {
    Wrap(t, k) == MinOf(t) || (from.Narrow() && MaxOf(from) - k <= MaxOf(t) - Wrap(t, k))
  }

  lemma BlockAbove(t: Type, k: int, v: int)
    requires t.Narrow() && k <= v <= k + (MaxOf(t) - Wrap(t, k))
    ensures Wrap(t, v) == Wrap(t, k) + (v - k)
  {
    WrapIs(t, k);
    WrapIs(t, v);
    var n := Modulus(t);
    var q, d := (k - MinOf(t)) / n, (k - MinOf(t)) % n;
    Euclid(k - MinOf(t), n);
    assert v - MinOf(t) == n * q + (d + (v - k));
    BlockOf(n, q, d + (v - k));
  }

  lemma AboveBlock(t: Type, k: int)
    requires t.Narrow()
    ensures Wrap(t, k + (MaxOf(t) - Wrap(t, k)) + 1) == MinOf(t)
  {
    var e := k + (MaxOf(t) - Wrap(t, k)) + 1;
    WrapIs(t, k);
    WrapIs(t, e);
    var n := Modulus(t);
    var q, d := (k - MinOf(t)) / n, (k - MinOf(t)) % n;
    Euclid(k - MinOf(t), n);
    assert e - MinOf(t) == n * (q + 1) + 0;
    BlockOf(n, q + 1, 0);
  }

  lemma CastOfClampBelow(c: Tools, t: Type, from: Type, k: int, w: World)
    requires SimplifierSound(c, w) && t.Narrow() && t.lanes == 1 && from.lanes == 1 && InRange(from, k)
    ensures (forall env :: FoundOk(c, ClampedBelow(t, from, k), false, w, env)) <==> KeepsOrderAbove(t, from, k)
  {
    var d := k + (MaxOf(t) - Wrap(t, k));
    if KeepsOrderAbove(t, from, k) {
      forall env ensures FoundOk(c, ClampedBelow(t, from, k), false, w, env) {
        FoundForClampBelow(c, t, from, k, w, env);
        var u := Ext(Max, Wrap(from, env.Get("v")), k);
        if u <= d { BlockAbove(t, k, u); }
      }
    } else {
      var env := Env(map["v" := d + 1], 0);
      assert env.Get("v") == d + 1;
      FoundForClampBelow(c, t, from, k, w, env);
      AboveBlock(t, k);
      assert !FoundOk(c, ClampedBelow(t, from, k), false, w, env);
    }
  }

  lemma FoundForClampBelow(c: Tools, t: Type, from: Type, k: int, w: World, env: Env)
    requires SimplifierSound(c, w) && InRange(from, k)
    ensures FoundOk(c, ClampedBelow(t, from, k), false, w, env) <==> Wrap(t, k) <= Wrap(t, Ext(Max, Wrap(from, env.Get("v")), k))
  {
    var v := Var(from, "v");
    var m := Bin(Max, from, v, Imm(from, k));
    assert FindConstantBound(c, v, false).None?;
    assert FindConstantBound(c, m, false) == Some(Imm(from, k));
    var found := Cast(t, Imm(from, k));
    assert FindConstantBound(c, ClampedBelow(t, from, k), false) == Some(c.simplify(found));
    assert Eval(c.simplify(found), w, env) == Eval(found, w, env) == Wrap(t, k);
    NodeValue(Max, m, w, env);
  }

  // ---------- inputs on which the rules fail ----------

  /** A prover that answers true exactly to what always holds. */
  ghost predicate Complete(c: Tools) { forall e :: c.prove(e) <==> Always(e) }
  ghost predicate Always(e: Expr) { forall w, env :: Eval(e, w, env) != 0 }

  lemma Powers()
    ensures Pow2(7) == 128 && Pow2(8) == 256 && Pow2(15) == 32768 && Pow2(16) == 65536
  {
    assert Pow2(3) == 8 && Pow2(7) == 16 * Pow2(3);
    assert Pow2(11) == 16 * Pow2(7) && Pow2(15) == 16 * Pow2(11);
  }

  lemma ImmValue(t: Type, v: int, w: World, env: Env)
    ensures Eval(Imm(t, v), w, env) == v
  {}

  lemma CastValue(t: Type, e: Expr, w: World, env: Env)
    ensures Eval(Cast(t, e), w, env) == Wrap(t, Eval(e, w, env))
  {}

  /** 100 + 100 in eight bits is -56, outside [0, infinity), the sum of [0, infinity) with
      itself. */
  lemma NarrowSumWraps(c: Tools, w: World, env: Env)
    requires Complete(c)
    ensures var t := Int(8);
            var a := Interval(Fin(Imm(t, 0)), PosInf);
            var r := AddRule(c, Bin(Add, t, Var(t, "x"), Var(t, "y")), a, a);
            Operand(t, a, w, env, 100) && !Contains(r, w, env, Wrap(t, 100 + 100))
  {
    var t, zero := Int(8), Imm(Int(8), 0);
    Powers();
    assert t.ElementOf() == t && MinOf(t) == -128 && MaxOf(t) == 127;
    assert Wrap(t, 200) == -56;
    forall w', env' ensures Eval(NoOverflow(Add, t, zero, zero), w', env') != 0 {
      var sum := Bin(Add, t, zero, zero);
      ImmValue(t, 0, w', env');
      assert Eval(sum, w', env') == 0;
      CastValue(Int(32), zero, w', env');
      CastValue(Int(32), sum, w', env');
      assert Eval(Bin(Add, Int(32), AsInt(zero), AsInt(zero)), w', env') == 0;
    }
    assert Always(NoOverflow(Add, t, zero, zero));
    assert Eval(Bin(Add, t, zero, zero), w, env) == 0;
  }

  function Minus56(): Expr { Cast(Int(32), Cast(Int(8), Imm(Int(32), 200))) }

  lemma MinusValue(w: World, env: Env)
    ensures Eval(Minus56(), w, env) == -56
  {
    Powers();
    ImmValue(Int(32), 200, w, env);
    CastValue(Int(8), Imm(Int(32), 200), w, env);
    assert Wrap(Int(8), 200) == -56;
    CastValue(Int(32), Cast(Int(8), Imm(Int(32), 200)), w, env);
  }

  /** 200 cast to eight bits and back is -56 and reads as positive: a product of [0, 1] by it
      comes out as [0, -56]. */
  lemma WrappedConstantScales(c: Tools, w: World, env: Env)
    ensures var t := Int(32);
            var op := Bin(Mul, t, Var(t, "x"), Minus56());
            Eval(Minus56(), w, env) == -56 && !Contains(MulRule(c, op, Range(Imm(t, 0), Imm(t, 1)), Point(Minus56())), w, env, 0)
  {
    var t := Int(32);
    MinusValue(w, env);
    assert t.ElementOf() == t && IsPositiveConst(Minus56()) && !IsZero(Minus56());
    WideValue(Mul, t, Imm(t, 0), Minus56(), w, env);
    WideValue(Mul, t, Imm(t, 1), Minus56(), w, env);
  }

  function Clamp10(): Expr { Cast(UInt(16), Bin(Min, Int(32), Var(Int(32), "p"), Imm(Int(32), 10))) }

  lemma ClampValue(w: World, env: Env)
    requires env.Get("p") == -1
    ensures Eval(Clamp10(), w, env) == 65535
  {
    Powers();
    var p, ten := Var(Int(32), "p"), Imm(Int(32), 10);
    assert Eval(p, w, env) == -1;
    ImmValue(Int(32), 10, w, env);
    NodeValue(Min, Bin(Min, Int(32), p, ten), w, env);
    CastValue(UInt(16), Bin(Min, Int(32), p, ten), w, env);
    assert Wrap(UInt(16), -1) == 65535;
  }

  function Ten(): Expr { Cast(UInt(16), Imm(Int(32), 10)) }

  lemma TenValue(w: World, env: Env)
    ensures Eval(Ten(), w, env) == 10 == Eval(Cast(UInt(8), Ten()), w, env)
    ensures Eval(Cast(UInt(16), Cast(UInt(8), Ten())), w, env) == 10
  {
    Powers();
    ImmValue(Int(32), 10, w, env);
    CastValue(UInt(16), Imm(Int(32), 10), w, env);
    CastValue(UInt(8), Ten(), w, env);
    CastValue(UInt(16), Cast(UInt(8), Ten()), w, env);
  }

  lemma ZeroValue(w: World, env: Env)
    ensures Eval(Cast(UInt(16), Cast(UInt(8), Imm(UInt(16), 0))), w, env) == 0 == Eval(Imm(UInt(16), 0), w, env)
  {
    ImmValue(UInt(16), 0, w, env);
    CastValue(UInt(8), Imm(UInt(16), 0), w, env);
    CastValue(UInt(16), Cast(UInt(8), Imm(UInt(16), 0)), w, env);
  }

  /** For p = -1 the upper end cast<uint16>(min(p, 10)) is 65535, but the constant found for
      it is 10, so that cast<uint8>(x) is taken to be at most 10. */
  lemma NarrowedTooFar(c: Tools, w: World)
    requires Complete(c) && SimplifierSound(c, w) && (forall e :: c.simplify(e) == e)
    ensures var x, env := Var(UInt(16), "x"), Env(map["p" := -1, "x" := 200], 0);
            var scope := map["x" := Range(Imm(UInt(16), 0), Clamp10())];
            && Contains(scope["x"], w, env, Eval(x, w, env))
            && Eval(Cast(UInt(8), x), w, env) == 200
            && !Contains(BoundsOf(Cast(UInt(8), x), scope, c), w, env, 200)
  {
    Powers();
    var x, env := Var(UInt(16), "x"), Env(map["p" := -1, "x" := 200], 0);
    var a := Range(Imm(UInt(16), 0), Clamp10());
    var scope := map["x" := a];
    assert env.Get("p") == -1 && env.Get("x") == 200;
    assert Wrap(UInt(16), -1) == 65535 && Wrap(UInt(8), 200) == 200;
    ClampValue(w, env);
    assert BoundsOf(x, scope, c) == a;
    NarrowRule(c, a);
    TenValue(w, env);
  }

  lemma NarrowRule(c: Tools, a: Interval)
    requires Complete(c) && (forall e :: c.simplify(e) == e) && a == Range(Imm(UInt(16), 0), Clamp10())
    ensures CastRule(c, Cast(UInt(8), Var(UInt(16), "x")), a)
         == Range(Cast(UInt(8), Imm(UInt(16), 0)), Cast(UInt(8), Ten()))
  {
    Powers();
    var to, from := UInt(8), UInt(16);
    var lo, hi := Imm(from, 0), Ten();
    assert FindConstantBound(c, Var(Int(32), "p"), true).None?;
    assert FindConstantBound(c, Clamp10().value, true) == Some(Imm(Int(32), 10));
    assert FindConstantBound(c, Clamp10(), true) == Some(hi);
    var t1, t2 := Unchanged(to, from, lo), Unchanged(to, from, hi);
    forall w, env ensures Eval(Bin(And, Bool(1), t1, t2), w, env) != 0 {
      TenValue(w, env);
      ZeroValue(w, env);
      assert Eval(t1, w, env) != 0 && Eval(t2, w, env) != 0;
    }
    assert Always(Bin(And, Bool(1), t1, t2));
  }

  /** In eight bits -127 / -1 is 127, outside the quotient of [-128, -126] by [-2, -1]: the
      corner -128 / -1 wraps, and 126 is the greatest of the four. */
  lemma DivRangeWraps(c: Tools, w: World, env: Env)
    requires Complete(c)
    ensures var t := Int(8);
            var op := Bin(Div, t, Var(t, "x"), Var(t, "y"));
            var a, b := Range(Imm(t, -128), Imm(t, -126)), Range(Imm(t, -2), Imm(t, -1));
            && Operand(t, a, w, env, -127) && Operand(t, b, w, env, -1)
            && !Contains(DivRule(c, op, a, b), w, env, Wrap(t, DivValue(-127, -1)))
  {
    Powers();
    var t := Int(8);
    var a, b := Range(Imm(t, -128), Imm(t, -126)), Range(Imm(t, -2), Imm(t, -1));
    assert MinOf(t) == -128 && MaxOf(t) == 127;
    DivisorSigns(c, w, env);
    CornerValues(w, env);
    QuotientEnds(c, Bin(Div, t, Var(t, "x"), Var(t, "y")), a, b, w, env);
  }

  lemma DivisorSigns(c: Tools, w: World, env: Env)
    requires Complete(c)
    ensures var b0, b1 := Imm(Int(8), -2), Imm(Int(8), -1);
            !c.prove(Bin(EQ, Bool(1), b0, b1)) && StaticSign(c, b0) == -1 == StaticSign(c, b1)
  {
    var same := Bin(EQ, Bool(1), Imm(Int(8), -2), Imm(Int(8), -1));
    assert Eval(same, w, env) == 0;
    assert !Always(same);
  }

  lemma CornerValues(w: World, env: Env)
    ensures var t := Int(8);
            && Eval(Bin(Div, t, Imm(t, -128), Imm(t, -2)), w, env) == 64 && Eval(Bin(Div, t, Imm(t, -126), Imm(t, -2)), w, env) == 63
            && Eval(Bin(Div, t, Imm(t, -128), Imm(t, -1)), w, env) == -128 && Eval(Bin(Div, t, Imm(t, -126), Imm(t, -1)), w, env) == 126
  {
    Powers();
    var t := Int(8);
    NegatedMin(t);
    assert MinOf(t) == -128 && MaxOf(t) == 127;
  }
}
