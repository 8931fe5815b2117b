/** Halide's symbolic interval analysis: for an expression, and intervals for some of its
    variables, expressions for the least and the greatest value it can take.  The rules
    for single nodes are here; the traversal that applies them is `BoundsOf`, and the
    class `Bounds` is the visitor that computes it. */
module BoundsRules {
  import opened IR
  import opened Intervals

  type FuncValueBounds = map<(string, nat), Interval>

  /** What the analysis leans on: bounds of function values, the theorem prover
      `can_prove` and the simplifier. */
  datatype Tools = Tools(fb: FuncValueBounds, prove: Expr -> bool, simplify: Expr -> Expr)

  // ---------- constants ----------

  predicate IsPositiveConst(e: Expr) {
    match e
    case Imm(_, v) => v > 0
    case Cast(_, value) => IsPositiveConst(value)
    case Ramp(base, stride, _) => IsPositiveConst(base) && IsPositiveConst(stride)
    case Broadcast(value, _) => IsPositiveConst(value)
    case _ => false
  }

  predicate IsNegativeConst(e: Expr) {
    match e
    case Imm(t, v) => t.signed && v < 0
    case Cast(_, value) => IsNegativeConst(value)
    case Ramp(base, stride, _) => IsNegativeConst(base) && IsNegativeConst(stride)
    case Broadcast(value, _) => IsNegativeConst(value)
    case _ => false
  }

  predicate IsZero(e: Expr) {
    match e
    case Imm(_, v) => v == 0
    case Cast(_, value) => IsZero(value)
    case Broadcast(value, _) => IsZero(value)
    case _ => false
  }

  function StaticSign(c: Tools, e: Expr): int {
    if IsPositiveConst(e) then 1
    else if IsNegativeConst(e) then -1
    else
      var t := TypeOf(e);
      if c.simplify(Bin(GT, Bool(1), e, Imm(t, 0))) == ConstTrue() then 1
      else if c.simplify(Bin(LT, Bool(1), e, Imm(t, 0))) == ConstTrue() then -1
      else 0
  }

  /** find_constant_bound: a constant above (or below) the expression, sought through
      minima, maxima and casts. */
  function FindConstantBound(c: Tools, e: Expr, upper: bool): Option<Expr> {
    if IsConst(e) then Some(e)
    else if IsNode(Min, e) || IsNode(Max, e) then
      var a := FindConstantBound(c, e.a, upper);
      var b := FindConstantBound(c, e.b, upper);
      if a.Some? && b.Some? then Some(c.simplify(Bin(e.op, e.t, a.value, b.value)))
      else if (e.op.Min? && upper) || (e.op.Max? && !upper) then (if a.Some? then a else b)
      else None
    else if e.Cast? then
      var a := FindConstantBound(c, e.value, upper);
      if a.Some? then Some(c.simplify(Cast(e.t, a.value))) else None
    else None
  }

  // ---------- intervals of types and functions ----------

  function BoundsOfType(t: Type): Interval {
    var t' := t.ElementOf();
    if t'.bits <= 16 then Range(Imm(t', MinOf(t')), Imm(t', MaxOf(t'))) else Everything()
  }

  /** The bounds of the type, improved where the function's recorded bounds have an end. */
  function BoundsOfFunc(c: Tools, key: (string, nat), t: Type): Interval {
    var i := BoundsOfType(t);
    if key in c.fb then
      var f := c.fb[key];
      Interval(if f.HasLower() then f.min else i.min, if f.HasUpper() then f.max else i.max)
    else i
  }

  // ---------- casts ----------

  /** The bounds of the narrow type, improved by those of the operand, then cast. */
  function Widened(a: Interval, to: Type, from: Type): Interval {
    var i := BoundsOfType(from);
    var j := Interval(if a.HasLower() then a.min else i.min, if a.HasUpper() then a.max else i.max);
    Interval(if j.HasLower() then Fin(Cast(to, j.min.e)) else j.min,
             if j.HasUpper() then Fin(Cast(to, j.max.e)) else j.max)
  }

  function Unchanged(to: Type, from: Type, e: Expr): Expr {
    Bin(EQ, Bool(1), Cast(from, Cast(to, e)), e)
  }

  function CastRule(c: Tools, op: Expr, a: Interval): Interval
    requires op.Cast?
  {
    var to, from := op.t.ElementOf(), TypeOf(op.value).ElementOf();
    if a.IsPointAt(op.value) then Point(op)
    else if a.IsPoint() then Point(Cast(to, a.min.e))
    else if to.CanRepresent(from) || (to.IsInt() && to.bits >= 32) then Widened(a, to, from)
    else if a.IsBounded() && from.CanRepresent(to) then
      var lo := FindConstantBound(c, a.min.e, false);
      var hi := FindConstantBound(c, a.max.e, true);
      if lo.Some? && hi.Some? &&
         c.prove(Bin(And, Bool(1), Unchanged(to, from, lo.value), Unchanged(to, from, hi.value)))
      then Widened(Range(lo.value, hi.value), to, from)
      else BoundsOfType(to)
    else BoundsOfType(to)
  }

  // ---------- arithmetic ----------

  function AsInt(e: Expr): Expr { Cast(Int(32), e) }

  /** The result of the operation, computed in 32 bits, is what the narrow type gives. */
  function NoOverflow(op: BinOp, t: Type, x: Expr, y: Expr): Expr {
    Bin(EQ, Bool(1), Bin(op, Int(32), AsInt(x), AsInt(y)), AsInt(Bin(op, t, x, y)))
  }

  function AddRule(c: Tools, op: Expr, a: Interval, b: Interval): Interval
    requires op.Bin?
  {
    var t := op.t.ElementOf();
    if a.IsPointAt(op.a) && b.IsPointAt(op.b) then Point(op)
    else if a.IsPoint() && b.IsPoint() then Point(Bin(Add, t, a.min.e, b.min.e))
    else
      var i := Interval(
        if a.HasLower() && b.HasLower() then Fin(Bin(Add, t, a.min.e, b.min.e)) else NegInf,
        if a.HasUpper() && b.HasUpper() then Fin(Bin(Add, t, a.max.e, b.max.e)) else PosInf);
      if t.Narrow() && i.HasUpper() && !c.prove(NoOverflow(Add, t, a.max.e, b.max.e)) then BoundsOfType(t)
      else if t.Narrow() && i.HasLower() && !c.prove(NoOverflow(Add, t, a.min.e, b.min.e)) then BoundsOfType(t)
      else i
  }

  function SubRule(c: Tools, op: Expr, a: Interval, b: Interval): Interval
    requires op.Bin?
  {
    var t := op.t.ElementOf();
    if a.IsPointAt(op.a) && b.IsPointAt(op.b) then Point(op)
    else if a.IsPoint() && b.IsPoint() then Point(Bin(Sub, t, a.min.e, b.min.e))
    else
      var i := Interval(
        if a.HasLower() && b.HasUpper() then Fin(Bin(Sub, t, a.min.e, b.max.e)) else NegInf,
        if a.HasUpper() && b.HasLower() then Fin(Bin(Sub, t, a.max.e, b.min.e)) else PosInf);
      if t.Narrow() && i.HasUpper() && !c.prove(NoOverflow(Sub, t, a.max.e, b.min.e)) then BoundsOfType(t)
      else if t.Narrow() && i.HasLower() && !c.prove(NoOverflow(Sub, t, a.min.e, b.max.e)) then BoundsOfType(t)
      else if t.IsUInt() && i.HasLower() && !c.prove(Bin(LE, Bool(1), b.max.e, a.min.e)) then BoundsOfType(t)
      else i
  }

  /** "Move constants to the right." */
  predicate MulSwaps(a: Interval, b: Interval) { a.IsPoint() && !b.IsPoint() }

  function Corners(op: BinOp, t: Type, a: Interval, b: Interval): Interval
    requires a.IsBounded() && b.IsBounded()
  {
    Include(Include(Include(Include(Nothing(),
      Point(Bin(op, t, a.min.e, b.min.e))),
      Point(Bin(op, t, a.min.e, b.max.e))),
      Point(Bin(op, t, a.max.e, b.min.e))),
      Point(Bin(op, t, a.max.e, b.max.e)))
  }

  function Scaled(op: BinOp, t: Type, b: Bound, k: Bound, has: bool): Bound
    requires has ==> b.Fin? && k.Fin?
  {
    if has then Fin(Bin(op, t, b.e, k.e)) else b
  }

  /** Both arms of a product or quotient when the sign of the second operand is unknown. */
  function BySign(cmp: BinOp, t: Type, b: Expr, e1: Expr, e2: Expr): Interval {
    var positive := Bin(cmp, Bool(1), b, Imm(t, 0));
    Range(Select(positive, e1, e2), Select(positive, e2, e1))
  }

  function MulCore(op: Expr, a: Interval, b: Interval): Interval
    requires op.Bin?
  {
    var t := op.t.ElementOf();
    if a.IsPointAt(op.a) && b.IsPointAt(op.b) then Point(op)
    else if a.IsPoint() && b.IsPoint() then Point(Bin(Mul, t, a.min.e, b.min.e))
    else if b.IsPoint() then
      var e1 := Scaled(Mul, t, a.min, b.min, a.HasLower());
      var e2 := Scaled(Mul, t, a.max, b.min, a.HasUpper());
      if IsZero(b.min.e) then b
      else if IsPositiveConst(b.min.e) || t.IsUInt() then Interval(e1, e2)
      else if IsNegativeConst(b.min.e) then Interval(e2, e1)
      else if a.IsBounded() then BySign(GE, t, b.min.e, e1.e, e2.e)
      else Everything()
    else if a.IsBounded() && b.IsBounded() then Corners(Mul, t, a, b)
    else Everything()
  }

  predicate CornersFit(c: Tools, t: Type, a: Interval, b: Interval)
    requires a.IsBounded() && b.IsBounded()
  {
    c.prove(Bin(And, Bool(1),
      Bin(And, Bool(1),
        Bin(And, Bool(1),
          NoOverflow(Mul, t, a.min.e, b.min.e),
          NoOverflow(Mul, t, a.min.e, b.max.e)),
        NoOverflow(Mul, t, a.max.e, b.min.e)),
      NoOverflow(Mul, t, a.max.e, b.max.e)))
  }

  /** Below 32 bits the product is kept only if no corner overflows. */
  function MulOrdered(c: Tools, op: Expr, a: Interval, b: Interval): Interval
    requires op.Bin?
  {
    var t := op.t.ElementOf();
    if t.Narrow() && !(a.IsBounded() && b.IsBounded() && CornersFit(c, t, a, b)) then BoundsOfType(t)
    else MulCore(op, a, b)
  }

  function MulRule(c: Tools, op: Expr, a: Interval, b: Interval): Interval
    requires op.Bin?
  {
    if MulSwaps(a, b) then MulOrdered(c, op, b, a) else MulOrdered(c, op, a, b)
  }

  function DivRule(c: Tools, op: Expr, a: Interval, b: Interval): Interval
    requires op.Bin?
  {
    var t := op.t.ElementOf();
    if !b.IsBounded() then Everything()
    else if a.IsPointAt(op.a) && b.IsPointAt(op.b) then Point(op)
    else if c.prove(Bin(EQ, Bool(1), b.min.e, b.max.e)) then
      var e1 := Scaled(Div, t, a.min, b.min, a.HasLower());
      var e2 := Scaled(Div, t, a.max, b.max, a.HasUpper());
      if IsPositiveConst(b.min.e) || t.IsUInt() then Interval(e1, e2)
      else if IsNegativeConst(b.min.e) then Interval(e2, e1)
      else if a.IsBounded() then BySign(GT, t, b.min.e, e1.e, e2.e)
      else Everything()
    else if a.IsBounded() then
      var minSign, maxSign := StaticSign(c, b.min.e), StaticSign(c, b.max.e);
      if minSign != maxSign || minSign == 0 || maxSign == 0 then Everything()
      else
        // the corners by the lower divisor first
        Include(Include(Include(Include(Nothing(),
          Point(Bin(Div, t, a.min.e, b.min.e))),
          Point(Bin(Div, t, a.max.e, b.min.e))),
          Point(Bin(Div, t, a.min.e, b.max.e))),
          Point(Bin(Div, t, a.max.e, b.max.e)))
    else Everything()
  }

  function ModRule(op: Expr, a: Interval, b: Interval): Interval
    requires op.Bin?
  {
    var t := op.t.ElementOf();
    if !b.IsBounded() then b
    else if a.IsPointAt(op.a) && b.IsPointAt(op.b) then Point(op)
    else if a.IsPoint() && b.IsPoint() then Point(Bin(Mod, t, a.min.e, b.min.e))
    else if t.IsUInt() || IsPositiveConst(b.min.e) then
      Range(Imm(t, 0), Bin(Sub, t, b.max.e, Imm(t, 1)))
    else
      var u := Type(false, t.bits, 1);
      var m := Bin(Max, u, Call(Abs, u, "abs", 0, [b.min.e]), Call(Abs, u, "abs", 0, [b.max.e]));
      Range(Imm(t, 0), Bin(Sub, t, Cast(t, m), Imm(t, 1)))
  }

  function ExtRule(op: Expr, a: Interval, b: Interval): Interval
    requires op.Bin? && IsExt(op.op)
  {
    if a.IsPointAt(op.a) && b.IsPointAt(op.b) then Point(op)
    else Interval(MakeBound(op.op, a.min, b.min), MakeBound(op.op, a.max, b.max))
  }

  function BinRule(c: Tools, op: Expr, a: Interval, b: Interval): Interval
    requires op.Bin?
  {
    match op.op
    case Add => AddRule(c, op, a, b)
    case Sub => SubRule(c, op, a, b)
    case Mul => MulRule(c, op, a, b)
    case Div => DivRule(c, op, a, b)
    case Mod => ModRule(op, a, b)
    case Min => ExtRule(op, a, b)
    case Max => ExtRule(op, a, b)
    case _ => BoundsOfType(op.t)
  }

  // ---------- the other nodes ----------

  function PickBound(cond: Expr, fixed: bool, op: BinOp, a: Bound, b: Bound): Bound
    requires IsExt(op)
  {
    if a == b then a
    else if fixed && a.Fin? && b.Fin? then Fin(Select(cond, a.e, b.e))
    else MakeBound(op, a, b)
  }

  /** Both arms bounded.  The condition is kept when no variable of the scope can change
      it and it is a scalar. */
  function SelectRule(cond: Expr, names: set<string>, a: Interval, b: Interval): Interval {
    var fixed := TypeOf(cond).lanes == 1 && !UsesVars(cond, names);
    Interval(PickBound(cond, fixed, Min, a.min, b.min), PickBound(cond, fixed, Max, a.max, b.max))
  }

  function LoadRule(op: Expr, i: Interval): Interval
    requires op.Load?
  {
    if i.IsPoint() then Point(Load(op.t.ElementOf(), op.name, i.min.e)) else BoundsOfType(op.t)
  }

  /** A ramp is base + lane * stride, for a lane variable that ranges over the lanes. */
  const LANE := "t"

  function LaneProduct(op: Expr): Expr
    requires op.Ramp?
  {
    var t := TypeOf(op.base);
    Bin(Mul, t, Var(t, LANE), op.stride)
  }

  function RampRule(c: Tools, op: Expr, base: Interval, stride: Interval): Interval
    requires op.Ramp?
  {
    var t := TypeOf(op.base);
    var lane := Range(Imm(t, 0), Imm(t, op.lanes - 1));
    AddRule(c, Bin(Add, t, op.base, LaneProduct(op)), base, MulRule(c, LaneProduct(op), lane, stride))
  }

  function AbsRule(op: Expr, a: Interval): Interval
    requires op.Call? && |op.args| == 1
  {
    var t := op.t.ElementOf();
    var arg := TypeOf(op.args[0]);
    if !a.IsBounded() then Interval(Fin(Imm(t, 0)), PosInf)
    else if a.min == a.max then Point(Call(Abs, t, op.name, op.valueIndex, [a.max.e]))
    else if arg.IsInt() && arg.bits >= 32 then
      Range(Imm(t, 0),
            Bin(Max, t, Cast(t, Bin(Sub, arg.ElementOf(), Imm(arg.ElementOf(), 0), a.min.e)), Cast(t, a.max.e)))
    else
      Range(Imm(t, 0),
            Bin(Max, t, Call(Abs, t, op.name, op.valueIndex, [a.min.e]), Call(Abs, t, op.name, op.valueIndex, [a.max.e])))
  }

  predicate AllPoints(ivs: seq<Interval>) { forall i :: 0 <= i < |ivs| ==> ivs[i].IsPoint() }

  function PointExprs(ivs: seq<Interval>): seq<Expr>
    requires AllPoints(ivs)
  {
    if ivs == [] then [] else [ivs[0].min.e] + PointExprs(ivs[1..])
  }

  // ---------- lets ----------

  /** How a let variable is entered in the scope: constant ends are substituted, others
      are referred to by name. */
  function LetEnd(b: Bound, t: Type, name: string): Bound {
    if !b.Fin? || IsConst(b.e) then b else Fin(Var(t, name))
  }

  function LetInterval(val: Interval, t: Type, name: string): Interval {
    Interval(if val.HasLower() then LetEnd(val.min, t, name + ".min") else NegInf,
             if val.HasUpper() then LetEnd(val.max, t, name + ".max") else PosInf)
  }

  /** Bind the name around the end of an interval that mentions it. */
  function WrapLet(b: Bound, name: string, value: Bound, needed: bool): Bound {
    if needed && value.Fin? && b.Fin? && !IsConst(value.e) && UsesVars(b.e, {name})
    then Fin(Let(name, value.e, b.e)) else b
  }

  function WrapEnd(b: Bound, val: Interval, name: string, has: bool): Bound {
    if !has then b
    else
      var inner := WrapLet(b, name + ".min", val.min, val.HasLower());
      WrapLet(inner, name + ".max", val.max, val.HasUpper())
  }

  function WrapLets(i: Interval, val: Interval, name: string): Interval {
    Interval(WrapEnd(i.min, val, name, i.HasLower()), WrapEnd(i.max, val, name, i.HasUpper()))
  }

  // ---------- the traversal ----------

  type Scope = map<string, Interval>

  function BoundsOf(e: Expr, scope: Scope, c: Tools): Interval
    decreases e
  {
    match e
    case Imm(_, _) => Point(e)
    case Var(t, name) =>
      if name in scope then scope[name]
      else if t.lanes > 1 then BoundsOfType(t)
      else Point(e)
    case Cast(_, value) => CastRule(c, e, BoundsOf(value, scope, c))
    case Bin(op, t, a, b) =>
      if IsArith(op) then BinRule(c, e, BoundsOf(a, scope, c), BoundsOf(b, scope, c))
      else BoundsOfType(t)
    case Not(a) => BoundsOfType(TypeOf(e))
    case Select(cond, tv, fv) =>
      var a := BoundsOf(tv, scope, c);
      if !a.IsBounded() then a
      else
        var b := BoundsOf(fv, scope, c);
        if !b.IsBounded() then b else SelectRule(cond, scope.Keys, a, b)
    case Load(_, _, index) => LoadRule(e, BoundsOf(index, scope, c))
    case Ramp(base, stride, _) => RampRule(c, e, BoundsOf(base, scope, c), BoundsOf(stride, scope, c))
    case Broadcast(value, _) => BoundsOf(value, scope, c)
    case Call(kind, t, name, idx, args) =>
      if (kind.PureExtern? || kind.Image?) && AllPoints(BoundsOfArgs(args, scope, c)) then
        Point(Call(kind, t.ElementOf(), name, idx, PointExprs(BoundsOfArgs(args, scope, c))))
      else if kind.Abs? && |args| == 1 then AbsRule(e, BoundsOf(args[0], scope, c))
      else if kind.Likely? && |args| == 1 then BoundsOf(args[0], scope, c)
      else if kind.IfThenElse? && |args| == 3 then
        var a := BoundsOf(args[1], scope, c);
        if !a.IsBounded() then a
        else
          var b := BoundsOf(args[2], scope, c);
          if !b.IsBounded() then b else SelectRule(args[0], scope.Keys, a, b)
      else if kind.Halide? then BoundsOfFunc(c, (name, idx), t)
      else BoundsOfType(t)
    case Let(name, value, body) =>
      var val := BoundsOf(value, scope, c);
      var i := BoundsOf(body, scope[name := LetInterval(val, TypeOf(value).ElementOf(), name)], c);
      WrapLets(i, val, name)
  }

  function BoundsOfArgs(es: seq<Expr>, scope: Scope, c: Tools): (ivs: seq<Interval>)
    ensures |ivs| == |es|
    ensures forall i :: 0 <= i < |es| ==> ivs[i] == BoundsOf(es[i], scope, c)
    decreases es
  {
    if es == [] then [] else [BoundsOf(es[0], scope, c)] + BoundsOfArgs(es[1..], scope, c)
  }
}
