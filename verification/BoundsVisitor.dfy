/** The interval analysis as the visitor it is: every visit overwrites the field
    `interval`, and pushes and pops the scope.  What it leaves in `interval` is `BoundsOf`
    under the scope at the time of the visit, and the scope is as it was before. */
module BoundsVisitor {
  import opened IR
  import opened Intervals
  import opened BoundsRules
  import opened Scopes

  class Bounds {
    var interval: Interval
    const scope: SymbolScope<Interval>
    const tools: Tools

    constructor (containing: Scope, c: Tools)
      ensures fresh(scope) && scope.Valid() && scope.View() == containing && scope.table == map[] && tools == c
    {
      interval := Everything();
      scope := new SymbolScope(containing);
      tools := c;
    }

    method Accept(e: Expr)
      requires scope.Valid()
      modifies this, scope
      ensures scope.Valid() && scope.table == old(scope.table)
      ensures interval == BoundsOf(e, old(scope.View()), tools)
      decreases e, 2
    {
      match e
      case Imm(_, _) => interval := Point(e);
      case Var(t, name) =>
        var inScope := scope.Contains(name);
        if inScope {
          interval := scope.Get(name);
        } else if t.lanes > 1 {
          interval := BoundsOfType(t);
        } else {
          interval := Point(e);
        }
      case Cast(_, value) =>
        Accept(value);
        interval := CastRule(tools, e, interval);
      case Bin(op, t, _, _) =>
        if IsArith(op) { VisitArith(e); } else { interval := BoundsOfType(t); }
      case Not(_) => interval := BoundsOfType(TypeOf(e));
      case Select(cond, tv, fv) => VisitSelect(e, cond, tv, fv);
      case Load(t, name, index) =>
        Accept(index);
        interval := if interval.IsPoint() then Point(Load(t.ElementOf(), name, interval.min.e)) else BoundsOfType(t);
      case Ramp(base, stride, _) =>
        Accept(base);
        var b := interval;
        Accept(stride);
        interval := RampRule(tools, e, b, interval);
      case Broadcast(value, _) => Accept(value);
      case Call(_, _, _, _, _) => VisitCall(e);
      case Let(_, _, _) => VisitLet(e);
    }

    method VisitArith(e: Expr)
      requires e.Bin? && IsArith(e.op) && scope.Valid()
      modifies this, scope
      ensures scope.Valid() && scope.table == old(scope.table)
      ensures interval == BoundsOf(e, old(scope.View()), tools)
      decreases e, 0
    {
      Accept(e.a);
      var a := interval;
      Accept(e.b);
      var b := interval;
      if e.op.Add? {
        Sum(e, a, b);
      } else if e.op.Sub? {
        Difference(e, a, b);
      } else if e.op.Mul? {
        Product(e, a, b);
      } else {
        interval := BinRule(tools, e, a, b);
      }
    }

    method Sum(e: Expr, a: Interval, b: Interval)
      requires e.Bin?
      modifies this
      ensures interval == AddRule(tools, e, a, b)
    {
      var t := e.t.ElementOf();
      if a.IsPointAt(e.a) && b.IsPointAt(e.b) {
        interval := Point(e);
      } else if a.IsPoint() && b.IsPoint() {
        interval := Point(Bin(Add, t, a.min.e, b.min.e));
      } else {
        interval := Everything();
        if a.HasLower() && b.HasLower() { interval := interval.(min := Fin(Bin(Add, t, a.min.e, b.min.e))); }
        if a.HasUpper() && b.HasUpper() { interval := interval.(max := Fin(Bin(Add, t, a.max.e, b.max.e))); }
        if t.Narrow() {
          if interval.HasUpper() && !tools.prove(NoOverflow(Add, t, a.max.e, b.max.e)) {
            interval := BoundsOfType(t);
            return;
          }
          if interval.HasLower() && !tools.prove(NoOverflow(Add, t, a.min.e, b.min.e)) {
            interval := BoundsOfType(t);
          }
        }
      }
    }

    method Difference(e: Expr, a: Interval, b: Interval)
      requires e.Bin?
      modifies this
      ensures interval == SubRule(tools, e, a, b)
    {
      var t := e.t.ElementOf();
      if a.IsPointAt(e.a) && b.IsPointAt(e.b) {
        interval := Point(e);
      } else if a.IsPoint() && b.IsPoint() {
        interval := Point(Bin(Sub, t, a.min.e, b.min.e));
      } else {
        interval := Everything();
        if a.HasLower() && b.HasUpper() { interval := interval.(min := Fin(Bin(Sub, t, a.min.e, b.max.e))); }
        if a.HasUpper() && b.HasLower() { interval := interval.(max := Fin(Bin(Sub, t, a.max.e, b.min.e))); }
        if t.Narrow() {
          if interval.HasUpper() && !tools.prove(NoOverflow(Sub, t, a.max.e, b.min.e)) {
            interval := BoundsOfType(t);
            return;
          }
          if interval.HasLower() && !tools.prove(NoOverflow(Sub, t, a.min.e, b.max.e)) {
            interval := BoundsOfType(t);
            return;
          }
        }
        if t.IsUInt() && interval.HasLower() && !tools.prove(Bin(LE, Bool(1), b.max.e, a.min.e)) {
          interval := BoundsOfType(t);
        }
      }
    }

    method Product(e: Expr, left: Interval, right: Interval)
      requires e.Bin?
      modifies this
      ensures interval == MulRule(tools, e, left, right)
    {
      var t := e.t.ElementOf();
      var a, b := left, right;
      if a.IsPoint() && !b.IsPoint() { a, b := b, a; }
      if a.IsPointAt(e.a) && b.IsPointAt(e.b) {
        interval := Point(e);
      } else if a.IsPoint() && b.IsPoint() {
        interval := Point(Bin(Mul, t, a.min.e, b.min.e));
      } else if b.IsPoint() {
        Scale(e, a, b);
      } else if a.IsBounded() && b.IsBounded() {
        interval := Nothing();
        interval := Include(interval, Point(Bin(Mul, t, a.min.e, b.min.e)));
        interval := Include(interval, Point(Bin(Mul, t, a.min.e, b.max.e)));
        interval := Include(interval, Point(Bin(Mul, t, a.max.e, b.min.e)));
        interval := Include(interval, Point(Bin(Mul, t, a.max.e, b.max.e)));
      } else {
        interval := Everything();
      }
      if t.Narrow() {
        if a.IsBounded() && b.IsBounded() {
          if !CornersFit(tools, t, a, b) { interval := BoundsOfType(t); }
        } else {
          interval := BoundsOfType(t);
        }
      }
    }

    /** A product with a single factor. */
    method Scale(e: Expr, a: Interval, b: Interval)
      requires e.Bin? && b.IsPoint() && !a.IsPoint()
      modifies this
      ensures interval == MulCore(e, a, b)
    {
      var t := e.t.ElementOf();
      var e1 := if a.HasLower() then Fin(Bin(Mul, t, a.min.e, b.min.e)) else a.min;
      var e2 := if a.HasUpper() then Fin(Bin(Mul, t, a.max.e, b.min.e)) else a.max;
      if IsZero(b.min.e) {
        interval := b;
      } else if IsPositiveConst(b.min.e) || t.IsUInt() {
        interval := Interval(e1, e2);
      } else if IsNegativeConst(b.min.e) {
        interval := Interval(e2, e1);
      } else if a.IsBounded() {
        var cmp := Bin(GE, Bool(1), b.min.e, Imm(t, 0));
        interval := Range(Select(cmp, e1.e, e2.e), Select(cmp, e2.e, e1.e));
      } else {
        interval := Everything();
      }
    }

    method VisitSelect(ghost whole: Expr, cond: Expr, tv: Expr, fv: Expr)
      requires tv < whole && fv < whole && scope.Valid()
      modifies this, scope
      ensures scope.Valid() && scope.table == old(scope.table)
      ensures interval == BoundsOf(Select(cond, tv, fv), old(scope.View()), tools)
      decreases whole, 0
    {
      Accept(tv);
      if !interval.IsBounded() { return; }
      var a := interval;
      Accept(fv);
      if !interval.IsBounded() { return; }
      var b := interval;
      var names := scope.View().Keys;
      var fixed := TypeOf(cond).lanes == 1 && !UsesVars(cond, names);
      if a.min == b.min {
        interval := interval.(min := a.min);
      } else if fixed {
        interval := interval.(min := Fin(Select(cond, a.min.e, b.min.e)));
      } else {
        interval := interval.(min := MakeMin(a.min, b.min));
      }
      if a.max == b.max {
        interval := interval.(max := a.max);
      } else if fixed {
        interval := interval.(max := Fin(Select(cond, a.max.e, b.max.e)));
      } else {
        interval := interval.(max := MakeMax(a.max, b.max));
      }
    }

    /** The arguments are visited up to the first that is not a single point; of the
        intrinsics, some visit theirs again. */
    method VisitCall(e: Expr)
      requires e.Call? && scope.Valid()
      modifies this, scope
      ensures scope.Valid() && scope.table == old(scope.table)
      ensures interval == BoundsOf(e, old(scope.View()), tools)
      decreases e, 1
    {
      ghost var view := scope.View();
      ghost var ivs := BoundsOfArgs(e.args, view, tools);
      var newArgs: seq<Expr> := [];
      var constArgs := true;
      var i := 0;
      while i < |e.args| && constArgs
        invariant 0 <= i <= |e.args|
        invariant scope.Valid() && scope.table == old(scope.table)
        invariant forall k :: 0 <= k < i && (constArgs || k < i - 1) ==> ivs[k].IsPoint()
        invariant constArgs ==> |newArgs| == i && forall k :: 0 <= k < i ==> newArgs[k] == ivs[k].min.e
        invariant !constArgs ==> i > 0 && !ivs[i - 1].IsPoint()
        invariant i > 0 ==> interval == ivs[i - 1]
      {
        Accept(e.args[i]);
        if interval.IsPoint() {
          newArgs := newArgs + [interval.min.e];
        } else {
          constArgs := false;
        }
        i := i + 1;
      }
      assert constArgs <==> AllPoints(ivs);
      var t := e.t.ElementOf();
      if constArgs && (e.kind.PureExtern? || e.kind.Image?) {
        PointExprsAre(ivs, newArgs);
        interval := Point(Call(e.kind, t, e.name, e.valueIndex, newArgs));
      } else if e.kind.Abs? && |e.args| == 1 {
        interval := AbsRule(e, interval);
      } else if e.kind.Likely? && |e.args| == 1 {
        Accept(e.args[0]);
      } else if e.kind.IfThenElse? && |e.args| == 3 {
        VisitSelect(e, e.args[0], e.args[1], e.args[2]);
      } else if e.kind.Halide? {
        BoundsOfFunction((e.name, e.valueIndex), e.t);
      } else {
        interval := BoundsOfType(t);
      }
    }

    method BoundsOfFunction(key: (string, nat), t: Type)
      modifies this
      ensures interval == BoundsOfFunc(tools, key, t)
    {
      interval := BoundsOfType(t);
      if key in tools.fb {
        if tools.fb[key].HasLower() { interval := interval.(min := tools.fb[key].min); }
        if tools.fb[key].HasUpper() { interval := interval.(max := tools.fb[key].max); }
      }
    }

    method VisitLet(e: Expr)
      requires e.Let? && scope.Valid()
      modifies this, scope
      ensures scope.Valid() && scope.table == old(scope.table)
      ensures interval == BoundsOf(e, old(scope.View()), tools)
      decreases e, 0
    {
      Accept(e.value);
      var val := interval;
      var inner := Everything();
      var t := TypeOf(e.value).ElementOf();
      // an end that is substituted into the body needs no let around the result
      var minNeeded, maxNeeded := false, false;
      if val.HasLower() {
        if IsConst(val.min.e) {
          inner := inner.(min := val.min);
        } else {
          inner := inner.(min := Fin(Var(t, e.name + ".min")));
          minNeeded := true;
        }
      }
      if val.HasUpper() {
        if IsConst(val.max.e) {
          inner := inner.(max := val.max);
        } else {
          inner := inner.(max := Fin(Var(t, e.name + ".max")));
          maxNeeded := true;
        }
      }
      scope.Push(e.name, inner);
      PopUndoesPush(old(scope.table), e.name, inner);
      Accept(e.body);
      scope.Pop(e.name);
      WrapEnds(e.name, val, minNeeded, maxNeeded);
    }

    method WrapEnds(name: string, val: Interval, minNeeded: bool, maxNeeded: bool)
      requires minNeeded == (val.HasLower() && !IsConst(val.min.e))
      requires maxNeeded == (val.HasUpper() && !IsConst(val.max.e))
      modifies this
      ensures interval == WrapLets(old(interval), val, name)
    {
      var lo, hi := name + ".min", name + ".max";
      ghost var i := interval;
      if interval.HasLower() {
        if minNeeded && UsesVars(interval.min.e, {lo}) { interval := interval.(min := Fin(Let(lo, val.min.e, interval.min.e))); }
        if maxNeeded && UsesVars(interval.min.e, {hi}) { interval := interval.(min := Fin(Let(hi, val.max.e, interval.min.e))); }
      }
      assert interval == Interval(WrapEnd(i.min, val, name, i.HasLower()), i.max);
      if interval.HasUpper() {
        if minNeeded && UsesVars(interval.max.e, {lo}) { interval := interval.(max := Fin(Let(lo, val.min.e, interval.max.e))); }
        if maxNeeded && UsesVars(interval.max.e, {hi}) { interval := interval.(max := Fin(Let(hi, val.max.e, interval.max.e))); }
      }
    }
  }

  lemma PointExprsAre(ivs: seq<Interval>, es: seq<Expr>)
    requires AllPoints(ivs) && |es| == |ivs| && forall k :: 0 <= k < |ivs| ==> es[k] == ivs[k].min.e
    ensures PointExprs(ivs) == es
  {
    if ivs != [] { PointExprsAre(ivs[1..], es[1..]); }
  }

  /** bounds_of_expr_in_scope: a visitor of its own in front of the given scope. */
  method BoundsOfExprInScope(e: Expr, scope: Scope, c: Tools) returns (i: Interval)
    ensures i == BoundsOf(e, scope, c)
  {
    var b := new Bounds(scope, c);
    b.Accept(e);
    i := b.interval;
  }
}
