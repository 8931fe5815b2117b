/** The interval analysis as a whole: for every expression, scope and pair of environments
    consistent with the scope, the value lies between the two ends it returns. */
module IntervalSoundness {
  import opened IR
  import opened Intervals
  import opened BoundsRules
  import opened RuleSoundness

  // ---------- names ----------

  /** The names the analysis introduces for the ends of let values. */
  function EndNames(lets: set<string>): set<string> {
    (set n | n in lets :: n + ".min") + (set n | n in lets :: n + ".max")
  }

  /** No let is nested in the body of a let of the same name. */
  predicate NotReused(e: Expr) {
    match e
    case Imm(_, _) => true
    case Var(_, _) => true
    case Cast(_, value) => NotReused(value)
    case Bin(_, _, a, b) => NotReused(a) && NotReused(b)
    case Not(a) => NotReused(a)
    case Select(c, tv, fv) => NotReused(c) && NotReused(tv) && NotReused(fv)
    case Load(_, _, index) => NotReused(index)
    case Ramp(base, stride, _) => NotReused(base) && NotReused(stride)
    case Broadcast(value, _) => NotReused(value)
    case Call(_, _, _, _, args) => NotReusedIn(args)
    case Let(name, value, body) => NotReused(value) && NotReused(body) && name !in LetNames(body)
  }

  predicate NotReusedIn(es: seq<Expr>) { es == [] || (NotReused(es[0]) && NotReusedIn(es[1..])) }

  /** Lets are not reused, and no variable in sight is called like the end of a let.
      `used` holds the variables of the expression and those the scope refers to. */
  predicate Hygienic(e: Expr, used: set<string>) {
    NotReused(e) && EndNames(LetNames(e)) !! used && EndNames(LetNames(e)) !! LetNames(e)
  }

  predicate HygienicArgs(es: seq<Expr>, used: set<string>) {
    NotReusedIn(es) && EndNames(LetNamesOf(es)) !! used && EndNames(LetNamesOf(es)) !! LetNamesOf(es)
  }

  lemma EndNamesMonotone(m: set<string>, n: set<string>)
    requires m <= n
    ensures EndNames(m) <= EndNames(n)
  {}

  lemma EndNamesDiffer(n: string, m: string)
    ensures n + ".min" == m + ".min" ==> n == m
    ensures n + ".max" == m + ".max" ==> n == m
    ensures n + ".min" != m + ".max"
  {
    SuffixCancels(n, m, ".min");
    SuffixCancels(n, m, ".max");
    var p, q := n + ".min", m + ".max";
    assert |p| > 0 && p[|p| - 1] == 'n';
    assert |q| > 0 && q[|q| - 1] == 'x';
  }

  lemma SuffixCancels(n: string, m: string, s: string)
    ensures n + s == m + s ==> n == m
  {
    if n + s == m + s {
      assert |n| == |m|;
      assert n == (n + s)[..|n|] == (m + s)[..|m|] == m;
    }
  }

  /** What remains hygienic when the analysis enters the body of a let. */
  lemma HygienicLet(name: string, value: Expr, body: Expr, used: set<string>)
    requires Hygienic(Let(name, value, body), used)
    ensures Hygienic(value, used)
    ensures Hygienic(body, used + {name, name + ".min", name + ".max"})
    ensures {name + ".min", name + ".max"} !! used + {name}
  {
    var all := LetNames(Let(name, value, body));
    EndNamesMonotone(LetNames(value), all);
    EndNamesMonotone(LetNames(body), all);
    assert name + ".min" in EndNames(all) && name + ".max" in EndNames(all);
    forall n | n in EndNames(LetNames(body)) ensures n != name + ".min" && n != name + ".max" {
      forall m | m in LetNames(body) ensures m + ".min" != name + ".min" && m + ".max" != name + ".max"
        && m + ".min" != name + ".max" && m + ".max" != name + ".min" {
        EndNamesDiffer(m, name);
        EndNamesDiffer(name, m);
      }
    }
  }

  lemma HygienicPart(e: Expr, sub: Expr, used: set<string>)
    requires Hygienic(e, used) && NotReused(sub) && LetNames(sub) <= LetNames(e)
    ensures Hygienic(sub, used)
  {
    EndNamesMonotone(LetNames(sub), LetNames(e));
  }

  lemma HygienicArgsPart(es: seq<Expr>, used: set<string>)
    requires HygienicArgs(es, used) && es != []
    ensures Hygienic(es[0], used) && HygienicArgs(es[1..], used)
  {
    EndNamesMonotone(LetNames(es[0]), LetNamesOf(es));
    EndNamesMonotone(LetNamesOf(es[1..]), LetNamesOf(es));
  }

  // ---------- the shape of the result ----------

  /** The empty name, which no variable has, among the names an expression may mention
      means that it may call functions. */
  const AnyCall := ""

  predicate MayCall(e: Expr, names: set<string>) { AnyCall in names || Calls(e) == {} }

  /** A scalar expression over the given variables. */
  predicate Neat(e: Expr, names: set<string>) { Scalar(e) && FV(e) <= names && MayCall(e, names) }

  lemma NeatBin(op: BinOp, t: Type, a: Expr, b: Expr, names: set<string>)
    requires t.lanes == 1 && Neat(a, names) && Neat(b, names)
    ensures Neat(Bin(op, t, a, b), names)
  {}

  lemma NeatSelect(c: Expr, a: Expr, b: Expr, names: set<string>)
    requires Neat(c, names) && Neat(a, names) && Neat(b, names)
    ensures Neat(Select(c, a, b), names)
  {}

  lemma NeatCast(t: Type, e: Expr, names: set<string>)
    requires t.lanes == 1 && Neat(e, names)
    ensures Neat(Cast(t, e), names)
  {}

  lemma NeatCall(kind: CallKind, t: Type, name: string, idx: nat, e: Expr, names: set<string>)
    requires t.lanes == 1 && Neat(e, names) && !kind.Halide?
    ensures Neat(Call(kind, t, name, idx, [e]), names)
  {
    OneArg(e, names);
  }

  lemma OneArg(e: Expr, names: set<string>)
    requires Neat(e, names)
    ensures FVs([e]) <= names && ScalarArgs([e]) && CallsOf([e]) == Calls(e)
  {
    var es := [e];
    assert es[1..] == [];
    assert FVs(es) == FV(es[0]) + FVs(es[1..]) && CallsOf(es) == Calls(es[0]) + CallsOf(es[1..]);
  }

  predicate NeatBound(b: Bound, names: set<string>) { b.Fin? ==> Neat(b.e, names) }

  /** Both ends are scalar expressions over the given variables. */
  predicate Shaped(i: Interval, names: set<string>) { NeatBound(i.min, names) && NeatBound(i.max, names) }

  ghost predicate ScopeShaped(scope: Scope, names: set<string>) {
    forall n :: n in scope ==> Shaped(scope[n], names)
  }

  ghost predicate FuncsShaped(fb: FuncValueBounds, names: set<string>) {
    forall k :: k in fb ==> Shaped(fb[k], names)
  }

  lemma TypeShape(t: Type, names: set<string>)
    ensures Shaped(BoundsOfType(t), names)
  {}

  lemma AddShape(c: Tools, op: Expr, a: Interval, b: Interval, names: set<string>)
    requires op.Bin? && (op.op.Add? || op.op.Sub?) && Shaped(a, names) && Shaped(b, names)
    requires op.t.lanes == TypeOf(op.a).lanes
    ensures op.op.Add? ==> Shaped(AddRule(c, op, a, b), names)
    ensures op.op.Sub? ==> Shaped(SubRule(c, op, a, b), names)
  {
    ScalarLanes(op.a);
    TypeShape(op.t.ElementOf(), names);
  }

  lemma ExtShape(op: BinOp, a: Bound, b: Bound, names: set<string>)
    requires IsExt(op) && NeatBound(a, names) && NeatBound(b, names)
    ensures NeatBound(MakeBound(op, a, b), names)
  {}

  lemma IncludeShape(i: Interval, e: Expr, names: set<string>)
    requires Shaped(i, names) && Neat(e, names)
    ensures Shaped(Include(i, Point(e)), names)
  {
    ExtShape(Min, i.min, Fin(e), names);
    ExtShape(Max, i.max, Fin(e), names);
  }

  lemma IncludesShape(p: Expr, q: Expr, r: Expr, s: Expr, names: set<string>)
    requires Neat(p, names) && Neat(q, names) && Neat(r, names) && Neat(s, names)
    ensures Shaped(Include(Include(Include(Include(Nothing(), Point(p)), Point(q)), Point(r)), Point(s)), names)
  {
    IncludeShape(Nothing(), p, names);
    IncludeShape(Include(Nothing(), Point(p)), q, names);
    IncludeShape(Include(Include(Nothing(), Point(p)), Point(q)), r, names);
    IncludeShape(Include(Include(Include(Nothing(), Point(p)), Point(q)), Point(r)), s, names);
  }

  lemma SignShape(cmp: BinOp, t: Type, b: Expr, e1: Expr, e2: Expr, names: set<string>)
    requires t.lanes == 1 && Neat(b, names) && Neat(e1, names) && Neat(e2, names)
    ensures Shaped(BySign(cmp, t, b, e1, e2), names)
  {
    NeatBin(cmp, Bool(1), b, Imm(t, 0), names);
    NeatSelect(Bin(cmp, Bool(1), b, Imm(t, 0)), e1, e2, names);
    NeatSelect(Bin(cmp, Bool(1), b, Imm(t, 0)), e2, e1, names);
  }

  lemma CornersShape(op: BinOp, t: Type, a: Interval, b: Interval, names: set<string>)
    requires t.lanes == 1 && a.IsBounded() && b.IsBounded() && Shaped(a, names) && Shaped(b, names)
    ensures Shaped(Corners(op, t, a, b), names)
    ensures Shaped(Include(Include(Include(Include(Nothing(),
              Point(Bin(op, t, a.min.e, b.min.e))), Point(Bin(op, t, a.max.e, b.min.e))),
              Point(Bin(op, t, a.min.e, b.max.e))), Point(Bin(op, t, a.max.e, b.max.e))), names)
  {
    var p, q := Bin(op, t, a.min.e, b.min.e), Bin(op, t, a.min.e, b.max.e);
    var r, s := Bin(op, t, a.max.e, b.min.e), Bin(op, t, a.max.e, b.max.e);
    IncludesShape(p, q, r, s, names);
    IncludesShape(p, r, q, s, names);
  }

  lemma ScaledShape(op: BinOp, t: Type, b: Bound, k: Bound, has: bool, names: set<string>)
    requires t.lanes == 1 && NeatBound(b, names) && NeatBound(k, names)
    requires has ==> b.Fin? && k.Fin?
    ensures NeatBound(Scaled(op, t, b, k, has), names)
  {}

  lemma MulCoreShape(op: Expr, a: Interval, b: Interval, names: set<string>)
    requires op.Bin? && Shaped(a, names) && Shaped(b, names)
    requires op.t.lanes == TypeOf(op.a).lanes
    ensures Shaped(MulCore(op, a, b), names)
  {
    var t := op.t.ElementOf();
    if a.IsPointAt(op.a) && b.IsPointAt(op.b) {
      ScalarLanes(op.a);
    } else if b.IsPoint() {
      ScaledShape(Mul, t, a.min, b.min, a.HasLower(), names);
      ScaledShape(Mul, t, a.max, b.min, a.HasUpper(), names);
      if a.IsBounded() {
        SignShape(GE, t, b.min.e, Bin(Mul, t, a.min.e, b.min.e), Bin(Mul, t, a.max.e, b.min.e), names);
      }
    } else if a.IsBounded() && b.IsBounded() {
      CornersShape(Mul, t, a, b, names);
    }
  }

  lemma DivShape(c: Tools, op: Expr, a: Interval, b: Interval, names: set<string>)
    requires op.Bin? && Shaped(a, names) && Shaped(b, names)
    requires op.t.lanes == TypeOf(op.a).lanes
    ensures Shaped(DivRule(c, op, a, b), names)
  {
    var t := op.t.ElementOf();
    ScalarLanes(op.a);
    if b.IsBounded() {
      ScaledShape(Div, t, a.min, b.min, a.HasLower(), names);
      ScaledShape(Div, t, a.max, b.max, a.HasUpper(), names);
      if a.IsBounded() {
        CornersShape(Div, t, a, b, names);
        SignShape(GT, t, b.min.e, Bin(Div, t, a.min.e, b.min.e), Bin(Div, t, a.max.e, b.max.e), names);
      }
    }
  }

  lemma ModShape(op: Expr, a: Interval, b: Interval, names: set<string>)
    requires op.Bin? && Shaped(a, names) && Shaped(b, names)
    requires op.t.lanes == TypeOf(op.a).lanes
    ensures Shaped(ModRule(op, a, b), names)
  {
    ScalarLanes(op.a);
    if b.IsBounded() {
      var t := op.t.ElementOf();
      var u := Type(false, t.bits, 1);
      var p, q := Call(Abs, u, "abs", 0, [b.min.e]), Call(Abs, u, "abs", 0, [b.max.e]);
      NeatCall(Abs, u, "abs", 0, b.min.e, names);
      NeatCall(Abs, u, "abs", 0, b.max.e, names);
      NeatBin(Max, u, p, q, names);
      NeatCast(t, Bin(Max, u, p, q), names);
      NeatBin(Sub, t, Cast(t, Bin(Max, u, p, q)), Imm(t, 1), names);
      NeatBin(Sub, t, b.max.e, Imm(t, 1), names);
    }
  }

  lemma BinShape(c: Tools, op: Expr, a: Interval, b: Interval, names: set<string>)
    requires op.Bin? && IsArith(op.op) && Shaped(a, names) && Shaped(b, names)
    requires op.t.lanes == TypeOf(op.a).lanes
    ensures Shaped(BinRule(c, op, a, b), names)
  {
    match op.op
    case Add => AddShape(c, op, a, b, names);
    case Sub => AddShape(c, op, a, b, names);
    case Mul => MulShape(c, op, a, b, names);
    case Div => DivShape(c, op, a, b, names);
    case Mod => ModShape(op, a, b, names);
    case Min => ScalarLanes(op.a); ExtShape(Min, a.min, b.min, names); ExtShape(Min, a.max, b.max, names);
    case Max => ScalarLanes(op.a); ExtShape(Max, a.min, b.min, names); ExtShape(Max, a.max, b.max, names);
  }

  lemma MulShape(c: Tools, op: Expr, a: Interval, b: Interval, names: set<string>)
    requires op.Bin? && Shaped(a, names) && Shaped(b, names)
    requires op.t.lanes == TypeOf(op.a).lanes
    ensures Shaped(MulRule(c, op, a, b), names)
  {
    TypeShape(op.t.ElementOf(), names);
    if MulSwaps(a, b) { MulCoreShape(op, b, a, names); } else { MulCoreShape(op, a, b, names); }
  }

  lemma SimplifyShape(c: Tools, e: Expr, names: set<string>, w: World)
    requires SimplifierSound(c, w) && Neat(e, names)
    ensures Neat(c.simplify(e), names)
  {
    assert FV(c.simplify(e)) <= FV(e) && Calls(c.simplify(e)) <= Calls(e);
  }

  lemma {:induction false} FindShape(c: Tools, e: Expr, upper: bool, names: set<string>, w: World)
    requires SimplifierSound(c, w) && Neat(e, names)
    ensures var k := FindConstantBound(c, e, upper); k.Some? ==> Neat(k.value, names)
  {
    if IsConst(e) {
    } else if IsNode(Min, e) || IsNode(Max, e) {
      FindShape(c, e.a, upper, names, w);
      FindShape(c, e.b, upper, names, w);
      var a, b := FindConstantBound(c, e.a, upper), FindConstantBound(c, e.b, upper);
      if a.Some? && b.Some? { SimplifyShape(c, Bin(e.op, e.t, a.value, b.value), names, w); }
    } else if e.Cast? {
      FindShape(c, e.value, upper, names, w);
      var a := FindConstantBound(c, e.value, upper);
      if a.Some? { SimplifyShape(c, Cast(e.t, a.value), names, w); }
    }
  }

  lemma WidenedShape(a: Interval, to: Type, from: Type, names: set<string>)
    requires Shaped(a, names) && to.lanes == 1
    ensures Shaped(Widened(a, to, from), names)
  {
    TypeShape(from, names);
  }

  lemma CastShape(c: Tools, op: Expr, a: Interval, names: set<string>, w: World)
    requires op.Cast? && SimplifierSound(c, w) && Shaped(a, names) && op.t.lanes == TypeOf(op.value).lanes
    ensures Shaped(CastRule(c, op, a), names)
  {
    var to, from := op.t.ElementOf(), TypeOf(op.value).ElementOf();
    if a.IsPointAt(op.value) {
      ScalarLanes(op.value);
    } else {
      TypeShape(to, names);
      WidenedShape(a, to, from, names);
      if a.IsBounded() {
        FindShape(c, a.min.e, false, names, w);
        FindShape(c, a.max.e, true, names, w);
        var lo := FindConstantBound(c, a.min.e, false);
        var hi := FindConstantBound(c, a.max.e, true);
        if lo.Some? && hi.Some? { WidenedShape(Range(lo.value, hi.value), to, from, names); }
      }
    }
  }

  lemma SelectShape(cond: Expr, scoped: set<string>, a: Interval, b: Interval, names: set<string>)
    requires a.IsBounded() && b.IsBounded() && Shaped(a, names) && Shaped(b, names)
    requires TypeOf(cond).lanes == 1 && !UsesVars(cond, scoped) ==> Neat(cond, names)
    ensures Shaped(SelectRule(cond, scoped, a, b), names)
  {
    ExtShape(Min, a.min, b.min, names);
    ExtShape(Max, a.max, b.max, names);
  }

  lemma RampShape(c: Tools, op: Expr, base: Interval, stride: Interval, names: set<string>)
    requires op.Ramp? && TypeOf(op.base).lanes == 1 && Shaped(base, names) && Shaped(stride, names)
    ensures Shaped(RampRule(c, op, base, stride), names)
  {
    var t := TypeOf(op.base);
    var lane := Range(Imm(t, 0), Imm(t, op.lanes - 1));
    MulShape(c, LaneProduct(op), lane, stride, names);
    AddShape(c, Bin(Add, t, op.base, LaneProduct(op)), base, MulRule(c, LaneProduct(op), lane, stride), names);
  }

  lemma AbsShape(op: Expr, a: Interval, names: set<string>)
    requires op.Call? && |op.args| == 1 && Shaped(a, names)
    ensures Shaped(AbsRule(op, a), names)
  {
    if a.IsBounded() {
      var t, arg := op.t.ElementOf(), TypeOf(op.args[0]).ElementOf();
      var p, q := Call(Abs, t, op.name, op.valueIndex, [a.min.e]), Call(Abs, t, op.name, op.valueIndex, [a.max.e]);
      NeatCall(Abs, t, op.name, op.valueIndex, a.min.e, names);
      NeatCall(Abs, t, op.name, op.valueIndex, a.max.e, names);
      NeatBin(Max, t, p, q, names);
      var neg := Bin(Sub, arg, Imm(arg, 0), a.min.e);
      NeatBin(Sub, arg, Imm(arg, 0), a.min.e, names);
      NeatCast(t, neg, names);
      NeatCast(t, a.max.e, names);
      NeatBin(Max, t, Cast(t, neg), Cast(t, a.max.e), names);
    }
  }

  lemma PointsShape(ivs: seq<Interval>, names: set<string>)
    requires AllPoints(ivs) && forall i :: 0 <= i < |ivs| ==> Shaped(ivs[i], names)
    ensures ScalarArgs(PointExprs(ivs)) && FVs(PointExprs(ivs)) <= names
    ensures AnyCall in names || CallsOf(PointExprs(ivs)) == {}
  {
    if ivs != [] {
      PointsShape(ivs[1..], names);
      assert PointExprs(ivs)[1..] == PointExprs(ivs[1..]);
    }
  }

  /** The let is added if the end mentions the name. */
  predicate Wraps(value: Bound, needed: bool) { needed && value.Fin? && !IsConst(value.e) }

  lemma WrapLetShape(b: Bound, name: string, value: Bound, needed: bool, names: set<string>)
    requires NeatBound(b, if Wraps(value, needed) then names + {name} else names)
    requires NeatBound(value, names) && name != AnyCall
    ensures NeatBound(WrapLet(b, name, value, needed), names)
  {
    if b.Fin? && !UsesVars(b.e, {name}) { UnusedIsNotFree(b.e, {name}); }
  }

  lemma {:induction false} ConstClosed(e: Expr)
    requires IsConst(e)
    ensures FV(e) == {} && Calls(e) == {}
  {
    match e
    case Imm(_, _) =>
    case Cast(_, value) => ConstClosed(value);
    case Ramp(base, stride, _) => ConstClosed(base); ConstClosed(stride);
    case Broadcast(value, _) => ConstClosed(value);
  }

  // ---------- the theorem ----------

  /** The operands of every node meet the conditions under which its rule is sound. */
  predicate Regular(e: Expr, scope: Scope, c: Tools)
    decreases e
  {
    match e
    case Imm(_, _) => true
    case Var(_, _) => true
    case Cast(_, value) => Regular(value, scope, c) && CastRegular(c, e, BoundsOf(value, scope, c))
    case Bin(op, _, a, b) =>
      IsArith(op) ==>
        Regular(a, scope, c) && Regular(b, scope, c) && BinRegular(c, e, BoundsOf(a, scope, c), BoundsOf(b, scope, c))
    case Not(_) => true
    case Select(_, tv, fv) =>
      && Regular(tv, scope, c)
      && (BoundsOf(tv, scope, c).IsBounded() ==> Regular(fv, scope, c))
      && SelectRegular(BoundsOf(tv, scope, c), BoundsOf(fv, scope, c))
    case Load(_, _, index) => Regular(index, scope, c)
    case Ramp(base, stride, _) =>
      && Regular(base, scope, c) && Regular(stride, scope, c)
      && RampRegular(c, e, BoundsOf(base, scope, c), BoundsOf(stride, scope, c))
    case Broadcast(value, _) => Regular(value, scope, c)
    case Call(kind, _, _, _, args) =>
      if kind.IfThenElse? && |args| == 3 then
        && Regular(args[1], scope, c)
        && (BoundsOf(args[1], scope, c).IsBounded() ==> Regular(args[2], scope, c))
        && SelectRegular(BoundsOf(args[1], scope, c), BoundsOf(args[2], scope, c))
      else RegularArgs(args, scope, c)
    case Let(name, value, body) =>
      && Regular(value, scope, c)
      && Regular(body, scope[name := LetInterval(BoundsOf(value, scope, c), TypeOf(value).ElementOf(), name)], c)
  }

  predicate RegularArgs(es: seq<Expr>, scope: Scope, c: Tools)
    decreases es
  {
    es == [] || (Regular(es[0], scope, c) && RegularArgs(es[1..], scope, c))
  }

  /** A condition that the analysis keeps, because no variable of the scope changes it, calls
      no function. */
  predicate KeptQuietly(cond: Expr, keys: set<string>) { TypeOf(cond).lanes != 1 || UsesVars(cond, keys) || Calls(cond) == {} }

  /** All conditions kept in the bounds of the expression are such. */
  predicate Quiet(e: Expr, keys: set<string>) {
    match e
    case Imm(_, _) => true
    case Var(_, _) => true
    case Cast(_, value) => Quiet(value, keys)
    case Bin(op, _, a, b) => IsArith(op) ==> Quiet(a, keys) && Quiet(b, keys)
    case Not(_) => true
    case Select(cond, tv, fv) => KeptQuietly(cond, keys) && Quiet(tv, keys) && Quiet(fv, keys)
    case Load(_, _, index) => Quiet(index, keys)
    case Ramp(base, stride, _) => Quiet(base, keys) && Quiet(stride, keys)
    case Broadcast(value, _) => Quiet(value, keys)
    case Call(kind, _, _, _, args) => QuietArgs(args, keys) && (kind.IfThenElse? && |args| == 3 ==> KeptQuietly(args[0], keys))
    case Let(name, value, body) => Quiet(value, keys) && Quiet(body, keys + {name})
  }

  predicate QuietArgs(es: seq<Expr>, keys: set<string>) { es == [] || (Quiet(es[0], keys) && QuietArgs(es[1..], keys)) }

  lemma QuietArg(es: seq<Expr>, keys: set<string>, i: nat)
    requires QuietArgs(es, keys) && i < |es|
    ensures Quiet(es[i], keys)
  {
    if i > 0 { QuietArg(es[1..], keys, i - 1); }
  }

  /** Needed only where the names say that bounds may not call functions. */
  predicate Settled(e: Expr, keys: set<string>, names: set<string>) { AnyCall in names || Quiet(e, keys) }
  predicate SettledCond(cond: Expr, keys: set<string>,
      names: set<string>) { AnyCall in names || KeptQuietly(cond, keys) }

  lemma SettledArms(e: Expr, keys: set<string>, names: set<string>)
    requires e.Call? && e.kind.IfThenElse? && |e.args| == 3 && Settled(e, keys, names)
    ensures SettledCond(e.args[0], keys, names) && Settled(e.args[1], keys, names) && Settled(e.args[2], keys, names)
  {
    if AnyCall !in names {
      QuietArg(e.args, keys, 1);
      QuietArg(e.args, keys, 2);
    }
  }

  /** The run divides no remainder by zero, and is in a lane that every ramp has. */
  predicate Defined(e: Expr, w: World, env: Env)
    decreases e
  {
    match e
    case Imm(_, _) => true
    case Var(_, _) => true
    case Cast(_, value) => Defined(value, w, env)
    case Bin(op, _, a, b) => Defined(a, w, env) && Defined(b, w, env) && (op.Mod? ==> Eval(b, w, env) != 0)
    case Not(a) => Defined(a, w, env)
    case Select(c, tv, fv) => Defined(c, w, env) && Defined(tv, w, env) && Defined(fv, w, env)
    case Load(_, _, index) => Defined(index, w, env)
    case Ramp(base, stride, lanes) => Defined(base, w, env) && Defined(stride, w, env) && 0 <= env.lane < lanes
    case Broadcast(value, _) => Defined(value, w, env)
    case Call(_, _, _, _, args) => DefinedArgs(args, w, env)
    case Let(name, value, body) => Defined(value, w, env) && Defined(body, w, env.Set(name, Eval(value, w, env)))
  }

  predicate DefinedArgs(es: seq<Expr>, w: World, env: Env)
    decreases es
  {
    es == [] || (Defined(es[0], w, env) && DefinedArgs(es[1..], w, env))
  }

  /** Every value a function takes is of its type and within its recorded bounds. */
  ghost predicate FuncsSound(fb: FuncValueBounds, g: Context, w: World, penv: Env) {
    forall k :: k in fb ==> FuncWithin(fb[k], k, g, w, penv)
  }

  ghost predicate FuncWithin(i: Interval, k: (string, nat), g: Context, w: World, penv: Env) {
    && k in g.funcs && g.funcs[k].lanes == 1
    && forall vs :: var v := w.call(Halide, k.0, k.1, vs); InRange(g.funcs[k], v) && Brackets(i, g.funcs[k], w, penv, v)
  }

  /** The variables of the scope lie in their intervals, whose ends are read in penv; the
      other scalar variables have the same value in both environments. */
  ghost predicate Consistent(g: Context, scope: Scope, w: World, penv: Env, env: Env) {
    forall n :: n in g.vars ==>
      && (n in scope ==>
            InRange(g.vars[n], env.Get(n)) && Brackets(scope[n], g.vars[n].ElementOf(), w, penv, env.Get(n)))
      && (n !in scope && g.vars[n].lanes == 1 ==> env.Get(n) == penv.Get(n))
  }

  /** Everything a run of the analysis starts from. */
  ghost predicate Setting(scope: Scope, c: Tools, g: Context, names: set<string>, w: World, penv: Env, env: Env) {
    && ToolsSound(c, w)
    && ScopeShaped(scope, names) && FuncsShaped(c.fb, names)
    && FuncsSound(c.fb, g, w, penv)
    && Consistent(g, scope, w, penv, env)
  }

  /** What the result may mention: the parameters of the expression, and what the scope
      and the function bounds mention. */
  function ResultNames(scope: Scope, g: Context, names: set<string>): set<string> {
    (g.vars.Keys - scope.Keys) + names
  }

  ghost predicate Sound(i: Interval, e: Expr, scope: Scope, g: Context, names: set<string>, w: World, penv: Env,
      env: Env) {
    Brackets(i, TypeOf(e).ElementOf(), w, penv, Eval(e, w, env)) && Shaped(i, ResultNames(scope, g, names))
  }

  /** What the theorem asks of an expression: it is typed, its nodes meet the conditions of
      their rules, its run is defined, and its lets are named apart. */
  ghost predicate Ready(e: Expr, scope: Scope, c: Tools, g: Context, names: set<string>, w: World, penv: Env,
      env: Env) {
    && WellTyped(e, g) && Regular(e, scope, c) && Defined(e, w, env)
    && Hygienic(e, g.vars.Keys + names) && Settled(e, scope.Keys, names)
    && Setting(scope, c, g, names, w, penv, env)
  }

  /** The analysis is sound. */
  lemma {:induction false} BoundsSound(e: Expr, scope: Scope, c: Tools, g: Context, names: set<string>, w: World,
      penv: Env, env: Env)
    requires Ready(e, scope, c, g, names, w, penv, env)
    ensures Sound(BoundsOf(e, scope, c), e, scope, g, names, w, penv, env)
    decreases e, 2
  {
    match e
    case Imm(t, v) => assert Eval(e, w, penv) == v;
    case Var(_, _) => VarSound(e, scope, c, g, names, w, penv, env);
    case Cast(_, value) =>
      BoundsSound(value, scope, c, g, names, w, penv, env);
      CastCase(e, scope, c, g, names, w, penv, env);
    case Bin(_, _, _, _) => BinCase(e, scope, c, g, names, w, penv, env);
    case Not(_) => TypeCase(e, scope, c, g, names, w, penv, env);
    case Select(cond, tv, fv) => SelectCase(e, scope, c, g, names, w, penv, env);
    case Load(_, _, index) =>
      BoundsSound(index, scope, c, g, names, w, penv, env);
      LoadCase(e, scope, c, g, names, w, penv, env);
    case Ramp(base, stride, _) =>
      OperandsSound(e, base, stride, scope, c, g, names, w, penv, env);
      RampCase(e, scope, c, g, names, w, penv, env);
    case Broadcast(value, _) =>
      BoundsSound(value, scope, c, g, names, w, penv, env);
      assert TypeOf(value).ElementOf() == TypeOf(e).ElementOf();
    case Call(_, _, _, _, _) => CallCase(e, scope, c, g, names, w, penv, env);
    case Let(_, _, _) => LetCase(e, scope, c, g, names, w, penv, env);
  }

  lemma {:induction false} SelectCase(e: Expr, scope: Scope, c: Tools, g: Context, names: set<string>, w: World,
      penv: Env, env: Env)
    requires e.Select?
    requires Ready(e, scope, c, g, names, w, penv, env)
    ensures Sound(BoundsOf(e, scope, c), e, scope, g, names, w, penv, env)
    decreases e, 1
  {
    HygienicPart(e, e.tv, g.vars.Keys + names);
    HygienicPart(e, e.fv, g.vars.Keys + names);
    ArmsCase(e, e.cond, e.tv, e.fv, scope, c, g, names, w, penv, env);
  }

  lemma {:induction false} OperandsSound(e: Expr, a: Expr, b: Expr, scope: Scope, c: Tools, g: Context,
      names: set<string>, w: World, penv: Env, env: Env)
    requires a < e && b < e && NotReused(a) && NotReused(b) && LetNames(a) <= LetNames(e) && LetNames(b) <= LetNames(e)
    requires WellTyped(a, g) && Regular(a, scope, c) && Defined(a, w, env) && Settled(a, scope.Keys, names)
    requires WellTyped(b, g) && Regular(b, scope, c) && Defined(b, w, env) && Settled(b, scope.Keys, names)
    requires Hygienic(e, g.vars.Keys + names) && Setting(scope, c, g, names, w, penv, env)
    ensures Sound(BoundsOf(a, scope, c), a, scope, g, names, w, penv, env)
    ensures Sound(BoundsOf(b, scope, c), b, scope, g, names, w, penv, env)
    decreases e, 0
  {
    HygienicPart(e, a, g.vars.Keys + names);
    HygienicPart(e, b, g.vars.Keys + names);
    BoundsSound(a, scope, c, g, names, w, penv, env);
    BoundsSound(b, scope, c, g, names, w, penv, env);
  }

  lemma {:induction false} BinCase(e: Expr, scope: Scope, c: Tools, g: Context, names: set<string>, w: World,
      penv: Env, env: Env)
    requires e.Bin?
    requires Ready(e, scope, c, g, names, w, penv, env)
    ensures Sound(BoundsOf(e, scope, c), e, scope, g, names, w, penv, env)
    decreases e, 1
  {
    if IsArith(e.op) {
      OperandsSound(e, e.a, e.b, scope, c, g, names, w, penv, env);
      ArithCase(e, scope, c, g, names, w, penv, env);
    } else {
      TypeCase(e, scope, c, g, names, w, penv, env);
    }
  }

  lemma {:induction false} CallCase(e: Expr, scope: Scope, c: Tools, g: Context, names: set<string>, w: World,
      penv: Env, env: Env)
    requires e.Call?
    requires Ready(e, scope, c, g, names, w, penv, env)
    ensures Sound(BoundsOf(e, scope, c), e, scope, g, names, w, penv, env)
    decreases e, 1
  {
    var args := e.args;
    if e.kind.IfThenElse? && |args| == 3 {
      IfCase(e, scope, c, g, names, w, penv, env);
    } else {
      ArgsSound(args, scope, c, g, names, e.t.lanes, w, penv, env);
      CallSound(e, scope, c, g, names, w, penv, env);
    }
  }

  lemma {:induction false} IfCase(e: Expr, scope: Scope, c: Tools, g: Context, names: set<string>, w: World,
      penv: Env, env: Env)
    requires e.Call? && e.kind.IfThenElse? && |e.args| == 3
    requires Ready(e, scope, c, g, names, w, penv, env)
    ensures Sound(BoundsOf(e, scope, c), e, scope, g, names, w, penv, env)
    decreases e, 1, 0
  {
    CallArms(e, g.vars.Keys + names, g, w, env);
    SettledArms(e, scope.Keys, names);
    ArmsCase(e, e.args[0], e.args[1], e.args[2], scope, c, g, names, w, penv, env);
  }

  lemma {:induction false} LetCase(e: Expr, scope: Scope, c: Tools, g: Context, names: set<string>, w: World,
      penv: Env, env: Env)
    requires e.Let?
    requires Ready(e, scope, c, g, names, w, penv, env)
    ensures Sound(BoundsOf(e, scope, c), e, scope, g, names, w, penv, env)
    decreases e, 0
  {
    var name, value, body := e.name, e.value, e.body;
    HygienicLet(name, value, body, g.vars.Keys + names);
    BoundsSound(value, scope, c, g, names, w, penv, env);
    TypeSound(value, g, w, env);
    var inner := LetInterval(BoundsOf(value, scope, c), TypeOf(value).ElementOf(), name);
    var names' := names + IntervalFV(inner);
    LetSetting(name, value, scope, c, g, names, w, penv, env);
    LetBodyApart(name, value, body, scope, inner, g, names);
    BoundsSound(body, scope[name := inner], c, g.Bind(name, TypeOf(value)), names', w,
                LetEnv(BoundsOf(value, scope, c), name, w, penv), env.Set(name, Eval(value, w, env)));
    LetSound(name, value, body, scope, c, g, names, w, penv, env);
  }

  lemma LetBodyApart(name: string, value: Expr, body: Expr, scope: Scope, inner: Interval, g: Context,
      names: set<string>)
    requires Hygienic(body, (g.vars.Keys + names) + {name, name + ".min", name + ".max"})
    requires IntervalFV(inner) <= {name + ".min", name + ".max"} && Settled(Let(name, value, body), scope.Keys, names)
    ensures Hygienic(body, g.Bind(name, TypeOf(value)).vars.Keys + (names + IntervalFV(inner)))
    ensures Settled(body, scope[name := inner].Keys, names + IntervalFV(inner))
  {
    assert scope[name := inner].Keys == scope.Keys + {name};
    HygienicLess(body, (g.vars.Keys + names) + {name, name + ".min", name + ".max"},
                 g.Bind(name, TypeOf(value)).vars.Keys + (names + IntervalFV(inner)));
  }

  /** A select, or the intrinsic that evaluates only one of its arms. */
  lemma {:induction false} ArmsCase(e: Expr, cond: Expr, tv: Expr, fv: Expr, scope: Scope, c: Tools, g: Context,
      names: set<string>, w: World, penv: Env, env: Env)
    requires tv < e && fv < e && TypeOf(tv) == TypeOf(fv)
    requires WellTyped(cond, g) && WellTyped(tv, g) && WellTyped(fv, g)
    requires Regular(tv, scope, c) && (BoundsOf(tv, scope, c).IsBounded() ==> Regular(fv, scope, c))
    requires SelectRegular(BoundsOf(tv, scope, c), BoundsOf(fv, scope, c))
    requires SettledCond(cond, scope.Keys, names) && Settled(tv, scope.Keys, names) && Settled(fv, scope.Keys, names)
    requires Defined(tv, w, env) && Defined(fv, w, env)
    requires Hygienic(tv, g.vars.Keys + names) && Hygienic(fv, g.vars.Keys + names)
    requires Setting(scope, c, g, names, w, penv, env)
    ensures var v := if Eval(cond, w, env) != 0 then Eval(tv, w, env) else Eval(fv, w, env);
            Brackets(ArmsBounds(cond, tv, fv, scope, c), TypeOf(tv).ElementOf(), w, penv, v)
    ensures Shaped(ArmsBounds(cond, tv, fv, scope, c), ResultNames(scope, g, names))
    decreases e, 0
  {
    BoundsSound(tv, scope, c, g, names, w, penv, env);
    if BoundsOf(tv, scope, c).IsBounded() { BoundsSound(fv, scope, c, g, names, w, penv, env); }
    ArmsSound(cond, tv, fv, scope, c, g, names, w, penv, env);
  }

  lemma HygienicLess(e: Expr, used: set<string>, used': set<string>)
    requires Hygienic(e, used) && used' <= used
    ensures Hygienic(e, used')
  {}

  // ---------- single nodes ----------

  lemma TypeCase(e: Expr, scope: Scope, c: Tools, g: Context, names: set<string>, w: World, penv: Env, env: Env)
    requires WellTyped(e, g) && BoundsOf(e, scope, c) == BoundsOfType(TypeOf(e))
    ensures Sound(BoundsOf(e, scope, c), e, scope, g, names, w, penv, env)
  {
    TypeSound(e, g, w, env);
    TypeBounds(TypeOf(e), w, penv, Eval(e, w, env));
    TypeShape(TypeOf(e), ResultNames(scope, g, names));
  }

  lemma CastCase(e: Expr, scope: Scope, c: Tools, g: Context, names: set<string>, w: World, penv: Env, env: Env)
    requires e.Cast? && WellTyped(e, g) && ToolsSound(c, w) && CastRegular(c, e, BoundsOf(e.value, scope, c))
    requires Sound(BoundsOf(e.value, scope, c), e.value, scope, g, names, w, penv, env)
    ensures Sound(BoundsOf(e, scope, c), e, scope, g, names, w, penv, env)
  {
    TypeSound(e.value, g, w, env);
    CastSound(c, e, BoundsOf(e.value, scope, c), w, penv, Eval(e.value, w, env));
    CastShape(c, e, BoundsOf(e.value, scope, c), ResultNames(scope, g, names), w);
  }

  lemma ArithCase(e: Expr, scope: Scope, c: Tools, g: Context, names: set<string>, w: World, penv: Env, env: Env)
    requires e.Bin? && IsArith(e.op) && WellTyped(e, g) && ToolsSound(c, w)
    requires BinRegular(c, e, BoundsOf(e.a, scope, c), BoundsOf(e.b, scope, c)) && Defined(e, w, env)
    requires Sound(BoundsOf(e.a, scope, c), e.a, scope, g, names, w, penv, env)
    requires Sound(BoundsOf(e.b, scope, c), e.b, scope, g, names, w, penv, env)
    ensures Sound(BoundsOf(e, scope, c), e, scope, g, names, w, penv, env)
  {
    TypeSound(e.a, g, w, env);
    TypeSound(e.b, g, w, env);
    BinSound(c, e, BoundsOf(e.a, scope, c), BoundsOf(e.b, scope, c), w, penv, env);
    BinShape(c, e, BoundsOf(e.a, scope, c), BoundsOf(e.b, scope, c), ResultNames(scope, g, names));
  }

  lemma LoadCase(e: Expr, scope: Scope, c: Tools, g: Context, names: set<string>, w: World, penv: Env, env: Env)
    requires e.Load? && Sound(BoundsOf(e.index, scope, c), e.index, scope, g, names, w, penv, env)
    ensures Sound(BoundsOf(e, scope, c), e, scope, g, names, w, penv, env)
  {
    LoadSound(e, BoundsOf(e.index, scope, c), w, penv, env);
    TypeShape(e.t, ResultNames(scope, g, names));
  }

  lemma RampUnfolds(e: Expr, scope: Scope, c: Tools, g: Context, w: World, env: Env)
    requires e.Ramp? && WellTyped(e, g)
    ensures TypeOf(e.base).ElementOf() == TypeOf(e.base) == TypeOf(e).ElementOf()
    ensures var t := TypeOf(e.base);
            Eval(e, w, env) == RampValue(t, Eval(e.base, w, env), env.lane, Eval(e.stride, w, env))
    ensures BoundsOf(e, scope, c) == RampRule(c, e, BoundsOf(e.base, scope, c), BoundsOf(e.stride, scope, c))
  {}

  lemma RampCase(e: Expr, scope: Scope, c: Tools, g: Context, names: set<string>, w: World, penv: Env, env: Env)
    requires e.Ramp? && WellTyped(e, g) && ToolsSound(c, w) && Defined(e, w, env)
    requires RampRegular(c, e, BoundsOf(e.base, scope, c), BoundsOf(e.stride, scope, c))
    requires Sound(BoundsOf(e.base, scope, c), e.base, scope, g, names, w, penv, env)
    requires Sound(BoundsOf(e.stride, scope, c), e.stride, scope, g, names, w, penv, env)
    ensures Sound(BoundsOf(e, scope, c), e, scope, g, names, w, penv, env)
  {
    TypeSound(e.base, g, w, env);
    TypeSound(e.stride, g, w, env);
    RampUnfolds(e, scope, c, g, w, env);
    RampSound(c, e, BoundsOf(e.base, scope, c), BoundsOf(e.stride, scope, c), w, penv,
              env.lane, Eval(e.base, w, env), Eval(e.stride, w, env));
    RampShape(c, e, BoundsOf(e.base, scope, c), BoundsOf(e.stride, scope, c), ResultNames(scope, g, names));
  }

  // ---------- calls ----------

  lemma CallArms(e: Expr, used: set<string>, g: Context, w: World, env: Env)
    requires e.Call? && e.kind.IfThenElse? && |e.args| == 3
    requires WellTyped(e, g) && Hygienic(e, used) && Defined(e, w, env)
    ensures forall i :: 0 <= i < 3 ==> WellTyped(e.args[i], g) && Hygienic(e.args[i], used) && Defined(e.args[i], w, env)
    ensures Eval(e, w, env) == if Eval(e.args[0], w, env) != 0 then Eval(e.args[1], w, env) else Eval(e.args[2], w, env)
  {
    HygienicArgsPart(e.args, used);
    HygienicArgsPart(e.args[1..], used);
    HygienicArgsPart(e.args[1..][1..], used);
    assert e.args[1..][0] == e.args[1] && e.args[1..][1..][0] == e.args[2];
    DefinedArg(e.args, w, env, 0);
    DefinedArg(e.args, w, env, 1);
    DefinedArg(e.args, w, env, 2);
    WellTypedArg(e.args, g, e.t.lanes, 0);
    WellTypedArg(e.args, g, e.t.lanes, 1);
    WellTypedArg(e.args, g, e.t.lanes, 2);
  }

  lemma DefinedArg(es: seq<Expr>, w: World, env: Env, i: nat)
    requires DefinedArgs(es, w, env) && i < |es|
    ensures Defined(es[i], w, env)
  {
    if i > 0 { DefinedArg(es[1..], w, env, i - 1); }
  }

  lemma PointArgs(es: seq<Expr>, ivs: seq<Interval>, w: World, penv: Env, env: Env)
    requires |es| == |ivs| && AllPoints(ivs)
    requires forall i :: 0 <= i < |es| ==> Contains(ivs[i], w, penv, Eval(es[i], w, env))
    ensures EvalArgs(PointExprs(ivs), w, penv) == EvalArgs(es, w, env)
  {
    if es != [] {
      PointArgs(es[1..], ivs[1..], w, penv, env);
      assert PointExprs(ivs)[1..] == PointExprs(ivs[1..]);
    }
  }

  lemma CallSound(e: Expr, scope: Scope, c: Tools, g: Context, names: set<string>, w: World, penv: Env, env: Env)
    requires e.Call? && WellTyped(e, g) && !(e.kind.IfThenElse? && |e.args| == 3)
    requires Setting(scope, c, g, names, w, penv, env)
    requires forall i :: 0 <= i < |e.args| ==> Sound(BoundsOf(e.args[i], scope, c), e.args[i], scope, g, names, w, penv, env)
    ensures Sound(BoundsOf(e, scope, c), e, scope, g, names, w, penv, env)
  {
    if (e.kind.PureExtern? || e.kind.Image?) && AllPoints(BoundsOfArgs(e.args, scope, c)) {
      PointCall(e, scope, c, g, names, w, penv, env);
    } else if e.kind.Abs? && |e.args| == 1 {
      WellTypedArg(e.args, g, e.t.lanes, 0);
      TypeSound(e.args[0], g, w, env);
      AbsOk(e, BoundsOf(e.args[0], scope, c), w, penv, Eval(e.args[0], w, env));
      AbsShape(e, BoundsOf(e.args[0], scope, c), ResultNames(scope, g, names));
    } else if e.kind.Likely? && |e.args| == 1 {
    } else if e.kind.Halide? {
      HalideCall(e, scope, c, g, names, w, penv, env);
    } else {
      TypeCase(e, scope, c, g, names, w, penv, env);
    }
  }

  lemma PointCall(e: Expr, scope: Scope, c: Tools, g: Context, names: set<string>, w: World, penv: Env, env: Env)
    requires e.Call? && (e.kind.PureExtern? || e.kind.Image?) && AllPoints(BoundsOfArgs(e.args, scope, c))
    requires forall i :: 0 <= i < |e.args| ==> Sound(BoundsOf(e.args[i], scope, c), e.args[i], scope, g, names, w, penv, env)
    ensures Sound(BoundsOf(e, scope, c), e, scope, g, names, w, penv, env)
  {
    var ivs := BoundsOfArgs(e.args, scope, c);
    PointArgs(e.args, ivs, w, penv, env);
    PointsShape(ivs, ResultNames(scope, g, names));
    ElementRange(e.t, w.call(e.kind, e.name, e.valueIndex, EvalArgs(e.args, w, env)));
    var r := Call(e.kind, e.t.ElementOf(), e.name, e.valueIndex, PointExprs(ivs));
    assert Eval(r, w, penv) == Eval(e, w, env);
    assert Neat(r, ResultNames(scope, g, names));
  }

  lemma HalideCall(e: Expr, scope: Scope, c: Tools, g: Context, names: set<string>, w: World, penv: Env, env: Env)
    requires e.Call? && e.kind.Halide? && WellTyped(e, g) && Setting(scope, c, g, names, w, penv, env)
    ensures Sound(BoundsOf(e, scope, c), e, scope, g, names, w, penv, env)
  {
    var key := (e.name, e.valueIndex);
    var v := w.call(Halide, key.0, key.1, EvalArgs(e.args, w, env));
    if key in c.fb {
      assert FuncWithin(c.fb[key], key, g, w, penv);
      ElementRange(e.t, v);
    }
    FuncSound(c, key, e.t, w, penv, Wrap(e.t, v));
    TypeShape(e.t, ResultNames(scope, g, names));
  }

  // ---------- lets ----------

  /** The parameters, with the ends of the let's value added under the names given to them. */
  function LetEnv(val: Interval, name: string, w: World, penv: Env): Env {
    var e1 := if Wraps(val.min, val.HasLower()) then penv.Set(name + ".min", Eval(val.min.e, w, penv)) else penv;
    if Wraps(val.max, val.HasUpper()) then e1.Set(name + ".max", Eval(val.max.e, w, penv)) else e1
  }

  lemma LetEnvGet(val: Interval, name: string, w: World, penv: Env)
    ensures var p := LetEnv(val, name, w, penv);
            && (forall n :: n != name + ".min" && n != name + ".max" ==> p.Get(n) == penv.Get(n))
            && (Wraps(val.min, val.HasLower()) ==> p.Get(name + ".min") == Eval(val.min.e, w, penv))
            && (Wraps(val.max, val.HasUpper()) ==> p.Get(name + ".max") == Eval(val.max.e, w, penv))
  {
    EndNamesDiffer(name, name);
  }

  lemma NeatAgree(e: Expr, names: set<string>, w: World, env: Env, env': Env)
    requires Neat(e, names) && forall n :: n in names ==> env.Get(n) == env'.Get(n)
    ensures Eval(e, w, env) == Eval(e, w, env')
  {
    EvalAgree(e, w, env, env');
  }

  lemma BracketsAgree(i: Interval, names: set<string>, t: Type, w: World, env: Env, env': Env, v: int)
    requires Shaped(i, names) && Brackets(i, t, w, env, v)
    requires forall n :: n in names ==> env.Get(n) == env'.Get(n)
    ensures Brackets(i, t, w, env', v)
  {
    if i.min.Fin? { NeatAgree(i.min.e, names, w, env, env'); }
    if i.max.Fin? { NeatAgree(i.max.e, names, w, env, env'); }
  }

  lemma ConstAgrees(e: Expr, w: World, env: Env, env': Env)
    requires IsConst(e) && Scalar(e)
    ensures Eval(e, w, env) == Eval(e, w, env')
  {
    ConstClosed(e);
    EvalAgree(e, w, env, env');
  }

  /** The interval pushed for the let variable contains its value. */
  lemma LetIntervalSound(val: Interval, t: Type, name: string, names: set<string>, w: World, penv: Env, v: int)
    requires Brackets(val, t, w, penv, v) && Shaped(val, names) && t.lanes == 1
    ensures Brackets(LetInterval(val, t, name), t, w, LetEnv(val, name, w, penv), v)
    ensures Shaped(LetInterval(val, t, name), IntervalFV(LetInterval(val, t, name)))
    ensures name + ".min" in IntervalFV(LetInterval(val, t, name)) ==> Wraps(val.min, val.HasLower())
    ensures name + ".max" in IntervalFV(LetInterval(val, t, name)) ==> Wraps(val.max, val.HasUpper())
    ensures IntervalFV(LetInterval(val, t, name)) <= {name + ".min", name + ".max"}
  {
    EndNamesDiffer(name, name);
    LetEnvGet(val, name, w, penv);
    var p := LetEnv(val, name, w, penv);
    if val.min.Fin? && IsConst(val.min.e) { ConstAgrees(val.min.e, w, penv, p); ConstClosed(val.min.e); }
    if val.max.Fin? && IsConst(val.max.e) { ConstAgrees(val.max.e, w, penv, p); ConstClosed(val.max.e); }
  }

  /** The body of a let is analysed in a setting as good as the let's own. */
  lemma LetSetting(name: string, value: Expr, scope: Scope, c: Tools, g: Context, names: set<string>, w: World,
      penv: Env, env: Env)
    requires Setting(scope, c, g, names, w, penv, env)
    requires Sound(BoundsOf(value, scope, c), value, scope, g, names, w, penv, env)
    requires InRange(TypeOf(value), Eval(value, w, env))
    requires {name + ".min", name + ".max"} !! g.vars.Keys + names + {name}
    ensures var val, t := BoundsOf(value, scope, c), TypeOf(value);
            var inner := LetInterval(val, t.ElementOf(), name);
            && Setting(scope[name := inner], c, g.Bind(name, t), names + IntervalFV(inner), w,
                    LetEnv(val, name, w, penv), env.Set(name, Eval(value, w, env)))
            && IntervalFV(inner) <= {name + ".min", name + ".max"}
  {
    var val, t := BoundsOf(value, scope, c), TypeOf(value);
    var inner := LetInterval(val, t.ElementOf(), name);
    var scope', g' := scope[name := inner], g.Bind(name, t);
    var penv', env' := LetEnv(val, name, w, penv), env.Set(name, Eval(value, w, env));
    LetIntervalSound(val, t.ElementOf(), name, ResultNames(scope, g, names), w, penv, Eval(value, w, env));
    LetEnvGet(val, name, w, penv);
    FuncsKept(c.fb, g, names, w, penv, penv');
    LetConsistent(name, inner, Eval(value, w, env), t, scope, g, names, w, penv, penv', env);
    LetShapes(scope, c.fb, name, inner, names);
  }

  lemma LetConsistent(name: string, inner: Interval, v: int, t: Type, scope: Scope, g: Context, names: set<string>,
      w: World, penv: Env, penv': Env, env: Env)
    requires Consistent(g, scope, w, penv, env) && ScopeShaped(scope, names)
    requires InRange(t, v) && Brackets(inner, t.ElementOf(), w, penv', v)
    requires forall n :: n in names + g.vars.Keys ==> penv'.Get(n) == penv.Get(n)
    ensures Consistent(g.Bind(name, t), scope[name := inner], w, penv', env.Set(name, v))
  {
    forall n | n in g.vars && n in scope && n != name
      ensures Brackets(scope[n], g.vars[n].ElementOf(), w, penv', env.Get(n)) {
      BracketsAgree(scope[n], names, g.vars[n].ElementOf(), w, penv, penv', env.Get(n));
    }
  }

  lemma FuncsKept(fb: FuncValueBounds, g: Context, names: set<string>, w: World, env: Env, env': Env)
    requires FuncsShaped(fb, names) && FuncsSound(fb, g, w, env)
    requires forall n :: n in names ==> env.Get(n) == env'.Get(n)
    ensures FuncsSound(fb, g, w, env')
  {
    forall k | k in fb ensures FuncWithin(fb[k], k, g, w, env') {
      assert FuncWithin(fb[k], k, g, w, env);
      forall vs ensures var v := w.call(Halide, k.0, k.1, vs); InRange(g.funcs[k], v) && Brackets(fb[k], g.funcs[k], w, env', v) {
        BracketsAgree(fb[k], names, g.funcs[k], w, env, env', w.call(Halide, k.0, k.1, vs));
      }
    }
  }

  lemma LetShapes(scope: Scope, fb: FuncValueBounds, name: string, inner: Interval, names: set<string>)
    requires ScopeShaped(scope, names) && FuncsShaped(fb, names) && Shaped(inner, IntervalFV(inner))
    ensures ScopeShaped(scope[name := inner], names + IntervalFV(inner)) && FuncsShaped(fb, names + IntervalFV(inner))
  {}

  /** Binding the name around the end of an interval is evaluating it with the name set. */
  lemma WrapLetValue(b: Bound, name: string, value: Bound, needed: bool, w: World, env: Env)
    requires b.Fin?
    ensures WrapLet(b, name, value, needed).Fin?
    ensures Eval(WrapLet(b, name, value, needed).e, w, env) ==
            Eval(b.e, w, if Wraps(value, needed) then env.Set(name, Eval(value.e, w, env)) else env)
  {
    if Wraps(value, needed) && !UsesVars(b.e, {name}) {
      UnusedIsNotFree(b.e, {name});
      EvalAgree(b.e, w, env, env.Set(name, Eval(value.e, w, env)));
    }
  }

  lemma WrapEndValue(b: Bound, val: Interval, name: string, names: set<string>, w: World, penv: Env)
    requires b.Fin? && Neat(b.e, names + {name + ".min", name + ".max"}) && Shaped(val, names)
    requires {name + ".min", name + ".max"} !! names
    ensures WrapEnd(b, val, name, true).Fin?
    ensures Eval(WrapEnd(b, val, name, true).e, w, penv) == Eval(b.e, w, LetEnv(val, name, w, penv))
  {
    EndNamesDiffer(name, name);
    var lo, hi := name + ".min", name + ".max";
    var inner := WrapLet(b, lo, val.min, val.HasLower());
    var e1 := if Wraps(val.max, val.HasUpper()) then penv.Set(hi, Eval(val.max.e, w, penv)) else penv;
    WrapLetValue(b, lo, val.min, val.HasLower(), w, e1);
    WrapLetValue(inner, hi, val.max, val.HasUpper(), w, penv);
    var e2 := if Wraps(val.min, val.HasLower()) then e1.Set(lo, Eval(val.min.e, w, e1)) else e1;
    if Wraps(val.min, val.HasLower()) { NeatAgree(val.min.e, names, w, penv, e1); }
    EvalAgree(b.e, w, e2, LetEnv(val, name, w, penv));
  }

  lemma WrapEndShape(b: Bound, val: Interval, name: string, has: bool, names: set<string>)
    requires has <==> b.Fin?
    requires Shaped(val, names)
    requires NeatBound(b, names + LetVars(val, name))
    ensures NeatBound(WrapEnd(b, val, name, has), names)
  {
    if has {
      var outer := names + (if Wraps(val.max, val.HasUpper()) then {name + ".max"} else {});
      assert NeatBound(b, if Wraps(val.min, val.HasLower()) then outer + {name + ".min"} else outer);
      WrapLetShape(b, name + ".min", val.min, val.HasLower(), outer);
      WrapLetShape(WrapLet(b, name + ".min", val.min, val.HasLower()), name + ".max", val.max, val.HasUpper(), names);
    }
  }

  /** The body's interval, with the lets wrapped around its ends, is right for the let. */
  lemma LetSound(name: string, value: Expr, body: Expr, scope: Scope, c: Tools, g: Context, names: set<string>,
      w: World, penv: Env, env: Env)
    requires Sound(BoundsOf(value, scope, c), value, scope, g, names, w, penv, env)
    requires {name + ".min", name + ".max"} !! g.vars.Keys + names + {name}
    requires var val, t := BoundsOf(value, scope, c), TypeOf(value);
             var inner := LetInterval(val, t.ElementOf(), name);
             Sound(BoundsOf(body, scope[name := inner], c), body, scope[name := inner], g.Bind(name, t),
                   names + IntervalFV(inner), w, LetEnv(val, name, w, penv), env.Set(name, Eval(value, w, env)))
    ensures Sound(BoundsOf(Let(name, value, body), scope, c), Let(name, value, body), scope, g, names, w, penv, env)
  {
    var val, t := BoundsOf(value, scope, c), TypeOf(value);
    var inner := LetInterval(val, t.ElementOf(), name);
    var i := BoundsOf(body, scope[name := inner], c);
    var all := ResultNames(scope, g, names);
    LetIntervalSound(val, t.ElementOf(), name, all, w, penv, Eval(value, w, env));
    LessShaped(i, ResultNames(scope[name := inner], g.Bind(name, t), names + IntervalFV(inner)),
        all + LetVars(val, name));
    WrapLetsSound(i, val, name, all, TypeOf(body).ElementOf(), w, penv,
        Eval(body, w, env.Set(name, Eval(value, w, env))));
    LetUnfolds(name, value, body, scope, c, w, env);
  }

  lemma LetUnfolds(name: string, value: Expr, body: Expr, scope: Scope, c: Tools, w: World, env: Env)
    ensures var e := Let(name, value, body);
            var val := BoundsOf(value, scope, c);
            && Eval(e, w, env) == Eval(body, w, env.Set(name, Eval(value, w, env)))
            && TypeOf(e) == TypeOf(body)
            && BoundsOf(e, scope, c)
               == WrapLets(BoundsOf(body, scope[name := LetInterval(val, TypeOf(value).ElementOf(), name)], c), val, name)
  {}

  /** The names under which the ends of the let's value are passed to the body. */
  function LetVars(val: Interval, name: string): set<string> {
    (if Wraps(val.max, val.HasUpper()) then {name + ".max"} else {}) +
    (if Wraps(val.min, val.HasLower()) then {name + ".min"} else {})
  }

  lemma LessShaped(i: Interval, names: set<string>, names': set<string>)
    requires Shaped(i, names) && names <= names'
    ensures Shaped(i, names')
  {}

  lemma WrapLetsSound(i: Interval, val: Interval, name: string, names: set<string>, t: Type, w: World, penv: Env,
      v: int)
    requires Brackets(i, t, w, LetEnv(val, name, w, penv), v) && Shaped(i, names + LetVars(val, name))
    requires Shaped(val, names) && {name + ".min", name + ".max"} !! names
    ensures Brackets(WrapLets(i, val, name), t, w, penv, v) && Shaped(WrapLets(i, val, name), names)
  {
    WrapEndSound(i.min, val, name, i.HasLower(), names, w, penv);
    WrapEndSound(i.max, val, name, i.HasUpper(), names, w, penv);
  }

  lemma WrapEndSound(b: Bound, val: Interval, name: string, has: bool, names: set<string>, w: World, penv: Env)
    requires has <==> b.Fin?
    requires Shaped(val, names) && {name + ".min", name + ".max"} !! names
    requires NeatBound(b, names + LetVars(val, name))
    ensures NeatBound(WrapEnd(b, val, name, has), names)
    ensures if has then WrapEnd(b, val, name, has).Fin? && Eval(WrapEnd(b, val, name, has).e, w, penv) == Eval(b.e, w, LetEnv(val, name, w, penv))
            else WrapEnd(b, val, name, has) == b
  {
    if has { WrapEndValue(b, val, name, names, w, penv); }
    WrapEndShape(b, val, name, has, names);
  }

  // ---------- arguments and variables ----------

  lemma {:induction false} ArgsSound(es: seq<Expr>, scope: Scope, c: Tools, g: Context, names: set<string>,
      lanes: nat, w: World, penv: Env, env: Env)
    requires WellTypedArgs(es, g, lanes) && RegularArgs(es, scope, c) && DefinedArgs(es, w, env)
    requires HygienicArgs(es, g.vars.Keys + names) && (AnyCall in names || QuietArgs(es, scope.Keys))
    requires Setting(scope, c, g, names, w, penv, env)
    ensures forall i :: 0 <= i < |es| ==> Sound(BoundsOf(es[i], scope, c), es[i], scope, g, names, w, penv, env)
    decreases es
  {
    if es != [] {
      HygienicArgsPart(es, g.vars.Keys + names);
      BoundsSound(es[0], scope, c, g, names, w, penv, env);
      ArgsSound(es[1..], scope, c, g, names, lanes, w, penv, env);
    }
  }

  lemma VarSound(e: Expr, scope: Scope, c: Tools, g: Context, names: set<string>, w: World, penv: Env, env: Env)
    requires e.Var? && WellTyped(e, g) && Setting(scope, c, g, names, w, penv, env)
    ensures Sound(BoundsOf(e, scope, c), e, scope, g, names, w, penv, env)
  {
    if e.name !in scope {
      TypeBounds(e.t, w, penv, Eval(e, w, env));
      assert e.t.lanes == 1 ==> e.t.ElementOf() == e.t;
    }
  }

  lemma BinSound(c: Tools, e: Expr, a: Interval, b: Interval, w: World, penv: Env, env: Env)
    requires e.Bin? && IsArith(e.op) && ToolsSound(c, w) && TypeOf(e.a) == TypeOf(e.b) == e.t
    requires Brackets(a, e.t.ElementOf(), w, penv, Eval(e.a, w, env))
    requires Brackets(b, e.t.ElementOf(), w, penv, Eval(e.b, w, env))
    requires InRange(e.t, Eval(e.a, w, env)) && InRange(e.t, Eval(e.b, w, env))
    requires BinRegular(c, e, a, b) && (e.op.Mod? ==> Eval(e.b, w, env) != 0)
    ensures Brackets(BinRule(c, e, a, b), e.t.ElementOf(), w, penv, Eval(e, w, env))
  {
    RuleSound(c, e, a, b, w, penv, Eval(e.a, w, env), Eval(e.b, w, env));
  }

  lemma RuleSound(c: Tools, e: Expr, a: Interval, b: Interval, w: World, penv: Env, x: int, y: int)
    requires e.Bin? && IsArith(e.op) && ToolsSound(c, w)
    requires Brackets(a, e.t.ElementOf(), w, penv, x) && Brackets(b, e.t.ElementOf(), w, penv, y)
    requires InRange(e.t, x) && InRange(e.t, y) && BinRegular(c, e, a, b) && (e.op.Mod? ==> y != 0)
    ensures Brackets(BinRule(c, e, a, b), e.t.ElementOf(), w, penv, Apply(e.op, e.t, x, y))
  {
    match e.op
    case Add => AddSound(c, e, a, b, w, penv, x, y);
    case Sub => SubSound(c, e, a, b, w, penv, x, y);
    case Mul => MulSound(c, e, a, b, w, penv, x, y); ApplyExact(Mul, e.t, x, y);
    case Div => DivSound(c, e, a, b, w, penv, x, y); ApplyDiv(e.t, x, y);
    case Mod => ModSound(c, e, a, b, w, penv, x, y); ApplyMod(e.t, x, y);
    case Min => ExtSound(e, a, b, w, penv, x, y); ExtIsApply(Min, e.t, x, y);
    case Max => ExtSound(e, a, b, w, penv, x, y); ExtIsApply(Max, e.t, x, y);
  }

  lemma LoadSound(e: Expr, i: Interval, w: World, penv: Env, env: Env)
    requires e.Load? && Contains(i, w, penv, Eval(e.index, w, env))
    ensures Brackets(LoadRule(e, i), e.t.ElementOf(), w, penv, Eval(e, w, env))
  {
    var v := w.load(e.name, Eval(e.index, w, env));
    ElementRange(e.t, v);
    TypeBounds(e.t, w, penv, Wrap(e.t, v));
  }

  /** A scalar condition without scope variables has the same value in both environments. */
  lemma FixedCondition(cond: Expr, scope: Scope, g: Context, names: set<string>, w: World, penv: Env, env: Env)
    requires WellTyped(cond, g) && Consistent(g, scope, w, penv, env)
    requires TypeOf(cond).lanes == 1 && !UsesVars(cond, scope.Keys) && SettledCond(cond, scope.Keys, names)
    ensures Eval(cond, w, penv) == Eval(cond, w, env) && Neat(cond, ResultNames(scope, g, names))
  {
    ScalarTypeIsScalar(cond, g);
    UnusedIsNotFree(cond, scope.Keys);
    TypeSound(cond, g, w, env);
    FreeVarsScalar(cond, g);
    EvalAgree(cond, w, penv, env);
  }

  lemma {:induction false} FreeVarsScalar(e: Expr, g: Context)
    requires WellTyped(e, g) && Scalar(e)
    ensures forall n :: n in FV(e) ==> n in g.vars && g.vars[n].lanes == 1
  {
    match e
    case Imm(_, _) =>
    case Var(_, _) =>
    case Cast(_, value) => FreeVarsScalar(value, g);
    case Bin(_, _, a, b) => FreeVarsScalar(a, g); FreeVarsScalar(b, g);
    case Not(a) => FreeVarsScalar(a, g);
    case Select(c, tv, fv) => FreeVarsScalar(c, g); FreeVarsScalar(tv, g); FreeVarsScalar(fv, g);
    case Load(_, _, index) => FreeVarsScalar(index, g);
    case Call(_, t, _, _, args) => FreeArgsScalar(args, g, t.lanes);
    case Let(name, value, body) => FreeVarsScalar(value, g); FreeVarsScalar(body, g.Bind(name, TypeOf(value)));
  }

  lemma {:induction false} FreeArgsScalar(es: seq<Expr>, g: Context, lanes: nat)
    requires WellTypedArgs(es, g, lanes) && ScalarArgs(es)
    ensures forall n :: n in FVs(es) ==> n in g.vars && g.vars[n].lanes == 1
  {
    if es != [] {
      FreeVarsScalar(es[0], g);
      FreeArgsScalar(es[1..], g, lanes);
    }
  }

  function EitherBounds(cond: Expr, keys: set<string>, a: Interval, b: Interval): Interval {
    if !a.IsBounded() then a else if !b.IsBounded() then b else SelectRule(cond, keys, a, b)
  }

  function ArmsBounds(cond: Expr, tv: Expr, fv: Expr, scope: Scope, c: Tools): Interval {
    EitherBounds(cond, scope.Keys, BoundsOf(tv, scope, c), BoundsOf(fv, scope, c))
  }

  lemma ArmsSound(cond: Expr, tv: Expr, fv: Expr, scope: Scope, c: Tools, g: Context, names: set<string>, w: World,
      penv: Env, env: Env)
    requires WellTyped(cond, g) && TypeOf(tv).ElementOf() == TypeOf(fv).ElementOf()
    requires SettledCond(cond, scope.Keys, names)
    requires Setting(scope, c, g, names, w, penv, env) && SelectRegular(BoundsOf(tv, scope, c), BoundsOf(fv, scope, c))
    requires Sound(BoundsOf(tv, scope, c), tv, scope, g, names, w, penv, env)
    requires BoundsOf(tv, scope, c).IsBounded() ==> Sound(BoundsOf(fv, scope, c), fv, scope, g, names, w, penv, env)
    ensures var v := if Eval(cond, w, env) != 0 then Eval(tv, w, env) else Eval(fv, w, env);
            Brackets(ArmsBounds(cond, tv, fv, scope, c), TypeOf(tv).ElementOf(), w, penv, v)
    ensures Shaped(ArmsBounds(cond, tv, fv, scope, c), ResultNames(scope, g, names))
  {
    var a, b := BoundsOf(tv, scope, c), BoundsOf(fv, scope, c);
    if a.IsBounded() && b.IsBounded() {
      if TypeOf(cond).lanes == 1 && !UsesVars(cond, scope.Keys) {
        FixedCondition(cond, scope, g, names, w, penv, env);
      }
      SelectSound(cond, scope.Keys, a, b, TypeOf(tv).ElementOf(), w, penv, Eval(cond, w, env), Eval(tv, w, env),
          Eval(fv, w, env));
      SelectShape(cond, scope.Keys, a, b, ResultNames(scope, g, names));
    }
  }
}
