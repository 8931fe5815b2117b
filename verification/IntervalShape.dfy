/** On regular expressions the interval analysis returns proper intervals over the right
    variables, whether or not any run reaches the expression. */
module IntervalShape {
  import opened IR
  import opened Intervals
  import opened BoundsRules
  import opened RuleSoundness
  import opened IntervalSoundness

  /** Proper, scalar, and over the given variables. */
  predicate Good(i: Interval, names: set<string>) { i.Proper() && Shaped(i, names) }

  ghost predicate ScopeGood(scope: Scope, names: set<string>) {
    forall n :: n in scope ==> Good(scope[n], names)
  }

  ghost predicate FuncsGood(fb: FuncValueBounds, names: set<string>) {
    forall k :: k in fb ==> Good(fb[k], names)
  }

  /** Everything the analysis starts from, apart from any run. */
  ghost predicate Ground(scope: Scope, c: Tools, names: set<string>, w: World) {
    SimplifierSound(c, w) && ScopeGood(scope, names) && FuncsGood(c.fb, names)
  }

  lemma MulProper(c: Tools, op: Expr, a: Interval, b: Interval)
    requires op.Bin? && a.Proper() && b.Proper() && MulRegular(op.t.ElementOf(), a, b)
    ensures MulOrdered(c, op, a, b).Proper()
  {
    if a.IsBounded() && b.IsBounded() {
      var t := op.t.ElementOf();
      IncludeFourIs(Bin(Mul, t, a.min.e, b.min.e), Bin(Mul, t, a.min.e, b.max.e),
                    Bin(Mul, t, a.max.e, b.min.e), Bin(Mul, t, a.max.e, b.max.e));
    }
  }

  lemma DivProper(c: Tools, op: Expr, a: Interval, b: Interval)
    requires op.Bin? && op.op.Div? && a.Proper() && b.Proper() && BinRegular(c, op, a, b)
    ensures DivRule(c, op, a, b).Proper()
  {
    if a.IsBounded() && b.IsBounded() {
      var t := op.t.ElementOf();
      IncludeFourIs(Bin(Div, t, a.min.e, b.min.e), Bin(Div, t, a.max.e, b.min.e),
                    Bin(Div, t, a.min.e, b.max.e), Bin(Div, t, a.max.e, b.max.e));
    }
  }

  lemma BinGood(c: Tools, op: Expr, a: Interval, b: Interval, names: set<string>)
    requires op.Bin? && IsArith(op.op) && Good(a, names) && Good(b, names)
    requires op.t.lanes == TypeOf(op.a).lanes && BinRegular(c, op, a, b)
    ensures Good(BinRule(c, op, a, b), names)
  {
    BinShape(c, op, a, b, names);
    match op.op
    case Mul => if MulSwaps(a, b) { MulProper(c, op, b, a); } else { MulProper(c, op, a, b); }
    case Div => DivProper(c, op, a, b);
    case _ =>
  }

  lemma RampGood(c: Tools, op: Expr, base: Interval, stride: Interval, names: set<string>)
    requires op.Ramp? && TypeOf(op.base).lanes == 1 && Good(base, names) && Good(stride, names)
    requires RampRegular(c, op, base, stride)
    ensures Good(RampRule(c, op, base, stride), names)
  {
    var t := TypeOf(op.base);
    var lane := Range(Imm(t, 0), Imm(t, op.lanes - 1));
    BinGood(c, LaneProduct(op), lane, stride, names);
    BinGood(c, Bin(Add, t, op.base, LaneProduct(op)), base, MulRule(c, LaneProduct(op), lane, stride), names);
  }

  lemma CastGood(c: Tools, op: Expr, a: Interval, names: set<string>, w: World)
    requires op.Cast? && SimplifierSound(c, w) && Good(a, names) && op.t.lanes == TypeOf(op.value).lanes
    ensures Good(CastRule(c, op, a), names)
  {
    CastShape(c, op, a, names, w);
  }

  lemma ConditionNeat(cond: Expr, scope: Scope, g: Context, names: set<string>)
    requires WellTyped(cond, g) && g.vars.Keys - scope.Keys <= names && SettledCond(cond, scope.Keys, names)
    ensures TypeOf(cond).lanes == 1 && !UsesVars(cond, scope.Keys) ==> Neat(cond, names)
  {
    if TypeOf(cond).lanes == 1 && !UsesVars(cond, scope.Keys) {
      ScalarTypeIsScalar(cond, g);
      UnusedIsNotFree(cond, scope.Keys);
      FreeVarsScalar(cond, g);
    }
  }

  lemma SelectGood(cond: Expr, scoped: set<string>, a: Interval, b: Interval, names: set<string>)
    requires a.IsBounded() && b.IsBounded() && Shaped(a, names) && Shaped(b, names)
    requires TypeOf(cond).lanes == 1 && !UsesVars(cond, scoped) ==> Neat(cond, names)
    ensures Good(SelectRule(cond, scoped, a, b), names)
  {
    SelectShape(cond, scoped, a, b, names);
  }

  lemma ArmsGood(cond: Expr, scope: Scope, a: Interval, b: Interval, g: Context, names: set<string>)
    requires WellTyped(cond, g) && g.vars.Keys - scope.Keys <= names && SettledCond(cond, scope.Keys, names)
    requires Good(a, names) && (a.IsBounded() ==> Good(b, names))
    ensures Good(EitherBounds(cond, scope.Keys, a, b), names)
  {
    if a.IsBounded() && b.IsBounded() {
      ConditionNeat(cond, scope, g, names);
      SelectGood(cond, scope.Keys, a, b, names);
    }
  }

  lemma LetEntryGood(val: Interval, t: Type, name: string, names: set<string>)
    requires Good(val, names) && t.lanes == 1
    ensures Good(LetInterval(val, t, name), IntervalFV(LetInterval(val, t, name)))
    ensures IntervalFV(LetInterval(val, t, name)) <= LetVars(val, name)
  {
    EndNamesDiffer(name, name);
    if val.min.Fin? && IsConst(val.min.e) { ConstClosed(val.min.e); }
    if val.max.Fin? && IsConst(val.max.e) { ConstClosed(val.max.e); }
  }

  lemma LetGood(i: Interval, val: Interval, name: string, names: set<string>)
    requires Good(i, names + LetVars(val, name)) && Good(val, names)
    ensures Good(WrapLets(i, val, name), names)
  {
    WrapEndShape(i.min, val, name, i.HasLower(), names);
    WrapEndShape(i.max, val, name, i.HasUpper(), names);
  }

  ghost predicate Prepared(e: Expr, scope: Scope, c: Tools, g: Context, names: set<string>, w: World) {
    && WellTyped(e, g) && Regular(e, scope, c) && Ground(scope, c, names, w)
    && g.vars.Keys - scope.Keys <= names && Settled(e, scope.Keys, names)
  }

  /** The variables a regular expression's interval may mention are the parameters. */
  lemma {:induction false} RegularGood(e: Expr, scope: Scope, c: Tools, g: Context, names: set<string>, w: World)
    requires Prepared(e, scope, c, g, names, w)
    ensures Good(BoundsOf(e, scope, c), names)
    decreases e, 2
  {
    match e
    case Imm(_, _) => LeafGood(e, scope, c, g, names, w);
    case Var(_, _) => LeafGood(e, scope, c, g, names, w);
    case Cast(_, _) => CastCaseGood(e, scope, c, g, names, w);
    case Bin(op, _, _, _) =>
      if IsArith(op) { BinCaseGood(e, scope, c, g, names, w); } else { LeafGood(e, scope, c, g, names, w); }
    case Not(_) => LeafGood(e, scope, c, g, names, w);
    case Select(cond, tv, fv) => EitherGood(e, cond, tv, fv, scope, c, g, names, w);
    case Load(_, _, index) => LoadCaseGood(e, scope, c, g, names, w);
    case Ramp(base, stride, _) => RampCaseGood(e, scope, c, g, names, w);
    case Broadcast(value, _) => RegularGood(value, scope, c, g, names, w);
    case Call(_, _, _, _, _) => CallGood(e, scope, c, g, names, w);
    case Let(_, _, _) => LetCaseGood(e, scope, c, g, names, w);
  }

  lemma LeafGood(e: Expr, scope: Scope, c: Tools, g: Context, names: set<string>, w: World)
    requires e.Imm? || e.Var? || e.Not? || (e.Bin? && !IsArith(e.op))
    requires Prepared(e, scope, c, g, names, w)
    ensures Good(BoundsOf(e, scope, c), names)
  {}

  lemma {:induction false} CastCaseGood(e: Expr, scope: Scope, c: Tools, g: Context, names: set<string>, w: World)
    requires e.Cast? && Prepared(e, scope, c, g, names, w)
    ensures Good(BoundsOf(e, scope, c), names)
    decreases e, 1
  {
    RegularGood(e.value, scope, c, g, names, w);
    CastGood(c, e, BoundsOf(e.value, scope, c), names, w);
  }

  lemma {:induction false} BinCaseGood(e: Expr, scope: Scope, c: Tools, g: Context, names: set<string>, w: World)
    requires e.Bin? && IsArith(e.op) && Prepared(e, scope, c, g, names, w)
    ensures Good(BoundsOf(e, scope, c), names)
    decreases e, 1
  {
    RegularGood(e.a, scope, c, g, names, w);
    RegularGood(e.b, scope, c, g, names, w);
    BinGood(c, e, BoundsOf(e.a, scope, c), BoundsOf(e.b, scope, c), names);
  }

  lemma {:induction false} LoadCaseGood(e: Expr, scope: Scope, c: Tools, g: Context, names: set<string>, w: World)
    requires e.Load? && Prepared(e, scope, c, g, names, w)
    ensures Good(BoundsOf(e, scope, c), names)
    decreases e, 1
  {
    RegularGood(e.index, scope, c, g, names, w);
    TypeShape(e.t, names);
  }

  lemma {:induction false} RampCaseGood(e: Expr, scope: Scope, c: Tools, g: Context, names: set<string>, w: World)
    requires e.Ramp? && Prepared(e, scope, c, g, names, w)
    ensures Good(BoundsOf(e, scope, c), names)
    decreases e, 1
  {
    RegularGood(e.base, scope, c, g, names, w);
    RegularGood(e.stride, scope, c, g, names, w);
    RampGood(c, e, BoundsOf(e.base, scope, c), BoundsOf(e.stride, scope, c), names);
  }

  lemma {:induction false} LetCaseGood(e: Expr, scope: Scope, c: Tools, g: Context, names: set<string>, w: World)
    requires e.Let? && Prepared(e, scope, c, g, names, w)
    ensures Good(BoundsOf(e, scope, c), names)
    decreases e, 1
  {
    var name, value, body := e.name, e.value, e.body;
    RegularGood(value, scope, c, g, names, w);
    var val := BoundsOf(value, scope, c);
    var inner := LetInterval(val, TypeOf(value).ElementOf(), name);
    BodyPrepared(e, scope, c, g, names, w);
    RegularGood(body, scope[name := inner], c, g.Bind(name, TypeOf(value)), names + LetVars(val, name), w);
    LetGood(BoundsOf(body, scope[name := inner], c), val, name, names);
  }

  lemma BodyPrepared(e: Expr, scope: Scope, c: Tools, g: Context, names: set<string>, w: World)
    requires e.Let? && Prepared(e, scope, c, g, names, w)
    requires Good(BoundsOf(e.value, scope, c), names) && TypeOf(e.value).ElementOf().lanes == 1
    ensures var val := BoundsOf(e.value, scope, c);
            var inner := LetInterval(val, TypeOf(e.value).ElementOf(), e.name);
            Prepared(e.body, scope[e.name := inner], c, g.Bind(e.name, TypeOf(e.value)), names + LetVars(val, e.name), w)
  {
    var val := BoundsOf(e.value, scope, c);
    var inner := LetInterval(val, TypeOf(e.value).ElementOf(), e.name);
    LetEntryGood(val, TypeOf(e.value).ElementOf(), e.name, names);
    assert scope[e.name := inner].Keys == scope.Keys + {e.name};
  }

  lemma {:induction false} EitherGood(e: Expr, cond: Expr, tv: Expr, fv: Expr, scope: Scope, c: Tools, g: Context,
      names: set<string>, w: World)
    requires tv < e && fv < e && WellTyped(cond, g)
    requires Prepared(tv, scope, c, g, names, w) && WellTyped(fv, g)
    requires BoundsOf(tv, scope, c).IsBounded() ==> Regular(fv, scope, c)
    requires SettledCond(cond, scope.Keys, names) && Settled(fv, scope.Keys, names)
    ensures Good(ArmsBounds(cond, tv, fv, scope, c), names)
    decreases e, 0
  {
    RegularGood(tv, scope, c, g, names, w);
    if BoundsOf(tv, scope, c).IsBounded() { RegularGood(fv, scope, c, g, names, w); }
    ArmsGood(cond, scope, BoundsOf(tv, scope, c), BoundsOf(fv, scope, c), g, names);
  }

  lemma {:induction false} CallGood(e: Expr, scope: Scope, c: Tools, g: Context, names: set<string>, w: World)
    requires e.Call? && Prepared(e, scope, c, g, names, w)
    ensures Good(BoundsOf(e, scope, c), names)
    decreases e, 1
  {
    var args := e.args;
    if e.kind.IfThenElse? && |args| == 3 {
      WellTypedArg(args, g, e.t.lanes, 0);
      WellTypedArg(args, g, e.t.lanes, 1);
      WellTypedArg(args, g, e.t.lanes, 2);
      SettledArms(e, scope.Keys, names);
      EitherGood(e, args[0], args[1], args[2], scope, c, g, names, w);
    } else {
      ArgsGood(args, scope, c, g, names, e.t.lanes, w);
      PlainCallGood(e, scope, c, names);
    }
  }

  lemma PlainCallGood(e: Expr, scope: Scope, c: Tools, names: set<string>)
    requires e.Call? && !(e.kind.IfThenElse? && |e.args| == 3) && FuncsGood(c.fb, names)
    requires forall i :: 0 <= i < |e.args| ==> Good(BoundsOf(e.args[i], scope, c), names)
    ensures Good(BoundsOf(e, scope, c), names)
  {
    if (e.kind.PureExtern? || e.kind.Image?) && AllPoints(BoundsOfArgs(e.args, scope, c)) {
      PointCallGood(e, BoundsOfArgs(e.args, scope, c), names);
    } else if e.kind.Abs? && |e.args| == 1 {
      AbsShape(e, BoundsOf(e.args[0], scope, c), names);
    } else if e.kind.Likely? && |e.args| == 1 {
    } else if e.kind.Halide? {
      TypeShape(e.t, names);
    } else {
      TypeShape(e.t, names);
    }
  }

  lemma PointCallGood(e: Expr, ivs: seq<Interval>, names: set<string>)
    requires e.Call? && !e.kind.Halide? && AllPoints(ivs) && forall i :: 0 <= i < |ivs| ==> Good(ivs[i], names)
    ensures Good(Point(Call(e.kind, e.t.ElementOf(), e.name, e.valueIndex, PointExprs(ivs))), names)
  {
    PointsShape(ivs, names);
    var r := Call(e.kind, e.t.ElementOf(), e.name, e.valueIndex, PointExprs(ivs));
    assert Scalar(r) && FV(r) == FVs(r.args);
  }

  lemma {:induction false} ArgsGood(es: seq<Expr>, scope: Scope, c: Tools, g: Context, names: set<string>, lanes: nat,
      w: World)
    requires WellTypedArgs(es, g, lanes) && RegularArgs(es, scope, c) && Ground(scope, c, names, w)
    requires g.vars.Keys - scope.Keys <= names && (AnyCall in names || QuietArgs(es, scope.Keys))
    ensures forall i :: 0 <= i < |es| ==> Good(BoundsOf(es[i], scope, c), names)
    decreases es
  {
    if es != [] {
      RegularGood(es[0], scope, c, g, names, w);
      ArgsGood(es[1..], scope, c, g, names, lanes, w);
    }
  }
}
