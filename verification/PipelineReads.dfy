/** What evaluating a stage's value reads, and that its value depends on nothing else. */
module PipelineReads {
  import opened IR
  import opened Intervals
  import opened BoundsRules
  import opened Boxes
  import opened Trees
  import opened BoxesTouched
  import opened RegionSoundness
  import opened Pipeline
  import opened BoundsInference

  /** A sane expression reads every function with its number of coordinates. */
  lemma {:induction false} TouchedArity(s: Stmt, scope: Scope, c: Tools, g: Context, names: set<string>,
      ar: map<string, nat>, w: World, env: Env, f: string, pt: seq<int>)
    requires OnlyEvaluates(s) && Sane(s, scope, Reading, c, g, names, ar) && Touched(s, Reading, w, env, f, pt)
    ensures f in ar && |pt| == ar[f]
    decreases StmtSize(s), 1
  {
    match s
    case Evaluate(e) => ExprArity(e, scope, c, g, names, ar, w, env, f, pt);
    case LetStmt(name, value, body) =>
      var i := LetBounds(c, value, scope);
      if Touched(Evaluate(value), Reading, w, env, f, pt) {
        TouchedArity(Evaluate(value), scope, c, g, names, ar, w, env, f, pt);
      } else {
        TouchedArity(body, scope[name := LetEntry(i, TypeOf(value), name)], c, g.Bind(name, TypeOf(value)),
                     LetScopeNames(i, name, names), ar, w, env.Set(name, Eval(value, w, env)), f, pt);
      }
    case IfThenElse(_, _, _) => IfArity(s, scope, c, g, names, ar, w, env, f, pt);
  }

  lemma {:induction false} IfArity(s: Stmt, scope: Scope, c: Tools, g: Context, names: set<string>,
      ar: map<string, nat>, w: World, env: Env, f: string, pt: seq<int>)
    requires s.IfThenElse? && OnlyEvaluates(s) && Sane(s, scope, Reading, c, g, names, ar)
    requires Touched(s, Reading, w, env, f, pt)
    ensures f in ar && |pt| == ar[f]
    decreases StmtSize(s), 0
  {
    if Touched(Evaluate(s.cond), Reading, w, env, f, pt) {
      TouchedArity(Evaluate(s.cond), scope, c, g, names, ar, w, env, f, pt);
    } else if Eval(s.cond, w, env) != 0 {
      var inner := if UsesVars(s.cond, scope.Keys) && IsNoOp(s.elseCase) then TrimScope(s.cond, scope, c) else scope;
      TouchedArity(s.thenCase, inner, c, g, names, ar, w, env, f, pt);
    } else {
      if UsesVars(s.cond, scope.Keys) && IsNoOp(s.elseCase) {
        ConstTouchesNothing(s.elseCase.value.value, Reading, w, env, f, pt);
      } else {
        TouchedArity(s.elseCase.value, scope, c, g, names, ar, w, env, f, pt);
      }
    }
  }

  lemma {:induction false} ExprArity(e: Expr, scope: Scope, c: Tools, g: Context, names: set<string>,
      ar: map<string, nat>, w: World, env: Env, f: string, pt: seq<int>)
    requires Sane(Evaluate(e), scope, Reading, c, g, names, ar) && Touched(Evaluate(e), Reading, w, env, f, pt)
    ensures f in ar && |pt| == ar[f]
    decreases StmtSize(Evaluate(e)), 0
  {
    if e.Let? {
      AsLetSize(e);
      TouchedArity(AsLetStmt(e), scope, c, g, names, ar, w, env, f, pt);
    } else if !e.Call? {
      ChildSizes(e);
      ArgsArity(Children(e), scope, c, g, names, ar, w, env, f, pt);
    } else if IsIf(e) {
      AsIfSize(e);
      TouchedArity(AsIf(e), scope, c, g, names, ar, w, env, f, pt);
    } else if TouchedArgs(e.args, Reading, w, env, f, pt) {
      ArgsArity(e.args, scope, c, g, names, ar, w, env, f, pt);
    }
  }

  lemma {:induction false} ArgsArity(es: seq<Expr>, scope: Scope, c: Tools, g: Context, names: set<string>,
      ar: map<string, nat>, w: World, env: Env, f: string, pt: seq<int>)
    requires SaneArgs(es, scope, Reading, c, g, names, ar) && TouchedArgs(es, Reading, w, env, f, pt)
    ensures f in ar && |pt| == ar[f]
    decreases Sizes(es), 0
  {
    if Touched(Evaluate(es[0]), Reading, w, env, f, pt) {
      TouchedArity(Evaluate(es[0]), scope, c, g, names, ar, w, env, f, pt);
    } else {
      ArgsArity(es[1..], scope, c, g, names, ar, w, env, f, pt);
    }
  }

  // ---------- values depend on what is read ----------

  /** The worlds agree on all but functions, and on those of the functions' points that
      the evaluation reads. */
  ghost predicate AgreeOnReads(e: Expr, names: set<string>, w: World, w': World, env: Env) {
    && w.load == w'.load
    && (forall kind, name, k, vs :: kind != Halide ==> w.call(kind, name, k, vs) == w'.call(kind, name, k, vs))
    && forall f, k, vs :: f in names && Touched(Evaluate(e), Reading, w, env, f, vs) ==>
         w.call(Halide, f, k, vs) == w'.call(Halide, f, k, vs)
  }

  ghost predicate AgreeOnArgs(es: seq<Expr>, names: set<string>, w: World, w': World, env: Env) {
    forall i :: 0 <= i < |es| ==> AgreeOnReads(es[i], names, w, w', env)
  }

  lemma {:induction false} TouchedAt(es: seq<Expr>, i: nat, w: World, env: Env, f: string, vs: seq<int>)
    requires i < |es| && Touched(Evaluate(es[i]), Reading, w, env, f, vs)
    ensures TouchedArgs(es, Reading, w, env, f, vs)
  {
    if i > 0 { TouchedAt(es[1..], i - 1, w, env, f, vs); }
  }

  lemma NodeReads(e: Expr, names: set<string>, w: World, w': World, env: Env)
    requires AgreeOnReads(e, names, w, w', env) && !e.Let? && !IsIf(e)
    ensures AgreeOnArgs(Children(e), names, w, w', env)
  {
    forall i, f, k, vs | 0 <= i < |Children(e)| && f in names && Touched(Evaluate(Children(e)[i]), Reading, w, env, f, vs)
      ensures w.call(Halide, f, k, vs) == w'.call(Halide, f, k, vs) {
      TouchedAt(Children(e), i, w, env, f, vs);
      assert Touched(Evaluate(e), Reading, w, env, f, vs);
    }
  }

  lemma CallsAt(e: Expr, i: nat)
    requires i < |Children(e)|
    ensures Calls(Children(e)[i]) <= Calls(e)
  {
    if e.Call? { CallsOfAt(e.args, i); }
  }

  lemma {:induction false} CallsOfAt(es: seq<Expr>, i: nat)
    requires i < |es|
    ensures Calls(es[i]) <= CallsOf(es)
  {
    if i > 0 { CallsOfAt(es[1..], i - 1); }
  }

  /** A value is the same in two worlds that agree on what its evaluation reads. */
  lemma {:induction false} SameReads(e: Expr, names: set<string>, w: World, w': World, env: Env)
    requires AgreeOnReads(e, names, w, w', env) && Calls(e) <= names
    ensures Eval(e, w, env) == Eval(e, w', env)
    decreases Size(e), 1
  {
    if e.Let? {
      LetReads(e, names, w, w', env);
    } else if IsIf(e) {
      IfReads(e, names, w, w', env);
    } else {
      NodeReads(e, names, w, w', env);
      forall i | 0 <= i < |Children(e)| ensures Eval(Children(e)[i], w, env) == Eval(Children(e)[i], w', env) {
        ChildSmaller(e, i);
        CallsAt(e, i);
        SameReads(Children(e)[i], names, w, w', env);
      }
      if e.Call? { CallReads(e, names, w, w', env); } else { NodeSame(e, w, w', env); }
    }
  }

  lemma NodeSame(e: Expr, w: World, w': World, env: Env)
    requires !e.Let? && !e.Call? && w.load == w'.load
    requires forall i :: 0 <= i < |Children(e)| ==> Eval(Children(e)[i], w, env) == Eval(Children(e)[i], w', env)
    ensures Eval(e, w, env) == Eval(e, w', env)
  {
    match e
    case Select(c, tv, fv) => assert Children(e)[0] == c && Children(e)[1] == tv && Children(e)[2] == fv;
    case Bin(_, _, a, b) => assert Children(e)[0] == a && Children(e)[1] == b;
    case Ramp(a, b, _) => assert Children(e)[0] == a && Children(e)[1] == b;
    case Cast(_, a) => assert Children(e)[0] == a;
    case Not(a) => assert Children(e)[0] == a;
    case Load(_, _, a) => assert Children(e)[0] == a;
    case Broadcast(a, _) => assert Children(e)[0] == a;
    case _ =>
  }

  lemma CallReads(e: Expr, names: set<string>, w: World, w': World, env: Env)
    requires e.Call? && !IsIf(e) && AgreeOnReads(e, names, w, w', env) && Calls(e) <= names
    requires forall i :: 0 <= i < |e.args| ==> Eval(e.args[i], w, env) == Eval(e.args[i], w', env)
    ensures Eval(e, w, env) == Eval(e, w', env)
  {
    var vs := EvalArgs(e.args, w, env);
    assert vs == EvalArgs(e.args, w', env);
    if e.kind.Halide? { assert Touched(Evaluate(e), Reading, w, env, e.name, vs); }
    assert w.call(e.kind, e.name, e.valueIndex, vs) == w'.call(e.kind, e.name, e.valueIndex, vs);
  }

  lemma {:induction false} LetReads(e: Expr, names: set<string>, w: World, w': World, env: Env)
    requires e.Let? && AgreeOnReads(e, names, w, w', env) && Calls(e) <= names
    ensures Eval(e, w, env) == Eval(e, w', env)
    decreases Size(e), 0
  {
    forall f, vs | Touched(Evaluate(e.value), Reading, w, env, f, vs) ensures Touched(Evaluate(e), Reading, w, env, f, vs) {
      assert Touched(AsLetStmt(e), Reading, w, env, f, vs);
    }
    SameReads(e.value, names, w, w', env);
    var inner := env.Set(e.name, Eval(e.value, w, env));
    forall f, vs | Touched(Evaluate(e.body), Reading, w, inner, f, vs) ensures Touched(Evaluate(e), Reading, w, env, f, vs) {
      assert Touched(AsLetStmt(e), Reading, w, env, f, vs);
    }
    SameReads(e.body, names, w, w', inner);
  }

  lemma {:induction false} IfReads(e: Expr, names: set<string>, w: World, w': World, env: Env)
    requires IsIf(e) && AgreeOnReads(e, names, w, w', env) && Calls(e) <= names
    ensures Eval(e, w, env) == Eval(e, w', env)
    decreases Size(e), 0
  {
    var cond, arm := e.args[0], if Eval(e.args[0], w, env) != 0 then 1 else 2;
    forall f, vs | Touched(Evaluate(cond), Reading, w, env, f, vs) || Touched(Evaluate(e.args[arm]), Reading, w, env, f, vs)
      ensures Touched(Evaluate(e), Reading, w, env, f, vs) {
      assert Touched(AsIf(e), Reading, w, env, f, vs);
    }
    ChildSmaller(e, 0);
    ChildSmaller(e, arm);
    CallsAt(e, 0);
    CallsAt(e, arm);
    SameReads(cond, names, w, w', env);
    SameReads(e.args[arm], names, w, w', env);
    var vs, vs' := EvalArgs(e.args, w, env), EvalArgs(e.args, w', env);
    assert vs[0] == vs'[0] && vs[arm] == vs'[arm];
  }

  // ---------- the values of a stage ----------

  /** Among the conditional values those whose condition holds. */
  ghost predicate Listed(cvs: seq<CondValue>, v: Expr, w: World, env: Env) {
    exists i :: 0 <= i < |cvs| && Eval(cvs[i].cond, w, env) != 0 && cvs[i].value == v
  }

  lemma GuardedListed(cond: Expr, cvs: seq<CondValue>, c: Tools, v: Expr, w: World, env: Env)
    requires forall e :: Eval(c.simplify(e), w, env) == Eval(e, w, env)
    ensures Listed(Guarded(cond, cvs, c), v, w, env) <==> Eval(cond, w, env) != 0 && Listed(cvs, v, w, env)
  {
    forall i | 0 <= i < |cvs| ensures GuardedAt(cond, cvs, c, i, w, env) { GuardedOne(cond, cvs, c, i, w, env); }
    if Listed(Guarded(cond, cvs, c), v, w, env) {
      var i :| 0 <= i < |cvs| && Eval(Guarded(cond, cvs, c)[i].cond, w, env) != 0 && Guarded(cond, cvs, c)[i].value == v;
      assert GuardedAt(cond, cvs, c, i, w, env);
    }
    if Eval(cond, w, env) != 0 && Listed(cvs, v, w, env) {
      var i :| 0 <= i < |cvs| && Eval(cvs[i].cond, w, env) != 0 && cvs[i].value == v;
      assert GuardedAt(cond, cvs, c, i, w, env);
    }
  }

  predicate GuardedAt(cond: Expr, cvs: seq<CondValue>, c: Tools, i: nat, w: World, env: Env)
    requires i < |cvs|
  {
    var r := Guarded(cond, cvs, c)[i];
    r.value == cvs[i].value && (Eval(r.cond, w, env) != 0 <==> Eval(cond, w, env) != 0 && Eval(cvs[i].cond, w, env) != 0)
  }

  lemma GuardedOne(cond: Expr, cvs: seq<CondValue>, c: Tools, i: nat, w: World, env: Env)
    requires forall e :: Eval(c.simplify(e), w, env) == Eval(e, w, env)
    requires i < |cvs|
    ensures GuardedAt(cond, cvs, c, i, w, env)
  {
    AndHolds(cond, cvs[i].cond, w, env);
  }

  lemma TrueHolds(w: World, env: Env)
    ensures Eval(ConstTrue(), w, env) == 1
  {}

  lemma AndHolds(a: Expr, b: Expr, w: World, env: Env)
    ensures Eval(And2(a, b), w, env) != 0 <==> Eval(a, w, env) != 0 && Eval(b, w, env) != 0
  {}

  lemma ListedSum(a: seq<CondValue>, b: seq<CondValue>, v: Expr, w: World, env: Env)
    ensures Listed(a + b, v, w, env) <==> Listed(a, v, w, env) || Listed(b, v, w, env)
  {
    if i :| 0 <= i < |a| && Eval(a[i].cond, w, env) != 0 && a[i].value == v { assert (a + b)[i] == a[i]; }
    if i :| 0 <= i < |b| && Eval(b[i].cond, w, env) != 0 && b[i].value == v { assert (a + b)[|a| + i] == b[i]; }
  }

  /** Exactly the values of the definition in force are listed under a condition that
      holds, whichever specializations there are. */
  lemma {:induction false} ExprsAreChosen(d: Definition, i: nat, c: Tools, v: Expr, w: World, env: Env)
    requires i <= |d.specializations|
    requires forall e :: Eval(c.simplify(e), w, env) == Eval(e, w, env)
    requires HasValues(d)
    ensures Listed(ExprsFrom(d, i, c), v, w, env) <==> v in ChosenFrom(d, i, w, env).values
    decreases d, |d.specializations| - i, 0
  {
    if i == |d.specializations| {
      if v in d.values {
        var k :| 0 <= k < |d.values| && d.values[k] == v;
        TrueHolds(w, env);
        assert Defaults(d)[k].value == v && Defaults(d)[k].cond == ConstTrue();
      }
    } else {
      var s := d.specializations[i];
      var rest, special := ExprsFrom(d, i + 1, c), StageExprs(s.def, c);
      ExprsAreChosen(d, i + 1, c, v, w, env);
      StageExprsAreChosen(s.def, c, v, w, env);
      GuardedListed(Not(s.cond), rest, c, v, w, env);
      GuardedListed(s.cond, special, c, v, w, env);
      ListedSum(Guarded(Not(s.cond), rest, c), Guarded(s.cond, special, c), v, w, env);
    }
  }

  /** Every definition has a value. */
  predicate HasValues(d: Definition)
    decreases d
  {
    d.values != [] && forall i :: 0 <= i < |d.specializations| ==> HasValues(d.specializations[i].def)
  }

  lemma {:induction false} ChosenHasValues(d: Definition, i: nat, w: World, env: Env)
    requires HasValues(d) && i <= |d.specializations|
    ensures ChosenFrom(d, i, w, env).values != []
    decreases d, |d.specializations| - i
  {
    if i < |d.specializations| {
      ChosenHasValues(d.specializations[i].def, 0, w, env);
      ChosenHasValues(d, i + 1, w, env);
    }
  }

  lemma {:induction false} StageExprsAreChosen(d: Definition, c: Tools, v: Expr, w: World, env: Env)
    requires forall e :: Eval(c.simplify(e), w, env) == Eval(e, w, env)
    requires HasValues(d)
    ensures Listed(StageExprs(d, c), v, w, env) <==> v in Chosen(d, w, env).values
    decreases d, |d.specializations| + 1, 1
  {
    var all := ExprsFrom(d, 0, c);
    ExprsAreChosen(d, 0, c, v, w, env);
    if |all| > 1 && forall i :: 0 <= i < |all| ==> all[i].value == all[0].value {
      ChosenHasValues(d, 0, w, env);
      var first := Chosen(d, w, env).values[0];
      ExprsAreChosen(d, 0, c, first, w, env);
      TrueHolds(w, env);
      assert Combined(all)[0] == CondValue(ConstTrue(), all[0].value);
    }
  }
}
