/** Where the regions of a statement fall short: a let value too large to substitute, one of
    whose ends is infinite. */
module RegionGaps {
  import opened IR
  import opened Intervals
  import opened BoundsRules
  import opened RuleSoundness
  import opened IntervalSoundness
  import opened Boxes
  import opened BoxesTouched
  import opened RegionSoundness
  import opened Trees

  /** The interval of the let variable itself, once its names have been bound. */
  function BoundLet(i: Interval, t: Type, name: string): Interval {
    if Substitutes(i) then LetEntry(i, t, name) else BindInterval(LetEntry(i, t, name), i, name)
  }

  lemma NamedEnd(t: Type, name: string, value: Expr, other: string, w: World, penv: Env)
    requires t.signed && !t.Narrow() && t.lanes == 1 && name != other && !UsesVars(value, {name, other})
    ensures var e := Let(name, value, Var(t, name));
            && UsesVars(Var(t, name), {name}) && !UsesVars(Var(t, name), {other}) && !UsesVars(e, {other})
            && Eval(e, w, penv) == Eval(value, w, penv)
  {
    UsesFewer(value, {name, other}, {other});
    assert penv.Set(name, Eval(value, w, penv)).Get(name) == Eval(value, w, penv);
  }

  lemma {:induction false} UsesFewer(e: Expr, names: set<string>, fewer: set<string>)
    requires !UsesVars(e, names) && fewer <= names
    ensures !UsesVars(e, fewer)
  {
    match e
    case Imm(_, _) =>
    case Var(_, _) =>
    case Cast(_, value) => UsesFewer(value, names, fewer);
    case Bin(_, _, a, b) => UsesFewer(a, names, fewer); UsesFewer(b, names, fewer);
    case Not(a) => UsesFewer(a, names, fewer);
    case Select(c, tv, fv) => UsesFewer(c, names, fewer); UsesFewer(tv, names, fewer); UsesFewer(fv, names, fewer);
    case Load(_, _, index) => UsesFewer(index, names, fewer);
    case Ramp(base, stride, _) => UsesFewer(base, names, fewer); UsesFewer(stride, names, fewer);
    case Broadcast(value, _) => UsesFewer(value, names, fewer);
    case Call(_, _, _, _, args) => ArgsUseFewer(args, names, fewer);
    case Let(_, value, body) => UsesFewer(value, names, fewer); UsesFewer(body, names, fewer);
  }

  lemma {:induction false} ArgsUseFewer(es: seq<Expr>, names: set<string>, fewer: set<string>)
    requires !ArgsUseVars(es, names) && fewer <= names
    ensures !ArgsUseVars(es, fewer)
  {
    if es != [] {
      UsesFewer(es[0], names, fewer);
      ArgsUseFewer(es[1..], names, fewer);
    }
  }

  /** The names made for the let occur nowhere in its ends. */
  predicate FreshFor(i: Interval, name: string) {
    !UsesVars(EndExpr(i.min), Fresh(name)) && !UsesVars(EndExpr(i.max), Fresh(name))
  }

  /** A large let has two finite ends: where its value has none, the value of a variable. */
  lemma BoundLetIs(i: Interval, t: Type, name: string, w: World, penv: Env)
    requires t.signed && !t.Narrow() && t.lanes == 1 && !Substitutes(i) && FreshFor(i, name)
    ensures var r := BoundLet(i, t, name);
            && r.IsBounded() && Eval(r.min.e, w, penv) == Eval(EndExpr(i.min), w, penv) && Eval(r.max.e, w, penv) == Eval(EndExpr(i.max), w, penv)
  {
    var lo, hi := MinVar(name), MaxVar(name);
    FreshDiffer(name);
    assert Fresh(name) == {lo, hi} == {hi, lo};
    NamedEnd(t, lo, EndExpr(i.min), hi, w, penv);
    NamedEnd(t, hi, EndExpr(i.max), lo, w, penv);
    assert LetEntry(i, t, name) == Range(Var(t, lo), Var(t, hi));
    assert BindEnd(Fin(Var(t, lo)), hi, EndExpr(i.max)) == Fin(Var(t, lo));
    assert BindEnd(Fin(Var(t, hi)), hi, EndExpr(i.max)) == Fin(Let(hi, EndExpr(i.max), Var(t, hi)));
  }

  /** The interval of a let variable holds every value the let may have if and only if the
      ends are substituted, or both are finite. */
  lemma LargeLetEnds(i: Interval, t: Type, name: string, w: World, penv: Env)
    requires t.signed && !t.Narrow() && t.lanes == 1 && i.Proper() && FreshFor(i, name)
    ensures (forall v :: Contains(i, w, penv, v) ==> Contains(BoundLet(i, t, name), w, penv, v)) <==> Substitutes(i) || i.IsBounded()
  {
    if !Substitutes(i) {
      BoundLetIs(i, t, name, w, penv);
      if !i.IsBounded() {
        var lo, hi := Eval(EndExpr(i.min), w, penv), Eval(EndExpr(i.max), w, penv);
        var v := if i.max.PosInf? then (if i.min.Fin? && lo > hi then lo else hi + 1) else (if hi < lo then hi else lo - 1);
        assert Contains(i, w, penv, v) && !Contains(BoundLet(i, t, name), w, penv, v);
      }
    }
  }

  // ---------- a read that is missed ----------

  // let x = max(a + a + ... + a, z) in f(x), where z could be anything

  function A(): Expr { Var(Int(32), "a") }
  function Z(): Expr { Var(Int(32), "z") }
  function X(): Expr { Var(Int(32), "x") }

  function Sum(n: nat): Expr { if n == 0 then Imm(Int(32), 0) else Bin(Add, Int(32), Sum(n - 1), A()) }

  function Value(): Expr { Bin(Max, Int(32), Sum(10), Z()) }
  function ReadF(): Expr { Call(Halide, Int(32), "f", 0, [X()]) }
  function Missing(): Stmt { LetStmt("x", Value(), Evaluate(ReadF())) }
  function AnyZ(): Scope { map["z" := Everything()] }
  function Plain(): Tools { Tools(map[], (e: Expr) => false, (e: Expr) => e) }
  function Reading(): Mode { Mode(true, false, "") }

  lemma {:induction false} SumIs(n: nat, w: World, env: Env)
    ensures BoundsOf(Sum(n), AnyZ(), Plain()) == Point(Sum(n)) && CountVars(Sum(n)) == n
    ensures env.Get("a") == 0 ==> Eval(Sum(n), w, env) == 0
    ensures !UsesVars(Sum(n), Fresh("x"))
  {
    if n > 0 { SumIs(n - 1, w, env); }
  }

  function Ends(): Interval { Interval(Fin(Sum(10)), PosInf) }

  lemma MaxBounds(s: Expr)
    requires BoundsOf(s, AnyZ(), Plain()) == Point(s) && CountVars(s) >= 10
    ensures var i := Interval(Fin(s), PosInf); LetBounds(Plain(), Bin(Max, Int(32), s, Z()), AnyZ()) == i && !Substitutes(i)
  {
    assert BoundsOf(Z(), AnyZ(), Plain()) == Everything();
    assert BoundsOf(Bin(Max, Int(32), s, Z()), AnyZ(), Plain()) == ExtRule(Bin(Max, Int(32), s, Z()), Point(s),
        Everything());
  }

  lemma InfinityIsApart()
    ensures !UsesVars(EndExpr(PosInf), Fresh("x"))
  {
    var pos, lo, hi := "pos_inf", MinVar("x"), MaxVar("x");
    assert pos[0] == 'p' && lo[0] == 'x' == hi[0];
  }

  lemma ValueBounds(w: World, env: Env)
    ensures LetBounds(Plain(), Value(), AnyZ()) == Ends() && !Substitutes(Ends()) && FreshFor(Ends(), "x")
  {
    SumIs(10, w, env);
    MaxBounds(Sum(10));
    InfinityIsApart();
  }

  lemma ReadTouches(scope: Scope)
    requires "x" in scope
    ensures Touch(Evaluate(ReadF()), scope, Reading(), Plain(), map[]) == map["f" := Box(Some(ConstTrue()), [scope["x"]])]
  {
    var none, one: seq<Expr> := [], [X()];
    assert one[1..] == none && Children(X()) == none;
    var b := Box(Some(ConstTrue()), [scope["x"]]);
    assert BoundsOf(X(), scope, Plain()) == scope["x"];
    assert BoundsOfArgs(one, scope, Plain()) == [scope["x"]];
    assert TouchArgs(none, scope, Reading(), Plain(), map[]) == map[];
    assert Touch(Evaluate(X()), scope, Reading(), Plain(), map[]) == map[];
    assert TouchArgs(one, scope, Reading(), Plain(), map[]) == map[];
    assert Merge(Plain(), Box(None, []), b) == b;
  }

  lemma {:induction false} SumTouches(n: nat, boxes: BoxMap)
    ensures Touch(Evaluate(Sum(n)), AnyZ(), Reading(), Plain(), boxes) == boxes
  {
    var none: seq<Expr> := [];
    assert TouchArgs(none, AnyZ(), Reading(), Plain(), boxes) == boxes;
    if n == 0 {
      assert Children(Sum(0)) == none;
    } else {
      SumTouches(n - 1, boxes);
      var two, one := [Sum(n - 1), A()], [A()];
      assert Children(Sum(n)) == two && two[1..] == one && one[1..] == none && Children(A()) == none;
      assert TouchArgs(one, AnyZ(), Reading(), Plain(), boxes) == boxes;
    }
  }

  lemma ValueTouches()
    ensures Touch(Evaluate(Value()), AnyZ(), Reading(), Plain(), map[]) == map[]
  {
    var none: seq<Expr> := [];
    var boxes: BoxMap := map[];
    SumTouches(10, boxes);
    var two, one := [Sum(10), Z()], [Z()];
    assert Children(Value()) == two && two[1..] == one && one[1..] == none && Children(Z()) == none;
    assert TouchArgs(none, AnyZ(), Reading(), Plain(), boxes) == boxes;
    assert TouchArgs(one, AnyZ(), Reading(), Plain(), boxes) == boxes;
  }

  lemma LetTouches(name: string, value: Expr, body: Stmt, scope: Scope, m: Mode, c: Tools, boxes: BoxMap)
    requires m.calls
    ensures var i := LetBounds(c, value, scope);
            Touch(LetStmt(name, value, body), scope, m, c, boxes)
            == BindBoxes(Touch(body, scope[name := LetEntry(i, TypeOf(value), name)], m, c, Touch(Evaluate(value), scope, m, c, boxes)), i, name)
  {}

  lemma OneBox(i: Interval, name: string, d: Interval, used: Option<Expr>)
    requires !Substitutes(i)
    ensures BindBoxes(map["f" := Box(used, [d])], i, name) == map["f" := Box(used, [BindInterval(d, i, name)])]
  {
    assert BindBox(Box(used, [d]), i, name).bounds == [BindInterval(d, i, name)];
  }

  lemma MissingTouches(w: World, env: Env)
    ensures Touch(Missing(), AnyZ(), Reading(), Plain(), map[]) == map["f" := Box(Some(ConstTrue()), [BoundLet(Ends(), Int(32), "x")])]
  {
    ValueTouches();
    ValueBounds(w, env);
    var entry := LetEntry(Ends(), Int(32), "x");
    ReadTouches(AnyZ()["x" := entry]);
    LetTouches("x", Value(), Evaluate(ReadF()), AnyZ(), Reading(), Plain(), map[]);
    OneBox(Ends(), "x", entry, Some(ConstTrue()));
  }

  function Five(): Env { Env(map["z" := 5], 0) }

  lemma ReadsAtFive(w: World)
    ensures Touched(Missing(), Reading(), w, Five(), "f", [5])
  {
    SumIs(10, w, Five());
    NodeValue(Max, Value(), w, Five());
    assert Eval(Z(), w, Five()) == 5;
    ReadsAtX(w, Five().Set("x", 5));
  }

  lemma ReadsAtX(w: World, inner: Env)
    requires inner.Get("x") == 5
    ensures Touched(Evaluate(ReadF()), Reading(), w, inner, "f", [5])
  {
    EvalOne(X(), w, inner);
    assert Eval(X(), w, inner) == 5;
  }

  /** With z = 5 and all else 0 the statement reads f at 5; the box reported ends at the value
      of the variable that stands for infinity. */
  lemma LargeLetMissesRead(w: World)
    ensures Touched(Missing(), Reading(), w, Five(), "f", [5])
    ensures !Reported(Touch(Missing(), AnyZ(), Reading(), Plain(), map[]), w, Env(map[], 0), "f", [5])
  {
    var penv := Env(map[], 0);
    ReadsAtFive(w);
    MissingTouches(w, Five());
    ValueBounds(w, Five());
    BoundLetIs(Ends(), Int(32), "x", w, penv);
    InfinityIsZero(w);
    assert !Contains(BoundLet(Ends(), Int(32), "x"), w, penv, 5);
    assert [5][0] == 5;
  }

  lemma InfinityIsZero(w: World)
    ensures Eval(EndExpr(PosInf), w, Env(map[], 0)) == 0
  {}
}
