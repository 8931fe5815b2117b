/** What goes wrong when a condition that no argument changes calls a function: it is kept in
    the region of a producer, where the function has not been computed yet. */
module PipelineGap {
  import opened IR
  import opened Intervals
  import opened BoundsRules
  import opened IntervalSoundness
  import opened Boxes
  import opened BoxesTouched
  import opened Pipeline
  import opened BoundsInference
  import opened PipelineRegions
  import opened PipelineTheorem

  /** The ends of a select over ends that call nothing call a function exactly if a scalar
      condition that no variable of the scope changes does, and the arms differ. */
  lemma KeptConditionCalls(cond: Expr, keys: set<string>, a: Interval, b: Interval)
    requires a.IsBounded() && b.IsBounded()
    requires Calls(a.min.e) == Calls(a.max.e) == Calls(b.min.e) == Calls(b.max.e) == {}
    ensures var r := SelectRule(cond, keys, a, b);
            r.min.Fin? && r.max.Fin? &&
            (Calls(r.min.e) + Calls(r.max.e) == {} <==> KeptQuietly(cond, keys) || a == b)
  {
    var r := SelectRule(cond, keys, a, b);
    if TypeOf(cond).lanes == 1 && !UsesVars(cond, keys) {
      if a.min != b.min { assert r.min == Fin(Select(cond, a.min.e, b.min.e)); }
      if a.max != b.max { assert r.max == Fin(Select(cond, a.max.e, b.max.e)); }
    }
  }

  // ---------- a pipeline that fails ----------

  // f() = 1, h(x) = x, g(y) = h(select(f() > 0, y, y + 1)), and g is the output.

  function Zero(): Expr { Imm(Int(32), 0) }
  function One(): Expr { Imm(Int(32), 1) }
  function F(): Func { Func("f", [], Definition([One()], []), true) }
  function H(): Func { Func("h", ["x"], Definition([Var(Int(32), "x")], []), true) }
  function ReadF(): Expr { Call(Halide, Int(32), "f", 0, []) }
  function Positive(): Expr { Bin(GT, Bool(1), ReadF(), Zero()) }
  function Y(): Expr { Var(Int(32), "y") }
  function Next(e: Expr): Expr { Bin(Add, Int(32), e, One()) }
  function Index(): Expr { Select(Positive(), Y(), Next(Y())) }
  function Value(): Expr { Call(Halide, Int(32), "h", 0, [Index()]) }
  function G(): Func { Func("g", ["y"], Definition([Value()], []), true) }
  function Funcs(): seq<Func> { [F(), H(), G()] }

  /** A simplifier that does nothing and a prover that proves nothing. */
  function Idle(): Tools { Tools(map[], (e: Expr) => false, (e: Expr) => e) }

  function Failing(): Plan {
    Plan(Funcs(), {2}, [2], {"f", "h", "g"}, Idle(), Context(map[], map[]), map["f" := 0, "h" := 1, "g" := 1])
  }

  function Lo(): Expr { Var(Int(32), StageMin(G(), "y")) }
  function Hi(): Expr { Var(Int(32), StageMax(G(), "y")) }
  function Kept(): Interval { Range(Select(Positive(), Lo(), Next(Lo())), Select(Positive(), Hi(), Next(Hi()))) }

  lemma IndexBounds()
    ensures BoundsOf(Index(), StageScope(G()), Idle()) == Kept()
    ensures BoundsOfArgs([Index()], StageScope(G()), Idle()) == [Kept()]
  {
    var scope := StageScope(G());
    assert scope["y"] == Range(Lo(), Hi());
    assert BoundsOf(Y(), scope, Idle()) == Range(Lo(), Hi());
    assert BoundsOf(One(), scope, Idle()) == Point(One());
    assert AddRule(Idle(), Next(Y()), Range(Lo(), Hi()), Point(One())) == Range(Next(Lo()), Next(Hi()));
    assert BoundsOf(Next(Y()), scope, Idle()) == Range(Next(Lo()), Next(Hi()));
    var none: seq<Expr> := [];
    assert ReadF().args == none && !ArgsUseVars(none, scope.Keys);
    assert !UsesVars(ReadF(), scope.Keys) && !UsesVars(Positive(), scope.Keys);
    var one := [Index()];
    assert one[1..] == [];
  }

  function TouchedF(): BoxMap { map["f" := Box(None, [])] }
  function TouchedG(): BoxMap { map["f" := Box(None, []), "h" := Box(Some(ConstTrue()), [Kept()])] }

  lemma NoArgs(boxes: BoxMap)
    ensures TouchArgs([], StageScope(G()), Reading, Idle(), boxes) == boxes
  {}

  lemma OneArgs(e: Expr, boxes: BoxMap)
    ensures TouchArgs([e], StageScope(G()), Reading, Idle(), boxes) == Touch(Evaluate(e), StageScope(G()), Reading, Idle(), boxes)
  {
    var es := [e];
    assert es[1..] == [];
    NoArgs(Touch(Evaluate(e), StageScope(G()), Reading, Idle(), boxes));
  }

  lemma TwoArgs(a: Expr, b: Expr, boxes: BoxMap)
    ensures TouchArgs([a, b], StageScope(G()), Reading, Idle(), boxes)
         == Touch(Evaluate(b), StageScope(G()), Reading, Idle(), Touch(Evaluate(a), StageScope(G()), Reading, Idle(), boxes))
  {
    var es := [a, b];
    assert es[1..] == [b];
    OneArgs(b, Touch(Evaluate(a), StageScope(G()), Reading, Idle(), boxes));
  }

  lemma TouchLeaf(e: Expr, boxes: BoxMap)
    requires e == Zero() || e == One() || e == Y()
    ensures Touch(Evaluate(e), StageScope(G()), Reading, Idle(), boxes) == boxes
  {
    NoArgs(boxes);
  }

  lemma TouchF(boxes: BoxMap)
    requires boxes == map[] || boxes == TouchedF()
    ensures Touch(Evaluate(ReadF()), StageScope(G()), Reading, Idle(), boxes) == TouchedF()
    ensures Touch(Evaluate(Positive()), StageScope(G()), Reading, Idle(), boxes) == TouchedF()
  {
    NoArgs(boxes);
    assert Touch(Evaluate(ReadF()), StageScope(G()), Reading, Idle(), boxes)
        == MergeInto(Idle(), boxes, "f", ArgBox(Some(ConstTrue()), [], StageScope(G()), Idle()));
    TwoArgs(ReadF(), Zero(), boxes);
    TouchLeaf(Zero(), TouchedF());
  }

  lemma TouchIndex(boxes: BoxMap)
    requires boxes == map[] || boxes == TouchedF()
    ensures Touch(Evaluate(Index()), StageScope(G()), Reading, Idle(), boxes) == TouchedF()
  {
    TouchF(boxes);
    var es := [Positive(), Y(), Next(Y())];
    assert es[1..] == [Y(), Next(Y())];
    TwoArgs(Y(), Next(Y()), TouchedF());
    TouchLeaf(Y(), TouchedF());
    TwoArgs(Y(), One(), TouchedF());
    TouchLeaf(One(), TouchedF());
    assert Touch(Evaluate(Next(Y())), StageScope(G()), Reading, Idle(), TouchedF()) == TouchedF();
  }

  lemma KeptBox()
    ensures MergeInto(Idle(), TouchedF(), "h", ArgBox(Some(ConstTrue()), [Index()], StageScope(G()), Idle())) == TouchedG()
  {
    IndexBounds();
    var b := ArgBox(Some(ConstTrue()), [Index()], StageScope(G()), Idle());
    assert Merge(Idle(), Box(None, []), b) == b;
  }

  lemma TouchG()
    ensures BoxesTouchedBy(Evaluate(Value()), StageScope(G()), true, false, "", Idle()) == TouchedG()
  {
    TouchIndex(map[]);
    TouchIndex(TouchedF());
    OneArgs(Index(), map[]);
    OneArgs(Index(), TouchedF());
    KeptBox();
    assert Touch(Evaluate(Value()), StageScope(G()), Reading, Idle(), map[]) == TouchedG();
  }

  lemma RequirementsOfG()
    ensures Requirements(G(), Idle()) == TouchedG()
  {
    TouchG();
    var cvs := StageExprs(G().def, Idle());
    assert cvs == [CondValue(ConstTrue(), Value())];
    assert RequiredBy(G(), cvs, 0, Idle()) == map[];
    assert RequiredBy(G(), cvs, 1, Idle()) == AddRequired(Idle(), map[], TouchedG(), ConstTrue());
  }

  lemma BoxesOfFailing()
    ensures FinalBoxes(Failing()) == [Box(None, []), Box(Some(ConstTrue()), [Kept()]), OutputBox(G())]
  {
    var p := Failing();
    var required := Required(p);
    RequirementsOfG();
    assert required[2] == TouchedG();
    assert BoxRequired(p.funcs, required, 2, 1) == Box(Some(ConstTrue()), [Kept()]);
    BoundsUpToIs(p.funcs, required, 0, 3);
    BoundsUpToIs(p.funcs, required, 1, 3);
    var none: seq<nat> := [];
    assert p.order[..0] == none;
    forall j | 0 <= j < 3 ensures MergedBox(p.funcs, StageBounds(p.funcs, required, j, {2}), none, p.inner, p.c) == Box(None, []) {}
    assert p.funcs[2].name in p.inner;
  }

  /** One point of g is asked for. */
  function Ask(): Env { Env(map[OutMin(G(), 0).name := 0, OutExtent(G(), 0).name := 1], 0) }

  predicate OnePoint(f: Func, arg: string, env: Env, at: int) {
    f.args == [arg] && env.Get(StageMin(f, arg)) == at == env.Get(StageMax(f, arg))
  }

  lemma TwoBindings(a: Binding, b: Binding, w: World, env: Env)
    ensures var e1 := env.Set(a.name, Eval(a.value, w, env));
            RunLets([a, b], w, env) == e1.Set(b.name, Eval(b.value, w, e1))
  {
    TwoRuns([a, b], w, env);
  }

  lemma OneDimension(f: Func, b: Box)
    requires |f.args| == 1 == |b.bounds| && Bounded(b)
    ensures StageLets(f, b, 0) == DimLets(f, b, 0)
  {
    assert StageLets(f, b, 1) == [];
  }

  lemma RegionOfG(w: World)
    ensures var env := RunLets(StageLets(G(), OutputBox(G()), 0), w, Ask());
            OnePoint(G(), "y", env, 0)
  {
    var b := OutputBox(G());
    OneDimension(G(), b);
    OwnDiffer(G(), "y", "y");
    assert OutMin(G(), 0).name != OutExtent(G(), 0).name by { assert OutMin(G(), 0).name[2] == 'm' && OutExtent(G(), 0).name[2] == 'e'; }
    var sum := Bin(Add, Int(32), OutMin(G(), 0), OutExtent(G(), 0));
    assert Eval(sum, w, Ask()) == 1;
    assert Eval(Bin(Sub, Int(32), sum, One()), w, Ask()) == 0;
    assert Ask().Get(OutMin(G(), 0).name) == 0;
    assert OutMin(G(), 0).name != StageMax(G(), "y") by { assert OutMin(G(), 0).name[2] == 'm' && StageMax(G(), "y")[2] == 's'; }
    TwoBindings(Binding(StageMax(G(), "y"), b.bounds[0].max.e), Binding(StageMin(G(), "y"), b.bounds[0].min.e), w, Ask());
  }

  lemma NextValue(e: Expr, w: World, env: Env)
    ensures Eval(Next(e), w, env) == Eval(e, w, env) + 1
  {
    assert Eval(One(), w, env) == 1;
  }

  lemma KeptEnds(w: World, env: Env)
    requires w.call(Halide, "f", 0, []) == 0 && OnePoint(G(), "y", env, 0)
    ensures Eval(Kept().min.e, w, env) == 1 == Eval(Kept().max.e, w, env)
  {
    var none: seq<Expr> := [];
    assert EvalArgs(none, w, env) == [];
    assert Eval(ReadF(), w, env) == 0;
    assert Eval(Zero(), w, env) == 0;
    assert Eval(Positive(), w, env) == 0;
    NextValue(Lo(), w, env);
    NextValue(Hi(), w, env);
  }

  lemma RegionOfH(w: World, env: Env)
    requires w.call(Halide, "f", 0, []) == 0 && OnePoint(G(), "y", env, 0)
    ensures var inner := RunLets(StageLets(H(), Box(Some(ConstTrue()), [Kept()]), 0), w, env);
            OnePoint(H(), "x", inner, 1) && OnePoint(G(), "y", inner, 0)
  {
    var b := Box(Some(ConstTrue()), [Kept()]);
    OneDimension(H(), b);
    OwnDiffer(H(), "x", "x");
    var hi, lo := StageMax(H(), "x"), StageMin(H(), "x");
    assert hi[0] == 'h' == lo[0] && StageMin(G(), "y")[0] == 'g' == StageMax(G(), "y")[0];
    TwoBindings(Binding(hi, Kept().max.e), Binding(lo, Kept().min.e), w, env);
    var e1 := env.Set(hi, Eval(Kept().max.e, w, env));
    KeptEnds(w, env);
    KeptEnds(w, e1);
  }

  lemma LetsOfFailing(boxes: seq<Box>)
    requires boxes == [Box(None, []), Box(Some(ConstTrue()), [Kept()]), OutputBox(G())]
    ensures BoxesFit(Funcs(), boxes)
    ensures LetsFrom(Funcs(), boxes, 0) == StageLets(G(), boxes[2], 0) + StageLets(H(), boxes[1], 0)
  {
    assert Bounded(boxes[1]) && Bounded(boxes[2]);
    assert LetsFrom(Funcs(), boxes, 3) == [];
    assert LetsFrom(Funcs(), boxes, 2) == StageLets(G(), boxes[2], 0);
    assert StageLets(F(), boxes[0], 0) == [];
  }

  lemma InnerOfFailing(base: World)
    requires base.call(Halide, "f", 0, []) == 0
    ensures BoxesFit(Funcs(), FinalBoxes(Failing()))
    ensures var env := Inner(Failing(), base, Ask()); OnePoint(H(), "x", env, 1) && OnePoint(G(), "y", env, 0)
  {
    BoxesOfFailing();
    var boxes := FinalBoxes(Failing());
    LetsOfFailing(boxes);
    var lets, more := StageLets(G(), OutputBox(G()), 0), StageLets(H(), Box(Some(ConstTrue()), [Kept()]), 0);
    RegionOfG(base);
    RegionOfH(base, RunLets(lets, base, Ask()));
    RunSplits(lets, more, base, Ask());
  }

  lemma EvalValue(w: World, env: Env, at: int)
    requires w.call(Halide, "f", 0, []) == 1
    ensures Eval(Value(), w, AtPoint(["y"], [at], env)) == w.call(Halide, "h", 0, [at])
  {
    var args := ["y"];
    var inner := AtPoint(args, [at], env);
    assert args[1..] == [] && [at][1..] == [] && AtPoint(args[1..], [], env.Set("y", at)) == env.Set("y", at);
    assert inner.Get("y") == at;
    var none: seq<Expr> := [];
    assert EvalArgs(none, w, inner) == [];
    assert Eval(ReadF(), w, inner) == 1 && Eval(Zero(), w, inner) == 0;
    assert Eval(Positive(), w, inner) == 1;
    assert Eval(Index(), w, inner) == at;
    var es := [Index()];
    assert es[1..] == none;
    assert EvalArgs(es, w, inner) == [at];
  }

  lemma ValueOfF(w: World, env: Env)
    ensures ValueAt(F(), 0, [], w, env) == 1
  {}

  lemma ValueOfH(w: World, env: Env, at: int)
    ensures ValueAt(H(), 0, [at], w, env) == at
  {
    var args := ["x"];
    assert args[1..] == [] && AtPoint(args[1..], [], env.Set("x", at)) == env.Set("x", at);
    assert AtPoint(args, [at], env).Get("x") == at;
  }

  lemma ValueOfG(w: World, env: Env, at: int)
    requires w.call(Halide, "f", 0, []) == 1
    ensures ValueAt(G(), 0, [at], w, env) == w.call(Halide, "h", 0, [at])
  {
    EvalValue(w, env, at);
  }

  lemma ExecutedFails(junk: Junk, base: World, env: Env)
    requires OnePoint(H(), "x", env, 1) && OnePoint(G(), "y", env, 0)
    ensures Executed(Funcs(), 3, junk, base, env).call(Halide, "g", 0, [0]) == junk("h", 0, [0])
  {
    var w1, w2 := Executed(Funcs(), 1, junk, base, env), Executed(Funcs(), 2, junk, base, env);
    FirstExecuted(junk, base, env);
    assert w2.call(Halide, "f", 0, []) == w1.call(Halide, "f", 0, []);
    NotInRegion(env);
    assert w2.call(Halide, "h", 0, [0]) == junk("h", 0, [0]);
    ValueOfG(w2, env, 0);
    ExecutedAt(Funcs(), 2, junk, base, env, 0, [0]);
  }

  lemma NotInRegion(env: Env)
    requires OnePoint(H(), "x", env, 1)
    ensures !InRegion(H(), env, [0])
  {
    assert env.Get(StageMin(H(), H().args[0])) == 1 && [0][0] == 0;
  }

  lemma FirstExecuted(junk: Junk, base: World, env: Env)
    ensures Executed(Funcs(), 1, junk, base, env).call(Halide, "f", 0, []) == 1
  {
    ValueOfF(base, env);
    ExecutedAt(Funcs(), 0, junk, base, env, 0, []);
  }

  lemma ReferenceIsZero(base: World, env: Env)
    ensures Reference(Funcs(), 3, base, env).call(Halide, "g", 0, [0]) == 0
  {
    var r1, r2 := Reference(Funcs(), 1, base, env), Reference(Funcs(), 2, base, env);
    FirstReference(base, env);
    assert r2.call(Halide, "f", 0, []) == r1.call(Halide, "f", 0, []);
    ValueOfH(r1, env, 0);
    assert r2.call(Halide, "h", 0, [0]) == ValueAt(H(), 0, [0], r1, env);
    ValueOfG(r2, env, 0);
  }

  lemma FirstReference(base: World, env: Env)
    ensures Reference(Funcs(), 1, base, env).call(Halide, "f", 0, []) == 1
  {
    ValueOfF(base, env);
    assert Reference(Funcs(), 0, base, env) == base;
  }

  /** Where f's memory holds 0 before f is computed, the inferred region of h is the point 1;
      but g, which finds f computed, reads h at 0, and yields whatever is there. */
  lemma RegionReadsUncomputed(junk: Junk, base: World)
    requires base.call(Halide, "f", 0, []) == 0 && junk("h", 0, [0]) != 0
    ensures BoxesFit(Funcs(), FinalBoxes(Failing()))
    ensures var env := Inner(Failing(), base, Ask());
            && InRegion(G(), env, [0])
            && Executed(Funcs(), 3, junk, base, env).call(Halide, "g", 0, [0]) != Reference(Funcs(), 3, base, Ask()).call(Halide, "g", 0, [0])
  {
    InnerOfFailing(base);
    ExecutedFails(junk, base, Inner(Failing(), base, Ask()));
    ReferenceIsZero(base, Ask());
  }
}
