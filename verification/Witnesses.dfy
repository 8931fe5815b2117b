/** Inputs that satisfy the hypotheses of the main theorems. */
module Witnesses {
  import opened IR
  import opened Trees
  import opened Intervals
  import opened BoundsRules
  import opened RuleSoundness
  import opened IntervalSoundness
  import opened IntervalShape
  import opened Boxes
  import opened BoxesTouched
  import opened RegionSoundness
  import opened RegionScopes
  import opened RegionTheorem
  import opened Pipeline
  import opened FunctionBounds
  import opened BoundsInference
  import opened PipelineReads
  import opened PipelineRegions
  import opened PipelineTheorem
  import Cse
  import CseTheorems

  /** A simplifier that does nothing and a prover that proves nothing. */
  function Idle(): Tools { Tools(map[], (e: Expr) => false, (e: Expr) => e) }

  lemma IdleIsSound(w: World)
    ensures ToolsSound(Idle(), w)
  {}

  function V(n: string): Expr { Var(Int(32), n) }
  function K(v: int): Expr { Imm(Int(32), v) }

  // ---------- intervals ----------

  function Triple(): Expr { Bin(Mul, Int(32), V("x"), K(3)) }

  /** Three times x, for x from 0 to the parameter p. */
  lemma BoundsSoundApplies(w: World)
    ensures IntervalSoundness.Ready(Triple(), map["x" := Range(K(0), V("p"))], Idle(), Context(map["x" := Int(32), "p" := Int(32)], map[]), {"p"}, w,
                                    Env(map["p" := 5], 0), Env(map["x" := 2, "p" := 5], 0))
  {
    var scope, g := map["x" := Range(K(0), V("p"))], Context(map["x" := Int(32), "p" := Int(32)], map[]);
    var penv, env := Env(map["p" := 5], 0), Env(map["x" := 2, "p" := 5], 0);
    IdleIsSound(w);
    assert BoundsOf(V("x"), scope, Idle()) == Range(K(0), V("p")) && BoundsOf(K(3), scope, Idle()) == Point(K(3));
    assert Regular(V("x"), scope, Idle()) && Regular(K(3), scope, Idle());
    assert LetNames(Triple()) == {};
    assert env.Get("x") == 2 && env.Get("p") == 5 == penv.Get("p");
    assert Eval(V("p"), w, penv) == 5 && Eval(K(0), w, penv) == 0;
    assert Consistent(g, scope, w, penv, env);
  }

  // ---------- common subexpressions ----------

  function Ticks(k: nat): (s: string)
    ensures |s| == k + 2
  {
    if k == 0 then "tt" else Ticks(k - 1) + "t"
  }

  function Square(): Expr { Bin(Mul, Int(32), Sum(), Sum()) }
  function Sum(): Expr { Bin(Add, Int(32), V("x"), V("y")) }

  /** (x + y) * (x + y), with names that differ in length. */
  lemma EliminationApplies()
    ensures LetNames(Square()) !! FV(Square()) && CseTheorems.Supply((k: nat) => Ticks(k), FV(Square()))
    ensures Cse.ShouldExtract(Sum())
  {
    var name := (k: nat) => Ticks(k);
    assert LetNames(Sum()) == {} && FV(Sum()) == {"x", "y"};
    forall i: nat, j: nat | name(i) == name(j) ensures i == j { assert |Ticks(i)| == i + 2 && |Ticks(j)| == j + 2; }
    forall i: nat ensures name(i) !in FV(Square()) { assert |name(i)| == i + 2; }
  }

  // ---------- regions ----------

  function ReadG(index: Expr): Expr { Call(Halide, Int(32), "g", 0, [index]) }
  function Reads(): Stmt { For("i", K(0), V("n"), Evaluate(ReadG(V("i")))) }
  function InLoop(): Scope { map["i" := LoopInterval("i", K(0), V("n"), map[], Idle())] }
  function OneFunction(): Context { Context(map["n" := Int(32)], map[("g", 0) := Int(32)]) }

  lemma LeafSane(e: Expr, scope: Scope, g: Context, names: set<string>, ar: map<string, nat>)
    requires e.Imm? || e.Var?
    ensures Sane(Evaluate(e), scope, Reading, Idle(), g, names, ar)
  {
    var none: seq<Expr> := [];
    assert Children(e) == none && SaneArgs(none, scope, Reading, Idle(), g, names, ar);
  }

  lemma LeafRuns(e: Expr, keys: set<string>, w: World, env: Env)
    requires e.Imm? || e.Var?
    ensures Runs(Evaluate(e), keys, w, env)
  {
    var none: seq<Expr> := [];
    assert Children(e) == none && RunsArgs(none, keys, w, env);
  }

  lemma ReadSane(g: Context, names: set<string>, scope: Scope)
    requires "i" in g.vars && g.vars["i"] == Int(32) && ("g", 0) in g.funcs && g.funcs[("g", 0)] == Int(32)
    ensures Sane(Evaluate(ReadG(V("i"))), scope, Reading, Idle(), g, names, map["g" := 1])
  {
    LeafSane(V("i"), scope, g, names, map["g" := 1]);
    var one := [V("i")];
    assert one[1..] == [];
    assert ExprSane(V("i"), scope, Idle(), g, names);
  }

  lemma ReadRuns(keys: set<string>, w: World, env: Env)
    ensures Runs(Evaluate(ReadG(V("i"))), keys, w, env)
    ensures Touched(Evaluate(ReadG(V("i"))), Reading, w, env, "g", [env.Get("i")])
  {
    LeafRuns(V("i"), keys, w, env);
    var one := [V("i")];
    assert one[1..] == [];
    assert Eval(V("i"), w, env) == env.Get("i");
    EvalOne(V("i"), w, env);
  }

  function Three(): Env { Env(map["n" := 3], 0) }

  lemma LoopSane()
    ensures Sane(Reads(), map[], Reading, Idle(), OneFunction(), {"n"}, map["g" := 1])
  {
    var g, ar := OneFunction(), map["g" := 1];
    LeafSane(K(0), map[], g, {"n"}, ar);
    LeafSane(V("n"), map[], g, {"n"}, ar);
    ReadSane(g.Bind("i", Int(32)), {"n"}, InLoop());
  }

  lemma LoopRuns(w: World)
    ensures Runs(Reads(), {}, w, Three()) && Touched(Reads(), Reading, w, Three(), "g", [1])
  {
    var env := Three();
    LeafRuns(K(0), {}, w, env);
    LeafRuns(V("n"), {}, w, env);
    assert env.Get("n") == 3;
    assert Eval(K(0), w, env) == 0 && Eval(V("n"), w, env) == 3;
    forall i ensures Runs(Evaluate(ReadG(V("i"))), {} + {"i"}, w, env.Set("i", i)) { ReadRuns({} + {"i"}, w, env.Set("i", i)); }
    ReadRuns({}, w, env.Set("i", 1));
    assert env.Set("i", 1).Get("i") == 1;
  }

  lemma LoopLive(w: World)
    ensures Live(map[], Idle(), OneFunction(), {"n"}, {"n"}, w, Three(), Three())
  {
    IdleIsSound(w);
  }

  /** A loop over i from 0 below n that reads g at i, for n = 3. */
  lemma TouchSoundApplies(w: World)
    ensures Hit(Reads(), map[], Reading, Idle(), OneFunction(), {"n"}, {"n"}, map["g" := 1], w, Three(), Three(), "g", [1])
  {
    LoopSane();
    LoopRuns(w);
    LoopLive(w);
    var scope: Scope := map[];
    assert scope.Keys == {};
  }

  // ---------- pipelines ----------

  // h(x) = x and g(y) = h(y + 1), where g is the output.

  function H(): Func { Func("h", ["x"], Definition([V("x")], []), true) }
  function G(): Func { Func("g", ["y"], Definition([ReadH()], []), true) }
  function Next(e: Expr): Expr { Bin(Add, Int(32), e, K(1)) }
  function ReadH(): Expr { Call(Halide, Int(32), "h", 0, [Next(V("y"))]) }

  function Outside(): Context {
    Context(map[OutMin(G(), 0).name := Int(32), OutExtent(G(), 0).name := Int(32)], map[("h", 0) := Int(32), ("g", 0) := Int(32)])
  }

  function TwoStages(): Plan { Plan([H(), G()], {1}, [0, 1], {"h", "g"}, Idle(), Outside(), map["h" := 1, "g" := 1]) }

  function Shifted(): Interval { Range(Next(V(StageMin(G(), "y"))), Next(V(StageMax(G(), "y")))) }

  lemma NoArgs(boxes: BoxMap)
    ensures TouchArgs([], StageScope(G()), Reading, Idle(), boxes) == boxes
  {}

  lemma LeafTouches(e: Expr, boxes: BoxMap)
    requires e.Imm? || e.Var?
    ensures Touch(Evaluate(e), StageScope(G()), Reading, Idle(), boxes) == boxes
  {
    NoArgs(boxes);
    assert Children(e) == [];
  }

  lemma NextTouches(boxes: BoxMap)
    ensures TouchArgs([Next(V("y"))], StageScope(G()), Reading, Idle(), boxes) == boxes
  {
    LeafTouches(V("y"), boxes);
    LeafTouches(K(1), boxes);
    var es, two, one := [Next(V("y"))], [V("y"), K(1)], [K(1)];
    assert es[1..] == [] && two[1..] == one && one[1..] == [];
    NoArgs(boxes);
    assert TouchArgs(one, StageScope(G()), Reading, Idle(), boxes) == boxes;
    assert TouchArgs(two, StageScope(G()), Reading, Idle(), boxes) == boxes;
    assert Children(Next(V("y"))) == two;
    assert Touch(Evaluate(Next(V("y"))), StageScope(G()), Reading, Idle(), boxes) == boxes;
  }

  lemma NextBounds()
    ensures BoundsOf(Next(V("y")), StageScope(G()), Idle()) == Shifted()
    ensures BoundsOfArgs([Next(V("y"))], StageScope(G()), Idle()) == [Shifted()]
  {
    var scope := StageScope(G());
    assert BoundsOf(V("y"), scope, Idle()) == Range(V(StageMin(G(), "y")), V(StageMax(G(), "y")));
    assert BoundsOf(K(1), scope, Idle()) == Point(K(1));
    var one := [Next(V("y"))];
    assert one[1..] == [];
  }

  function Box1(): Box { Box(Some(ConstTrue()), [Shifted()]) }

  lemma RequirementsOfG()
    ensures Requirements(G(), Idle()) == map["h" := Box1()]
  {
    NextTouches(map[]);
    NextBounds();
    assert Merge(Idle(), Box(None, []), Box1()) == Box1();
    assert Touch(Evaluate(ReadH()), StageScope(G()), Reading, Idle(), map[]) == map["h" := Box1()];
    var cvs := StageExprs(G().def, Idle());
    assert cvs == [CondValue(ConstTrue(), ReadH())];
    assert RequiredBy(G(), cvs, 0, Idle()) == map[];
    assert RequiredBy(G(), cvs, 1, Idle()) == AddRequired(Idle(), map[], map["h" := Box1()], ConstTrue());
  }

  lemma RegionsAreBounded()
    ensures AllBounded(TwoStages().funcs, Required(TwoStages()))
  {
    var p := TwoStages();
    RequirementsOfG();
    assert Required(p)[1] == map["h" := Box1()];
    assert BoxRequired(p.funcs, Required(p), 1, 0) == Box1();
    assert BoundedFor(p.funcs, Required(p), 0);
    assert BoundedFor(p.funcs, Required(p), 1);
    assert BoundedUpTo(p.funcs, Required(p), 1);
  }

  lemma OwnNames()
    ensures Own(H()) == {StageMin(H(), "x"), StageMax(H(), "x")} && Own(G()) == {StageMin(G(), "y"), StageMax(G(), "y")}
  {}

  lemma OutsideNames()
    ensures forall n :: n in Outside().vars.Keys ==> |n| > 2 && n[0] == 'g' && n[2] != 's'
  {
    var lo, size := OutMin(G(), 0).name, OutExtent(G(), 0).name;
    assert Outside().vars.Keys == {lo, size};
    assert lo[0] == 'g' == size[0] && lo[2] == 'm' && size[2] == 'e';
  }

  lemma OwnLetters()
    ensures forall n :: n in Own(H()) ==> n != [] && n[0] == 'h'
    ensures forall n :: n in Own(G()) ==> |n| > 2 && n[0] == 'g' && n[2] == 's'
  {
    OwnNames();
  }

  lemma DisjointNames()
    ensures Own(H()) !! Outside().vars.Keys + Own(G()) && Own(G()) !! Outside().vars.Keys
    ensures AnyCall !in Outside().vars.Keys
  {
    OwnLetters();
    OutsideNames();
    TwoApart(Own(H()), Own(G()), Outside().vars.Keys);
  }

  lemma NamesAreApart()
    ensures NamesApart(TwoStages().funcs, Outside())
  {
    OwnFromStages();
    DisjointNames();
    var funcs := TwoStages().funcs;
    assert |funcs| == 2 && funcs[0] == H() && funcs[1] == G();
    assert Own(G()) !! Outside().vars.Keys + {};
    forall j | 0 <= j < 2 ensures Own(funcs[j]) !! Outside().vars.Keys + OwnFrom(funcs, j + 1) {
      if j == 0 {} else {}
    }
  }

  lemma OwnFromStages()
    ensures OwnFrom(TwoStages().funcs, 2) == {} && OwnFrom(TwoStages().funcs, 1) == Own(G())
  {}

  lemma TwoApart(h: set<string>, g: set<string>, params: set<string>)
    requires forall n :: n in h ==> n != [] && n[0] == 'h'
    requires forall n :: n in g ==> |n| > 2 && n[0] == 'g' && n[2] == 's'
    requires forall n :: n in params ==> |n| > 2 && n[0] == 'g' && n[2] != 's'
    ensures h !! params + g && g !! params && "" !in params
  {}

  lemma SaneH()
    ensures StageSane(H(), Idle(), Outside(), TwoStages().ar)
  {
    assert StageExprs(H().def, Idle()) == [CondValue(ConstTrue(), V("x"))];
    LeafSane(V("x"), StageScope(H()), ArgContext(Outside(), ["x"]), StageNames(Outside(), H()), TwoStages().ar);
  }

  lemma SaneG()
    ensures StageSane(G(), Idle(), Outside(), TwoStages().ar)
  {
    var scope, g, names, ar := StageScope(G()), ArgContext(Outside(), ["y"]), StageNames(Outside(), G()), TwoStages().ar;
    assert StageExprs(G().def, Idle()) == [CondValue(ConstTrue(), ReadH())];
    ArgContextIs(Outside(), ["y"]);
    ReadHSane(scope, g, names, ar);
  }

  lemma ReadHSane(scope: Scope, g: Context, names: set<string>, ar: map<string, nat>)
    requires scope == StageScope(G()) && "y" in g.vars && g.vars["y"] == Int(32) && ("h", 0) in g.funcs && g.funcs[("h", 0)] == Int(32)
    requires "h" in ar && ar["h"] == 1
    ensures Sane(Evaluate(ReadH()), scope, Reading, Idle(), g, names, ar)
  {
    NextArgsSane(scope, g, names, ar);
    NextSane(scope, g, names);
    assert Indices([Next(V("y"))], scope, Idle(), g, names);
  }

  lemma NextArgsSane(scope: Scope, g: Context, names: set<string>, ar: map<string, nat>)
    ensures SaneArgs([Next(V("y"))], scope, Reading, Idle(), g, names, ar)
  {
    LeafSane(V("y"), scope, g, names, ar);
    LeafSane(K(1), scope, g, names, ar);
    var es, two, one := [Next(V("y"))], [V("y"), K(1)], [K(1)];
    assert es[1..] == [] && two[1..] == one && one[1..] == [];
    assert SaneArgs(one, scope, Reading, Idle(), g, names, ar) && SaneArgs(two, scope, Reading, Idle(), g, names, ar);
    assert Children(Next(V("y"))) == two;
    assert Sane(Evaluate(Next(V("y"))), scope, Reading, Idle(), g, names, ar);
  }

  lemma NextSane(scope: Scope, g: Context, names: set<string>)
    requires scope == StageScope(G()) && "y" in g.vars && g.vars["y"] == Int(32)
    ensures ExprSane(Next(V("y")), scope, Idle(), g, names)
  {
    assert Regular(V("y"), scope, Idle()) && Regular(K(1), scope, Idle());
    assert LetNames(Next(V("y"))) == {};
    assert Quiet(V("y"), scope.Keys) && Quiet(K(1), scope.Keys);
  }

  lemma CallsOfStages()
    ensures Topological(TwoStages().funcs)
  {
    var funcs := TwoStages().funcs;
    assert Calls(V("x")) == {} && Calls(Next(V("y"))) == {};
    var one := [Next(V("y"))];
    assert one[1..] == [] && CallsOf(one) == {};
    assert Calls(ReadH()) == {"h"};
    assert funcs[..1][0] == H() && "h" in Names(funcs[..1]);
  }

  lemma FirstFits()
    ensures StageFits(TwoStages(), 0)
  {
    SaneH();
    assert 0 in [0, 1] by { assert [0, 1][0] == 0; }
  }

  lemma SecondFits()
    ensures StageFits(TwoStages(), 1)
  {
    SaneG();
    assert 1 in [0, 1] by { assert [0, 1][1] == 1; }
    var one := [Next(V("y"))];
    assert one[1..] == [] && FVs(one) == {"y"} && FV(ReadH()) == {"y"};
    assert FV(ReadH()) <= Outside().vars.Keys + {"y"};
  }

  lemma HIsRequired()
    ensures !BoxRequired(TwoStages().funcs, Required(TwoStages()), 1, 0).Empty()
  {
    RequirementsOfG();
    assert Required(TwoStages())[1] == map["h" := Box1()];
  }

  /** The two stages make a well-formed pipeline. */
  lemma PipelineApplies()
    ensures WellFormed(TwoStages()) && Connected(TwoStages())
  {
    CallsOfStages();
    NamesAreApart();
    RegionsAreBounded();
    FirstFits();
    SecondFits();
    StagesConnect();
  }

  lemma StagesConnect()
    ensures Connected(TwoStages())
  {
    HIsRequired();
  }
}
