/** The regions that the inferred lets give to the stages: every point a stage reads lies in
    the region of the function it reads. */
module PipelineRegions {
  import opened IR
  import opened Intervals
  import opened BoundsRules
  import opened RuleSoundness
  import opened IntervalSoundness
  import opened IntervalShape
  import opened Boxes
  import opened BoxesTouched
  import opened RegionSoundness
  import opened RegionScopes
  import opened RegionTheorem
  import opened Pipeline
  import opened FunctionBounds
  import opened BoundsInference
  import opened PipelineReads

  // ---------- names ----------

  /** The variables that hold the region of a stage. */
  function Own(f: Func): set<string> {
    (set a | a in f.args :: StageMin(f, a)) + (set a | a in f.args :: StageMax(f, a))
  }

  function OwnFrom(funcs: seq<Func>, j: nat): set<string>
    requires j <= |funcs|
    decreases |funcs| - j
  {
    if j == |funcs| then {} else OwnFrom(funcs, j + 1) + Own(funcs[j])
  }

  lemma {:induction false} OwnFromHas(funcs: seq<Func>, j: nat, i: nat)
    requires j <= i < |funcs|
    ensures Own(funcs[i]) <= OwnFrom(funcs, j)
    decreases |funcs| - j
  {
    if j < i { OwnFromHas(funcs, j + 1, i); }
  }

  /** No two stages share a region variable, and no parameter is called like one.  Bounds may
      not call functions, which are computed only inside the lets. */
  ghost predicate NamesApart(funcs: seq<Func>, g: Context) {
    && AnyCall !in g.vars.Keys
    && (forall j :: 0 <= j < |funcs| ==> Own(funcs[j]) !! g.vars.Keys + OwnFrom(funcs, j + 1))
    && forall j, a, b :: 0 <= j < |funcs| && 0 <= a < b < |funcs[j].args| ==> funcs[j].args[a] != funcs[j].args[b]
  }

  lemma {:induction false} OwnIsNamed(funcs: seq<Func>, j: nat)
    requires j <= |funcs|
    ensures AnyCall !in OwnFrom(funcs, j)
    decreases |funcs| - j
  {
    if j < |funcs| { OwnIsNamed(funcs, j + 1); }
  }

  lemma OwnDiffer(f: Func, a: string, b: string)
    ensures StageMin(f, a) != StageMax(f, b)
    ensures StageMin(f, a) == StageMin(f, b) ==> a == b
    ensures StageMax(f, a) == StageMax(f, b) ==> a == b
  {
    EndNamesDiffer(StageVar(f, a), StageVar(f, b));
    var p := f.name + ".s0.";
    assert StageVar(f, a) == p + a && StageVar(f, b) == p + b;
    if StageVar(f, a) == StageVar(f, b) {
      assert (p + a)[|p|..] == a && (p + b)[|p|..] == b;
    }
  }

  function StageNames(g: Context, f: Func): set<string> { g.vars.Keys + Own(f) }

  // ---------- what one stage requires ----------

  /** The stage's values are typed, regular and named apart, and its conditions are over
      the parameters. */
  ghost predicate StageSane(f: Func, c: Tools, g: Context, ar: map<string, nat>) {
    && HasValues(f.def)
    && forall cv :: cv in StageExprs(f.def, c) ==>
         && Sane(Evaluate(cv.value), StageScope(f), Reading, c, ArgContext(g, f.args), StageNames(g, f), ar)
         && Neat(cv.cond, g.vars.Keys - (set a | a in f.args))
  }

  ghost predicate StageGround(f: Func, c: Tools, g: Context, w: World) {
    Base(StageScope(f), c, ArgContext(g, f.args), StageNames(g, f), StageNames(g, f), w)
  }

  lemma StageBase(f: Func, c: Tools, g: Context, w: World)
    requires SimplifierSound(c, w) && FuncsGood(c.fb, g.vars.Keys)
    ensures StageGround(f, c, g, w)
  {
    var names := StageNames(g, f);
    ArgContextIs(g, f.args);
    forall k | k in c.fb ensures Good(c.fb[k], names) { GoodMore(c.fb[k], g.vars.Keys, names); }
  }

  /** Replacing the condition of a box and merging it keeps what was there. */
  lemma AddKept(c: Tools, boxes: BoxMap, required: BoxMap, cond: Expr, names: set<string>, ar: map<string, nat>,
      w: World)
    requires SimplifierSound(c, w) && Neat(cond, names)
    requires BoxesGood(boxes, names, names, ar) && BoxesGood(required, names, names, ar)
    ensures Kept(boxes, AddRequired(c, boxes, required, cond), names, names, ar, w)
  {
    var r := AddRequired(c, boxes, required, cond);
    forall n | n in r ensures BoxGood(r[n], n, names, names, ar) {
      if n in required { MergeGood(c, BoxOf(boxes, n), Box(Some(cond), required[n].bounds), n, names, names, ar, w); }
    }
    forall penv, f, pt | Reported(boxes, w, penv, f, pt) ensures Reported(r, w, penv, f, pt) {
      if f in required {
        var b := Box(Some(cond), required[f].bounds);
        SameSize(boxes[f], b, f, names, names, ar);
        MergeCovers(c, boxes[f], b, w, penv, pt);
      }
    }
  }

  lemma AddReports(c: Tools, boxes: BoxMap, required: BoxMap, cond: Expr, names: set<string>, ar: map<string, nat>,
      w: World, penv: Env, f: string, pt: seq<int>)
    requires SimplifierSound(c, w) && Neat(cond, names)
    requires BoxesGood(boxes, names, names, ar) && BoxesGood(required, names, names, ar)
    requires Reported(required, w, penv, f, pt) && Eval(cond, w, penv) != 0
    ensures Reported(AddRequired(c, boxes, required, cond), w, penv, f, pt)
  {
    var b := Box(Some(cond), required[f].bounds);
    assert Covers(b, w, penv, pt);
    SameSize(BoxOf(boxes, f), b, f, names, names, ar);
    MergeCovers(c, BoxOf(boxes, f), b, w, penv, pt);
  }

  function OneRequirement(f: Func, e: Expr, c: Tools): BoxMap { BoxesTouchedBy(Evaluate(e), StageScope(f), true, false, "", c) }

  lemma OneGood(f: Func, cv: CondValue, c: Tools, g: Context, ar: map<string, nat>, w: World)
    requires StageSane(f, c, g, ar) && StageGround(f, c, g, w) && cv in StageExprs(f.def, c)
    ensures BoxesGood(OneRequirement(f, cv.value, c), StageNames(g, f), StageNames(g, f), ar)
    ensures Neat(cv.cond, StageNames(g, f))
  {
    var names := StageNames(g, f);
    TouchKeeps(Evaluate(cv.value), StageScope(f), Reading, c, ArgContext(g, f.args), names, names, ar, w, map[]);
  }

  lemma RequiredGood(f: Func, n: nat, c: Tools, g: Context, ar: map<string, nat>, w: World)
    requires StageSane(f, c, g, ar) && StageGround(f, c, g, w) && n <= |StageExprs(f.def, c)|
    ensures BoxesGood(RequiredBy(f, StageExprs(f.def, c), n, c), StageNames(g, f), StageNames(g, f), ar)
  {
    var cvs := StageExprs(f.def, c);
    forall k | 0 <= k < |cvs| ensures FitsOne(f, cvs[k], c, StageNames(g, f), ar) { OneGood(f, cvs[k], c, g, ar, w); }
    AllGood(f, cvs, n, c, StageNames(g, f), ar, w);
  }

  ghost predicate FitsOne(f: Func, cv: CondValue, c: Tools, names: set<string>, ar: map<string, nat>) {
    BoxesGood(OneRequirement(f, cv.value, c), names, names, ar) && Neat(cv.cond, names)
  }

  lemma {:induction false} AllGood(f: Func, cvs: seq<CondValue>, n: nat, c: Tools, names: set<string>,
      ar: map<string, nat>, w: World)
    requires SimplifierSound(c, w) && n <= |cvs| && forall k :: 0 <= k < |cvs| ==> FitsOne(f, cvs[k], c, names, ar)
    ensures BoxesGood(RequiredBy(f, cvs, n, c), names, names, ar)
  {
    if n > 0 {
      AllGood(f, cvs, n - 1, c, names, ar, w);
      assert FitsOne(f, cvs[n - 1], c, names, ar);
      AddKept(c, RequiredBy(f, cvs, n - 1, c), OneRequirement(f, cvs[n - 1].value, c), cvs[n - 1].cond, names, ar, w);
      RequiredUnfolds(f, cvs, n, c);
    }
  }

  lemma RequiredUnfolds(f: Func, cvs: seq<CondValue>, n: nat, c: Tools)
    requires 0 < n <= |cvs|
    ensures RequiredBy(f, cvs, n, c) == AddRequired(c, RequiredBy(f, cvs, n - 1, c), OneRequirement(f, cvs[n - 1].value, c), cvs[n - 1].cond)
  {}

  /** A run of the stage at a point. */
  ghost predicate StageLive(f: Func, c: Tools, g: Context, w: World, penv: Env, at: Env) {
    Live(StageScope(f), c, ArgContext(g, f.args), StageNames(g, f), StageNames(g, f), w, penv, at)
  }

  lemma {:induction false} RequiredReports(f: Func, n: nat, i: nat, c: Tools, g: Context, ar: map<string, nat>,
      w: World, penv: Env, at: Env, q: string, pt: seq<int>)
    requires StageSane(f, c, g, ar) && StageLive(f, c, g, w, penv, at) && i < n <= |StageExprs(f.def, c)|
    requires var cv := StageExprs(f.def, c)[i];
             && Eval(cv.cond, w, penv) != 0 && Runs(Evaluate(cv.value), StageScope(f).Keys, w, at)
             && Touched(Evaluate(cv.value), Reading, w, at, q, pt) && pt != []
    ensures Reported(RequiredBy(f, StageExprs(f.def, c), n, c), w, penv, q, pt)
  {
    var cvs, names := StageExprs(f.def, c), StageNames(g, f);
    var before, next := RequiredBy(f, cvs, n - 1, c), OneRequirement(f, cvs[n - 1].value, c);
    RequiredGood(f, n - 1, c, g, ar, w);
    OneGood(f, cvs[n - 1], c, g, ar, w);
    if i < n - 1 {
      RequiredReports(f, n - 1, i, c, g, ar, w, penv, at, q, pt);
      AddKept(c, before, next, cvs[n - 1].cond, names, ar, w);
    } else {
      TouchSound(Evaluate(cvs[i].value), StageScope(f), Reading, c, ArgContext(g, f.args), names, names, ar, w, penv,
          at, q, pt, map[]);
      AddReports(c, before, next, cvs[i].cond, names, ar, w, penv, q, pt);
    }
  }

  // ---------- a stage at a point of its region ----------

  predicate InRegion(f: Func, env: Env, pt: seq<int>) {
    |pt| == |f.args| && forall d :: 0 <= d < |pt| ==> env.Get(StageMin(f, f.args[d])) <= pt[d] <= env.Get(StageMax(f, f.args[d]))
  }

  lemma {:induction false} AtPointGet(args: seq<string>, vs: seq<int>, env: Env, d: nat)
    requires d < |args| == |vs| && forall a, b :: 0 <= a < b < |args| ==> args[a] != args[b]
    ensures AtPoint(args, vs, env).Get(args[d]) == vs[d]
  {
    if d == 0 {
      AtPointKeeps(args[1..], vs[1..], env.Set(args[0], vs[0]));
    } else {
      AtPointGet(args[1..], vs[1..], env.Set(args[0], vs[0]), d - 1);
    }
  }

  lemma ArgInScope(f: Func, pt: seq<int>, w: World, penv: Env, d: nat)
    requires InRegion(f, penv, pt) && d < |f.args|
    ensures Contains(StageScope(f)[f.args[d]], w, penv, pt[d])
  {}

  lemma FuncsInContext(fb: FuncValueBounds, g: Context, g': Context, w: World, penv: Env)
    requires FuncsSound(fb, g, w, penv) && g.funcs == g'.funcs
    ensures FuncsSound(fb, g', w, penv)
  {
    forall k | k in fb ensures FuncWithin(fb[k], k, g', w, penv) { assert FuncWithin(fb[k], k, g, w, penv); }
  }

  lemma PointConsistent(f: Func, pt: seq<int>, g: Context, w: World, penv: Env)
    requires InRegion(f, penv, pt) && forall a, b :: 0 <= a < b < |f.args| ==> f.args[a] != f.args[b]
    ensures Consistent(ArgContext(g, f.args), StageScope(f), w, penv, AtPoint(f.args, pt, penv))
  {
    var at, scope := AtPoint(f.args, pt, penv), StageScope(f);
    ArgContextIs(g, f.args);
    AtPointKeeps(f.args, pt, penv);
    forall n | n in scope ensures Brackets(scope[n], Int(32), w, penv, at.Get(n)) {
      var d :| 0 <= d < |f.args| && f.args[d] == n;
      AtPointGet(f.args, pt, penv, d);
      ArgInScope(f, pt, w, penv, d);
      AnyInt(scope[n], w, penv);
    }
  }

  lemma PointIsLive(f: Func, pt: seq<int>, c: Tools, g: Context, w: World, penv: Env)
    requires ToolsSound(c, w) && FuncsGood(c.fb, g.vars.Keys) && FuncsSound(c.fb, g, w, penv)
    requires InRegion(f, penv, pt) && forall a, b :: 0 <= a < b < |f.args| ==> f.args[a] != f.args[b]
    ensures StageLive(f, c, g, w, penv, AtPoint(f.args, pt, penv))
  {
    StageBase(f, c, g, w);
    ArgContextIs(g, f.args);
    FuncsInContext(c.fb, g, ArgContext(g, f.args), w, penv);
    PointConsistent(f, pt, g, w, penv);
  }

  /** Whatever a value in force reads at a point of the region is required of its producer. */
  lemma StageRequires(f: Func, v: Expr, pt: seq<int>, c: Tools, g: Context, ar: map<string, nat>, w: World, penv: Env,
      q: string, read: seq<int>)
    requires StageSane(f, c, g, ar) && StageLive(f, c, g, w, penv, AtPoint(f.args, pt, penv))
    requires var at := AtPoint(f.args, pt, penv);
             && v in Chosen(f.def, w, at).values && Runs(Evaluate(v), StageScope(f).Keys, w, at)
             && Touched(Evaluate(v), Reading, w, at, q, read) && read != []
    ensures Reported(Requirements(f, c), w, penv, q, read)
  {
    var at, cvs := AtPoint(f.args, pt, penv), StageExprs(f.def, c);
    StageExprsAreChosen(f.def, c, v, w, at);
    var i :| 0 <= i < |cvs| && Eval(cvs[i].cond, w, at) != 0 && cvs[i].value == v;
    assert cvs[i] in cvs;
    AtPointKeeps(f.args, pt, penv);
    NeatAgree(cvs[i].cond, g.vars.Keys - (set a | a in f.args), w, at, penv);
    RequiredReports(f, |cvs|, i, c, g, ar, w, penv, at, q, read);
  }
}
