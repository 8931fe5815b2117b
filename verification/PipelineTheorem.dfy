/** Bounds inference preserves meaning: computing every stage over the region its lets define,
    in realization order, reads no point that was not computed before, and every computed
    value is that of the pure recursive definitions. */
module PipelineTheorem {
  import opened IR
  import opened Intervals
  import opened BoundsRules
  import opened RuleSoundness
  import opened IntervalSoundness
  import opened IntervalShape
  import opened Boxes
  import opened BoxesTouched
  import opened RegionSoundness
  import opened RegionScopes
  import opened Pipeline
  import opened FunctionBounds
  import opened BoundsInference
  import opened PipelineReads
  import opened PipelineRegions

  /** A pipeline and what is inferred from: the outputs, the order in which boxes are
      merged, and the functions produced inside the outermost loop. */
  datatype Plan = Plan(funcs: seq<Func>, outputs: set<nat>, order: seq<nat>, inner: set<string>, c: Tools, g: Context, ar: map<string, nat>)

  function Required(p: Plan): seq<BoxMap> { AllRequirements(p.funcs, p.c) }

  function FinalBoxes(p: Plan): (bs: seq<Box>)
    ensures |bs| == |p.funcs|
  {
    FinalBoxesOf(p.funcs, p.outputs, p.order, p.inner, p.c)
  }

  /** The pipeline is well formed: every function is pure, sane and pure of name clashes, and
      every function is produced inside the outermost loop. */
  ghost predicate WellFormed(p: Plan) {
    && Topological(p.funcs) && NamesApart(p.funcs, p.g)
    && (forall j :: 0 <= j < |p.funcs| ==> StageFits(p, j))
    && AllBounded(p.funcs, Required(p))
  }

  ghost predicate StageFits(p: Plan, j: nat)
    requires j < |p.funcs|
  {
    var f := p.funcs[j];
    && f.pure && StageSane(f, p.c, p.g, p.ar)
    && f.name in p.ar && p.ar[f.name] == |f.args|
    && f.name in p.inner && j in p.order
    && DefOver(f.def, p.g.vars.Keys + (set a | a in f.args))
    && (j in p.outputs ==> forall d :: 0 <= d < |f.args| ==> OutMin(f, d).name in p.g.vars.Keys && OutExtent(f, d).name in p.g.vars.Keys)
  }

  /** The values mention arguments and parameters only, and the conditions call nothing. */
  predicate DefOver(d: Definition, names: set<string>)
    decreases d
  {
    && (forall k :: 0 <= k < |d.values| ==> FV(d.values[k]) <= names)
    && forall i :: 0 <= i < |d.specializations| ==>
         && FV(d.specializations[i].cond) <= names && Calls(d.specializations[i].cond) == {}
         && DefOver(d.specializations[i].def, names)
  }

  ghost predicate RunSound(p: Plan, w: World, penv: Env) {
    ToolsSound(p.c, w) && FuncsGood(p.c.fb, p.g.vars.Keys) && FuncsSound(p.c.fb, p.g, w, penv)
  }

  // ---------- boxes ----------

  /** What the box of stage j may mention: parameters and regions of later stages. */
  function Outer(p: Plan, j: nat): set<string>
    requires j < |p.funcs|
  {
    p.g.vars.Keys + OwnFrom(p.funcs, j + 1)
  }

  ghost predicate GoodFor(p: Plan, j: nat, b: Box)
    requires j < |p.funcs|
  {
    Bounded(b) && BoxGood(b, p.funcs[j].name, Outer(p, j), Outer(p, j), p.ar)
  }

  lemma OutputGood(p: Plan, j: nat)
    requires WellFormed(p) && j in p.outputs && j < |p.funcs|
    ensures GoodFor(p, j, OutputBox(p.funcs[j]))
  {
    var f, names := p.funcs[j], Outer(p, j);
    assert StageFits(p, j);
    forall d | 0 <= d < |f.args| ensures OutputBox(f).bounds[d].IsBounded() && Good(OutputBox(f).bounds[d], names) {
      OutputEnds(f, d, names);
    }
  }

  lemma OutputEnds(f: Func, d: nat, names: set<string>)
    requires d < |f.args| && OutMin(f, d).name in names && OutExtent(f, d).name in names
    ensures OutputBox(f).bounds[d].IsBounded() && Good(OutputBox(f).bounds[d], names)
  {
    var lo, extent, one := OutMin(f, d), OutExtent(f, d), Imm(Int(32), 1);
    NeatBin(Add, Int(32), lo, extent, names);
    NeatBin(Sub, Int(32), Bin(Add, Int(32), lo, extent), one, names);
  }

  lemma BoxMore(b: Box, n: string, names: set<string>, names': set<string>, ar: map<string, nat>)
    requires BoxGood(b, n, names, names, ar) && names <= names'
    ensures BoxGood(b, n, names', names', ar)
  {
    forall i | 0 <= i < |b.bounds| ensures Good(b.bounds[i], names') { GoodMore(b.bounds[i], names, names'); }
  }

  lemma RequiredBoxGood(p: Plan, i: nat, j: nat, w: World)
    requires WellFormed(p) && j < i < |p.funcs| && SimplifierSound(p.c, w) && FuncsGood(p.c.fb, p.g.vars.Keys)
    ensures var names := StageNames(p.g, p.funcs[i]);
            BoxGood(BoxRequired(p.funcs, Required(p), i, j), p.funcs[j].name, names, names, p.ar)
  {
    var f := p.funcs[i];
    assert StageFits(p, i);
    StageBase(f, p.c, p.g, w);
    RequiredGood(f, |StageExprs(f.def, p.c)|, p.c, p.g, p.ar, w);
    assert Required(p)[i] == Requirements(f, p.c);
  }

  lemma ConsumerGood(p: Plan, i: nat, j: nat, w: World)
    requires WellFormed(p) && j < i < |p.funcs| && SimplifierSound(p.c, w) && FuncsGood(p.c.fb, p.g.vars.Keys)
    ensures GoodFor(p, j, BoxRequired(p.funcs, Required(p), i, j))
  {
    var f := p.funcs[i];
    assert StageFits(p, j);
    OwnFromHas(p.funcs, j + 1, i);
    var b := BoxRequired(p.funcs, Required(p), i, j);
    RequiredBoxGood(p, i, j, w);
    BoxMore(b, p.funcs[j].name, StageNames(p.g, f), Outer(p, j), p.ar);
    BoundedAt(p.funcs, Required(p), |p.funcs|, i);
  }

  lemma BoundsGood(p: Plan, j: nat, i: nat, w: World)
    requires WellFormed(p) && j < |p.funcs| && SimplifierSound(p.c, w) && FuncsGood(p.c.fb, p.g.vars.Keys)
    requires i in StageBounds(p.funcs, Required(p), j, p.outputs)
    ensures GoodFor(p, j, StageBounds(p.funcs, Required(p), j, p.outputs)[i])
  {
    if i == j && j in p.outputs {
      OutputGood(p, j);
    } else {
      BoundsUpToIs(p.funcs, Required(p), j, |p.funcs|);
      ConsumerGood(p, i, j, w);
    }
  }

  lemma MergeBounded(c: Tools, a: Box, b: Box)
    requires Bounded(a) && Bounded(b)
    ensures Bounded(Merge(c, a, b))
  {
    if !a.Empty() && !b.Empty() && |a.bounds| == |b.bounds| {
      forall i | 0 <= i < |a.bounds| ensures Merge(c, a, b).bounds[i].IsBounded() {
        assert a.bounds[i].IsBounded() && b.bounds[i].IsBounded();
      }
    }
  }

  function MergedFor(p: Plan, j: nat, order: seq<nat>): Box
    requires j < |p.funcs|
  {
    MergedBox(p.funcs, StageBounds(p.funcs, Required(p), j, p.outputs), order, p.inner, p.c)
  }

  lemma {:induction false} MergedGood(p: Plan, j: nat, order: seq<nat>, w: World)
    requires WellFormed(p) && j < |p.funcs| && SimplifierSound(p.c, w) && FuncsGood(p.c.fb, p.g.vars.Keys)
    ensures GoodFor(p, j, MergedFor(p, j, order))
  {
    if order != [] {
      var i, rest := order[|order| - 1], order[..|order| - 1];
      var bounds := StageBounds(p.funcs, Required(p), j, p.outputs);
      MergedGood(p, j, rest, w);
      if i in bounds {
        BoundsGood(p, j, i, w);
        MergeBounded(p.c, MergedFor(p, j, rest), bounds[i]);
        MergeGood(p.c, MergedFor(p, j, rest), bounds[i], p.funcs[j].name, Outer(p, j), Outer(p, j), p.ar, w);
      }
    }
  }

  /** The merged box covers what the box of any consumer covers. */
  lemma {:induction false} MergedCovers(p: Plan, j: nat, order: seq<nat>, i: nat, w: World, env: Env, pt: seq<int>)
    requires WellFormed(p) && j < |p.funcs| && SimplifierSound(p.c, w) && FuncsGood(p.c.fb, p.g.vars.Keys)
    requires i in order && i < |p.funcs| && i in StageBounds(p.funcs, Required(p), j, p.outputs) && pt != []
    requires Covers(StageBounds(p.funcs, Required(p), j, p.outputs)[i], w, env, pt)
    ensures Covers(MergedFor(p, j, order), w, env, pt)
  {
    var k, rest := order[|order| - 1], order[..|order| - 1];
    var bounds := StageBounds(p.funcs, Required(p), j, p.outputs);
    var a := MergedFor(p, j, rest);
    MergedGood(p, j, rest, w);
    assert StageFits(p, i);
    if k in bounds {
      BoundsGood(p, j, k, w);
      SameSize(a, bounds[k], p.funcs[j].name, Outer(p, j), Outer(p, j), p.ar);
      if k == i || i !in rest {
        MergeCovers(p.c, a, bounds[k], w, env, pt);
      } else {
        MergedCovers(p, j, rest, i, w, env, pt);
        MergeCovers(p.c, a, bounds[k], w, env, pt);
      }
    } else {
      MergedCovers(p, j, rest, i, w, env, pt);
    }
  }

  lemma FinalGood(p: Plan, w: World)
    requires WellFormed(p) && SimplifierSound(p.c, w) && FuncsGood(p.c.fb, p.g.vars.Keys)
    ensures BoxesFit(p.funcs, FinalBoxes(p))
    ensures forall j :: 0 <= j < |p.funcs| ==> GoodFor(p, j, FinalBoxes(p)[j])
  {
    forall j | 0 <= j < |p.funcs|
      ensures GoodFor(p, j, FinalBoxes(p)[j]) && (FinalBoxes(p)[j].Empty() || |FinalBoxes(p)[j].bounds| == |p.funcs[j].args|) {
      MergedGood(p, j, p.order, w);
      assert StageFits(p, j);
    }
  }

  // ---------- the lets ----------

  /** The environment inside the lets. */
  function RunLets(lets: seq<Binding>, w: World, env: Env): Env
    decreases lets
  {
    if lets == [] then env else RunLets(lets[1..], w, env.Set(lets[0].name, Eval(lets[0].value, w, env)))
  }

  lemma {:induction false} RunSplits(a: seq<Binding>, b: seq<Binding>, w: World, env: Env)
    ensures RunLets(a + b, w, env) == RunLets(b, w, RunLets(a, w, env))
    decreases a
  {
    if a == [] {
      assert a + b == b;
    } else {
      assert (a + b)[1..] == a[1..] + b;
      RunSplits(a[1..], b, w, env.Set(a[0].name, Eval(a[0].value, w, env)));
    }
  }

  /** Running the statement from one environment arrives at the body in another. */
  predicate Arrives(s: Stmt, w: World, env: Env, body: Stmt, inner: Env)
    decreases s
  {
    || (s == body && env == inner)
    || (s.LetStmt? && Arrives(s.body, w, env.Set(s.name, Eval(s.value, w, env)), body, inner))
  }

  lemma {:induction false} NestArrives(lets: seq<Binding>, body: Stmt, w: World, env: Env)
    ensures Arrives(Nest(lets, body), w, env, body, RunLets(lets, w, env))
    decreases lets
  {
    if lets != [] { NestArrives(lets[1..], body, w, env.Set(lets[0].name, Eval(lets[0].value, w, env))); }
  }

  function DimValueMin(b: Box, d: nat, w: World, env: Env): int
    requires d < |b.bounds| && Bounded(b)
  {
    Eval(b.bounds[d].min.e, w, env)
  }

  function DimValueMax(b: Box, d: nat, w: World, env: Env): int
    requires d < |b.bounds| && Bounded(b)
  {
    Eval(b.bounds[d].max.e, w, env)
  }

  ghost predicate ArgsApart(f: Func) { forall a, b :: 0 <= a < b < |f.args| ==> f.args[a] != f.args[b] }

  /** The region variables of the dimensions from d on hold the ends of the box. */
  ghost predicate DimsHold(f: Func, b: Box, d: nat, w: World, env: Env, inner: Env)
    requires |b.bounds| == |f.args| && Bounded(b)
  {
    forall k :: d <= k < |b.bounds| ==>
      && inner.Get(StageMin(f, f.args[k])) == DimValueMin(b, k, w, env)
      && inner.Get(StageMax(f, f.args[k])) == DimValueMax(b, k, w, env)
  }

  lemma TwoRuns(lets: seq<Binding>, w: World, env: Env)
    requires |lets| == 2
    ensures var e1 := env.Set(lets[0].name, Eval(lets[0].value, w, env));
            RunLets(lets, w, env) == e1.Set(lets[1].name, Eval(lets[1].value, w, e1))
  {
    var rest := lets[1..];
    assert rest[0] == lets[1] && rest[1..] == [];
    var e1 := env.Set(lets[0].name, Eval(lets[0].value, w, env));
    assert RunLets(rest, w, e1) == RunLets(rest[1..], w, e1.Set(rest[0].name, Eval(rest[0].value, w, e1)));
  }

  /** The lets of one stage evaluate its box, whose ends do not mention its own region. */
  lemma {:induction false} StageLetsHold(f: Func, b: Box, d: nat, names: set<string>, w: World, env: Env)
    requires |b.bounds| == |f.args| && d <= |b.bounds| && Bounded(b) && ArgsApart(f)
    requires Own(f) !! names && forall k :: 0 <= k < |b.bounds| ==> Shaped(b.bounds[k], names)
    ensures var inner := RunLets(StageLets(f, b, d), w, env);
            && DimsHold(f, b, d, w, env, inner)
            && forall n :: n !in Own(f) ==> inner.Get(n) == env.Get(n)
    decreases |b.bounds| - d
  {
    if d < |b.bounds| {
      var before := RunLets(StageLets(f, b, d + 1), w, env);
      StageLetsHold(f, b, d + 1, names, w, env);
      RunSplits(StageLets(f, b, d + 1), DimLets(f, b, d), w, env);
      DimLetsHold(f, b, d, names, w, env, before);
      DimsExtend(f, b, d, w, env, before, RunLets(DimLets(f, b, d), w, before));
    }
  }

  /** One more dimension: its variables are set, those of later dimensions untouched. */
  lemma DimsExtend(f: Func, b: Box, d: nat, w: World, env: Env, before: Env, inner: Env)
    requires d < |b.bounds| == |f.args| && Bounded(b) && ArgsApart(f) && DimsHold(f, b, d + 1, w, env, before)
    requires inner.Get(StageMin(f, f.args[d])) == DimValueMin(b, d, w, env)
    requires inner.Get(StageMax(f, f.args[d])) == DimValueMax(b, d, w, env)
    requires forall n :: n != StageMin(f, f.args[d]) && n != StageMax(f, f.args[d]) ==> inner.Get(n) == before.Get(n)
    ensures DimsHold(f, b, d, w, env, inner)
  {
    forall k | d + 1 <= k < |b.bounds|
      ensures inner.Get(StageMin(f, f.args[k])) == before.Get(StageMin(f, f.args[k]))
      ensures inner.Get(StageMax(f, f.args[k])) == before.Get(StageMax(f, f.args[k])) {
      OwnDiffer(f, f.args[k], f.args[d]);
      OwnDiffer(f, f.args[d], f.args[k]);
    }
  }

  lemma DimLetsHold(f: Func, b: Box, d: nat, names: set<string>, w: World, env: Env, before: Env)
    requires d < |b.bounds| == |f.args| && Bounded(b) && Own(f) !! names && Shaped(b.bounds[d], names)
    requires forall n :: n !in Own(f) ==> before.Get(n) == env.Get(n)
    ensures var lo, hi, inner := StageMin(f, f.args[d]), StageMax(f, f.args[d]), RunLets(DimLets(f, b, d), w, before);
            && lo in Own(f) && hi in Own(f)
            && inner.Get(lo) == DimValueMin(b, d, w, env) && inner.Get(hi) == DimValueMax(b, d, w, env)
            && forall n :: n != lo && n != hi ==> inner.Get(n) == before.Get(n)
  {
    var i, a := b.bounds[d], f.args[d];
    var lo, hi := StageMin(f, a), StageMax(f, a);
    OwnDiffer(f, a, a);
    TwoRuns(DimLets(f, b, d), w, before);
    NeatAgree(i.max.e, names, w, env, before);
    var e1 := before.Set(hi, Eval(i.max.e, w, before));
    if i.IsPoint() {
      assert Eval(Var(Int(32), hi), w, e1) == e1.Get(hi);
    } else {
      NeatAgree(i.min.e, names, w, env, e1);
    }
  }

  /** The environment inside the lets of the stages from j on. */
  function EnvFrom(p: Plan, j: nat, w: World, penv: Env): Env
    requires BoxesFit(p.funcs, FinalBoxes(p)) && j <= |p.funcs|
  {
    RunLets(LetsFrom(p.funcs, FinalBoxes(p), j), w, penv)
  }

  lemma NoLets(f: Func, b: Box, w: World, env: Env)
    requires b.Empty()
    ensures RunLets(StageLets(f, b, 0), w, env) == env
  {}

  /** Each stage's lets change its own region variables only. */
  lemma EnvStep(p: Plan, j: nat, w: World, penv: Env)
    requires WellFormed(p) && RunSound(p, w, penv) && j < |p.funcs| && BoxesFit(p.funcs, FinalBoxes(p))
    requires GoodFor(p, j, FinalBoxes(p)[j])
    ensures EnvFrom(p, j, w, penv).lane == EnvFrom(p, j + 1, w, penv).lane
    ensures forall n :: n !in Own(p.funcs[j]) ==> EnvFrom(p, j, w, penv).Get(n) == EnvFrom(p, j + 1, w, penv).Get(n)
    ensures var b := FinalBoxes(p)[j];
            |b.bounds| == |p.funcs[j].args| ==> DimsHold(p.funcs[j], b, 0, w, EnvFrom(p, j + 1, w, penv), EnvFrom(p, j, w, penv))
  {
    var f, b, env := p.funcs[j], FinalBoxes(p)[j], EnvFrom(p, j + 1, w, penv);
    RunSplits(LetsFrom(p.funcs, FinalBoxes(p), j + 1), StageLets(f, b, 0), w, penv);
    RunKeepsLane(StageLets(f, b, 0), w, env);
    if b.Empty() {
      NoLets(f, b, w, env);
    } else {
      forall k | 0 <= k < |b.bounds| ensures Shaped(b.bounds[k], Outer(p, j)) { assert Good(b.bounds[k], Outer(p, j)); }
      StageLetsHold(f, b, 0, Outer(p, j), w, env);
    }
  }

  lemma {:induction false} RunKeepsLane(lets: seq<Binding>, w: World, env: Env)
    ensures RunLets(lets, w, env).lane == env.lane
    decreases lets
  {
    if lets != [] { RunKeepsLane(lets[1..], w, env.Set(lets[0].name, Eval(lets[0].value, w, env))); }
  }

  /** What is set for stage j and before it is not changed by the lets further in. */
  lemma {:induction false} EnvKeeps(p: Plan, i: nat, j: nat, w: World, penv: Env)
    requires WellFormed(p) && RunSound(p, w, penv) && i <= j <= |p.funcs| && BoxesFit(p.funcs, FinalBoxes(p))
    requires forall k :: 0 <= k < |p.funcs| ==> GoodFor(p, k, FinalBoxes(p)[k])
    ensures EnvFrom(p, i, w, penv).lane == EnvFrom(p, j, w, penv).lane
    ensures forall n :: n in p.g.vars.Keys + OwnFrom(p.funcs, j) ==> EnvFrom(p, i, w, penv).Get(n) == EnvFrom(p, j, w, penv).Get(n)
    decreases j - i
  {
    if i < j {
      EnvKeeps(p, i + 1, j, w, penv);
      EnvStep(p, i, w, penv);
      OwnFromShrinks(p.funcs, i + 1, j);
    }
  }

  lemma {:induction false} OwnFromShrinks(funcs: seq<Func>, i: nat, j: nat)
    requires i <= j <= |funcs|
    ensures OwnFrom(funcs, j) <= OwnFrom(funcs, i)
    decreases j - i
  {
    if i < j { OwnFromShrinks(funcs, i + 1, j); }
  }

  predicate CallNothing(lets: seq<Binding>) { forall i :: 0 <= i < |lets| ==> Calls(lets[i].value) == {} }

  lemma {:induction false} StageLetsCallNothing(f: Func, b: Box, d: nat, names: set<string>)
    requires |b.bounds| == |f.args| && d <= |b.bounds| && Bounded(b) && AnyCall !in names
    requires forall k :: 0 <= k < |b.bounds| ==> Shaped(b.bounds[k], names)
    ensures CallNothing(StageLets(f, b, d))
    decreases |b.bounds| - d
  {
    if d < |b.bounds| {
      StageLetsCallNothing(f, b, d + 1, names);
      assert CallNothing(DimLets(f, b, d));
    }
  }

  lemma RegionCallsNothing(p: Plan, j: nat)
    requires NamesApart(p.funcs, p.g) && j < |p.funcs| && BoxesFit(p.funcs, FinalBoxes(p))
    requires GoodFor(p, j, FinalBoxes(p)[j])
    ensures CallNothing(StageLets(p.funcs[j], FinalBoxes(p)[j], 0))
  {
    var b := FinalBoxes(p)[j];
    OwnIsNamed(p.funcs, j + 1);
    if !b.Empty() {
      forall k | 0 <= k < |b.bounds| ensures Shaped(b.bounds[k], Outer(p, j)) { assert Good(b.bounds[k], Outer(p, j)); }
      StageLetsCallNothing(p.funcs[j], b, 0, Outer(p, j));
    }
  }

  lemma {:induction false} LetsCallNothing(funcs: seq<Func>, boxes: seq<Box>, j: nat)
    requires j <= |funcs| && BoxesFit(funcs, boxes)
    requires forall k :: 0 <= k < |funcs| ==> CallNothing(StageLets(funcs[k], boxes[k], 0))
    ensures CallNothing(LetsFrom(funcs, boxes, j))
    decreases |funcs| - j
  {
    if j < |funcs| { LetsCallNothing(funcs, boxes, j + 1); }
  }

  lemma {:induction false} LetsNeedNoFunction(lets: seq<Binding>, w: World, w': World, env: Env)
    requires AgreeOn({}, w, w') && CallNothing(lets)
    ensures RunLets(lets, w, env) == RunLets(lets, w', env)
    decreases lets
  {
    if lets != [] {
      SameCalls(lets[0].value, {}, w, w', env);
      LetsNeedNoFunction(lets[1..], w, w', env.Set(lets[0].name, Eval(lets[0].value, w, env)));
    }
  }

  /** The lets run before any function is computed, and give the regions they would give
      afterwards. */
  lemma LetsRunFirst(p: Plan, base: World, w: World, penv: Env)
    requires WellFormed(p) && w == Reference(p.funcs, |p.funcs|, base, penv) && BoxesFit(p.funcs, FinalBoxes(p))
    requires forall k :: 0 <= k < |p.funcs| ==> GoodFor(p, k, FinalBoxes(p)[k])
    ensures Inner(p, base, penv) == Inner(p, w, penv)
  {
    forall k | 0 <= k < |p.funcs| ensures CallNothing(StageLets(p.funcs[k], FinalBoxes(p)[k], 0)) { RegionCallsNothing(p, k); }
    LetsCallNothing(p.funcs, FinalBoxes(p), 0);
    ReferenceFacts(p.funcs, |p.funcs|, base, penv);
    LetsNeedNoFunction(LetsFrom(p.funcs, FinalBoxes(p), 0), base, w, penv);
  }

  /** The environment in which the whole pipeline runs. */
  function Inner(p: Plan, w: World, penv: Env): Env
    requires BoxesFit(p.funcs, FinalBoxes(p))
  {
    EnvFrom(p, 0, w, penv)
  }

  /** In it, the region variables of every stage hold the ends of the stage's box. */
  lemma RegionsHold(p: Plan, j: nat, w: World, penv: Env)
    requires WellFormed(p) && RunSound(p, w, penv) && j < |p.funcs| && BoxesFit(p.funcs, FinalBoxes(p))
    requires forall k :: 0 <= k < |p.funcs| ==> GoodFor(p, k, FinalBoxes(p)[k])
    ensures var b := FinalBoxes(p)[j];
            |b.bounds| == |p.funcs[j].args| ==> DimsHold(p.funcs[j], b, 0, w, Inner(p, w, penv), Inner(p, w, penv))
  {
    var f, b := p.funcs[j], FinalBoxes(p)[j];
    EnvStep(p, j, w, penv);
    EnvKeeps(p, 0, j, w, penv);
    EnvKeeps(p, 0, j + 1, w, penv);
    if |b.bounds| == |f.args| {
      assert Own(f) <= OwnFrom(p.funcs, j);
      DimsTransfer(f, b, Outer(p, j), w, EnvFrom(p, j + 1, w, penv), EnvFrom(p, j, w, penv), Inner(p, w, penv));
    }
  }

  lemma DimsTransfer(f: Func, b: Box, names: set<string>, w: World, env: Env, mid: Env, inner: Env)
    requires |b.bounds| == |f.args| && Bounded(b) && DimsHold(f, b, 0, w, env, mid)
    requires forall k :: 0 <= k < |b.bounds| ==> Good(b.bounds[k], names)
    requires forall n :: n in names ==> inner.Get(n) == env.Get(n)
    requires forall n :: n in Own(f) ==> inner.Get(n) == mid.Get(n)
    ensures DimsHold(f, b, 0, w, inner, inner)
  {
    forall k | 0 <= k < |b.bounds|
      ensures DimValueMin(b, k, w, inner) == DimValueMin(b, k, w, env) && DimValueMax(b, k, w, inner) == DimValueMax(b, k, w, env) {
      NeatAgree(b.bounds[k].min.e, names, w, env, inner);
      NeatAgree(b.bounds[k].max.e, names, w, env, inner);
    }
  }

  /** A point that the stage's box covers lies in its region. */
  lemma CoveredIsInRegion(p: Plan, j: nat, w: World, penv: Env, pt: seq<int>)
    requires WellFormed(p) && RunSound(p, w, penv) && j < |p.funcs| && BoxesFit(p.funcs, FinalBoxes(p))
    requires forall k :: 0 <= k < |p.funcs| ==> GoodFor(p, k, FinalBoxes(p)[k])
    requires Covers(FinalBoxes(p)[j], w, Inner(p, w, penv), pt) && pt != []
    ensures InRegion(p.funcs[j], Inner(p, w, penv), pt)
  {
    var b := FinalBoxes(p)[j];
    RegionsHold(p, j, w, penv);
    forall d | 0 <= d < |pt|
      ensures DimValueMin(b, d, w, Inner(p, w, penv)) <= pt[d] <= DimValueMax(b, d, w, Inner(p, w, penv)) {
      assert Contains(b.bounds[d], w, Inner(p, w, penv), pt[d]);
    }
  }

  /** Everything is in place for a run of the pipeline. */
  ghost predicate Ready(p: Plan, w: World, penv: Env) {
    && WellFormed(p) && RunSound(p, w, penv) && BoxesFit(p.funcs, FinalBoxes(p))
    && forall k :: 0 <= k < |p.funcs| ==> GoodFor(p, k, FinalBoxes(p)[k])
  }

  /** Inside the lets the parameters are as outside. */
  lemma InnerKeepsParameters(p: Plan, w: World, penv: Env)
    requires Ready(p, w, penv)
    ensures Inner(p, w, penv).lane == penv.lane
    ensures forall n :: n in p.g.vars.Keys ==> Inner(p, w, penv).Get(n) == penv.Get(n)
  {
    EnvKeeps(p, 0, |p.funcs|, w, penv);
  }

  lemma InnerFuncs(p: Plan, w: World, penv: Env)
    requires Ready(p, w, penv)
    ensures FuncsSound(p.c.fb, p.g, w, Inner(p, w, penv))
  {
    InnerKeepsParameters(p, w, penv);
    FuncsKept(p.c.fb, p.g, p.g.vars.Keys, w, penv, Inner(p, w, penv));
  }

  // ---------- execution ----------

  /** Stage i reads, for the point, only what stage j has computed. */
  lemma ReadsAreComputed(p: Plan, i: nat, j: nat, v: Expr, pt: seq<int>, read: seq<int>, w: World, penv: Env)
    requires Ready(p, w, penv) && j < i < |p.funcs| && InRegion(p.funcs[i], Inner(p, w, penv), pt)
    requires var f, at := p.funcs[i], AtPoint(p.funcs[i].args, pt, Inner(p, w, penv));
             && v in Chosen(f.def, w, at).values && Runs(Evaluate(v), StageScope(f).Keys, w, at)
             && Touched(Evaluate(v), Reading, w, at, p.funcs[j].name, read)
    ensures InRegion(p.funcs[j], Inner(p, w, penv), read)
  {
    var f, env := p.funcs[i], Inner(p, w, penv);
    var at := AtPoint(f.args, pt, env);
    assert StageFits(p, i) && StageFits(p, j);
    ValueArity(p, i, v, at, w, p.funcs[j].name, read);
    if read != [] {
      InnerFuncs(p, w, penv);
      PointIsLive(f, pt, p.c, p.g, w, env);
      StageRequires(f, v, pt, p.c, p.g, p.ar, w, env, p.funcs[j].name, read);
      RequiredIsCovered(p, i, j, w, env, read);
      CoveredIsInRegion(p, j, w, penv, read);
    }
  }

  lemma ValueArity(p: Plan, i: nat, v: Expr, at: Env, w: World, q: string, read: seq<int>)
    requires WellFormed(p) && i < |p.funcs| && SimplifierSound(p.c, w)
    requires v in Chosen(p.funcs[i].def, w, at).values && Touched(Evaluate(v), Reading, w, at, q, read)
    ensures q in p.ar && |read| == p.ar[q]
  {
    var f := p.funcs[i];
    assert StageFits(p, i);
    var cvs := StageExprs(f.def, p.c);
    StageExprsAreChosen(f.def, p.c, v, w, at);
    var k :| 0 <= k < |cvs| && Eval(cvs[k].cond, w, at) != 0 && cvs[k].value == v;
    assert cvs[k] in cvs;
    TouchedArity(Evaluate(v), StageScope(f), p.c, ArgContext(p.g, f.args), StageNames(p.g, f), p.ar, w, at, q, read);
  }

  lemma RequiredIsCovered(p: Plan, i: nat, j: nat, w: World, env: Env, read: seq<int>)
    requires WellFormed(p) && j < i < |p.funcs| && SimplifierSound(p.c, w) && FuncsGood(p.c.fb, p.g.vars.Keys)
    requires Reported(Requirements(p.funcs[i], p.c), w, env, p.funcs[j].name, read)
    ensures Covers(FinalBoxes(p)[j], w, env, read)
  {
    var b := BoxRequired(p.funcs, Required(p), i, j);
    assert b == BoxOf(Requirements(p.funcs[i], p.c), p.funcs[j].name);
    RequiredIsBound(p, i, j);
    assert StageFits(p, i);
    MergedCovers(p, j, p.order, i, w, env, read);
  }

  lemma RequiredIsBound(p: Plan, i: nat, j: nat)
    requires j < i < |p.funcs| && !BoxRequired(p.funcs, Required(p), i, j).Empty()
    ensures i in StageBounds(p.funcs, Required(p), j, p.outputs)
    ensures StageBounds(p.funcs, Required(p), j, p.outputs)[i] == BoxRequired(p.funcs, Required(p), i, j)
  {
    BoundsUpToIs(p.funcs, Required(p), j, |p.funcs|);
  }

  type Junk = (string, nat, seq<int>) -> int

  /** The world after the first i stages have been computed over their regions: inside its
      region a function has the value that was computed, elsewhere whatever memory held. */
  function Executed(funcs: seq<Func>, i: nat, junk: Junk, base: World, env: Env): World
    requires i <= |funcs|
  {
    if i == 0 then base
    else
      var w, f := Executed(funcs, i - 1, junk, base, env), funcs[i - 1];
      World(base.load, (kind: CallKind, name: string, k: nat, vs: seq<int>) =>
        if kind == Halide && name == f.name then (if InRegion(f, env, vs) then ValueAt(f, k, vs, w, env) else junk(name, k, vs))
        else w.call(kind, name, k, vs))
  }

  lemma {:induction false} ExecutedFacts(funcs: seq<Func>, i: nat, junk: Junk, base: World, env: Env)
    requires i <= |funcs|
    ensures Executed(funcs, i, junk, base, env).load == base.load
    ensures forall kind, name, k, vs :: kind != Halide ==>
      Executed(funcs, i, junk, base, env).call(kind, name, k, vs) == base.call(kind, name, k, vs)
  {
    if i > 0 { ExecutedFacts(funcs, i - 1, junk, base, env); }
  }

  lemma {:induction false} ReferenceFacts(funcs: seq<Func>, i: nat, base: World, env: Env)
    requires i <= |funcs|
    ensures Reference(funcs, i, base, env).load == base.load
    ensures forall kind, name, k, vs :: kind != Halide ==>
      Reference(funcs, i, base, env).call(kind, name, k, vs) == base.call(kind, name, k, vs)
  {
    if i > 0 { ReferenceFacts(funcs, i - 1, base, env); }
  }

  lemma {:induction false} AtPointAgrees(args: seq<string>, vs: seq<int>, names: set<string>, env: Env, env': Env)
    requires forall n :: n in names ==> env.Get(n) == env'.Get(n)
    ensures forall n :: n in names || n in args ==> AtPoint(args, vs, env).Get(n) == AtPoint(args, vs, env').Get(n)
    decreases args
  {
    if args != [] {
      var v, rest := if vs == [] then 0 else vs[0], if vs == [] then [] else vs[1..];
      AtPointAgrees(args[1..], rest, names + {args[0]}, env.Set(args[0], v), env'.Set(args[0], v));
    }
  }

  lemma {:induction false} SameDefinition(d: Definition, i: nat, names: set<string>, w: World, env: Env, env': Env)
    requires DefOver(d, names) && i <= |d.specializations| && env.lane == env'.lane
    requires forall n :: n in names ==> env.Get(n) == env'.Get(n)
    ensures ChosenFrom(d, i, w, env) == ChosenFrom(d, i, w, env') && DefOver(ChosenFrom(d, i, w, env), names)
    decreases d, |d.specializations| - i
  {
    if i < |d.specializations| {
      var s := d.specializations[i];
      EvalAgree(s.cond, w, env, env');
      if Eval(s.cond, w, env) != 0 { SameDefinition(s.def, 0, names, w, env, env'); }
      else { SameDefinition(d, i + 1, names, w, env, env'); }
    }
  }

  /** A function's value does not depend on the region variables. */
  lemma ValueFromParameters(p: Plan, j: nat, k: nat, vs: seq<int>, w: World, penv: Env)
    requires Ready(p, w, penv) && j < |p.funcs|
    ensures ValueAt(p.funcs[j], k, vs, w, penv) == ValueAt(p.funcs[j], k, vs, w, Inner(p, w, penv))
  {
    var f, env := p.funcs[j], Inner(p, w, penv);
    var at, at' := AtPoint(f.args, vs, penv), AtPoint(f.args, vs, env);
    var names := p.g.vars.Keys + (set a | a in f.args);
    assert StageFits(p, j);
    InnerKeepsParameters(p, w, penv);
    AtPointAgrees(f.args, vs, p.g.vars.Keys, penv, env);
    AtPointKeeps(f.args, vs, penv);
    AtPointKeeps(f.args, vs, env);
    SameDefinition(f.def, 0, names, w, at, at');
    var d := Chosen(f.def, w, at);
    if k < |d.values| { EvalAgree(d.values[k], w, at, at'); }
  }

  lemma {:induction false} SameForced(d: Definition, i: nat, names: set<string>, w: World, w': World, env: Env)
    requires DefOver(d, names) && i <= |d.specializations| && AgreeOn({}, w, w')
    ensures ChosenFrom(d, i, w, env) == ChosenFrom(d, i, w', env)
    decreases d, |d.specializations| - i
  {
    if i < |d.specializations| {
      var s := d.specializations[i];
      SameCalls(s.cond, {}, w, w', env);
      if Eval(s.cond, w, env) != 0 { SameForced(s.def, 0, names, w, w', env); }
      else { SameForced(d, i + 1, names, w, w', env); }
    }
  }

  /** The value is one that the stage computes at the point. */
  predicate InForce(f: Func, pt: seq<int>, v: Expr, w: World, env: Env) {
    InRegion(f, env, pt) && v in Chosen(f.def, w, AtPoint(f.args, pt, env)).values
  }

  /** No value in force divides a remainder by zero at a point of its stage's region. */
  ghost predicate StagesRun(p: Plan, w: World, env: Env) {
    forall i, pt, v :: 0 <= i < |p.funcs| && InForce(p.funcs[i], pt, v, w, env) ==>
      Runs(Evaluate(v), StageScope(p.funcs[i]).Keys, w, AtPoint(p.funcs[i].args, pt, env))
  }

  /** The stages before i are right in their regions. */
  ghost predicate RightSoFar(p: Plan, i: nat, w: World, env: Env, done: World)
    requires i <= |p.funcs|
  {
    forall j, k, vs :: 0 <= j < i && InRegion(p.funcs[j], env, vs) ==>
      done.call(Halide, p.funcs[j].name, k, vs) == w.call(Halide, p.funcs[j].name, k, vs)
  }

  lemma {:induction false} ChosenCalls(d: Definition, i: nat, names: set<string>, w: World, env: Env, k: nat)
    requires DefCalls(d, names) && i <= |d.specializations| && k < |ChosenFrom(d, i, w, env).values|
    ensures Calls(ChosenFrom(d, i, w, env).values[k]) <= names
    decreases d, |d.specializations| - i
  {
    if i < |d.specializations| {
      if Eval(d.specializations[i].cond, w, env) != 0 { ChosenCalls(d.specializations[i].def, 0, names, w, env, k); }
      else { ChosenCalls(d, i + 1, names, w, env, k); }
    }
  }

  /** A stage computed from stages that are right is right. */
  lemma StageIsRight(p: Plan, i: nat, k: nat, pt: seq<int>, base: World, penv: Env, w: World, env: Env, done: World)
    requires i < |p.funcs| && w == Reference(p.funcs, |p.funcs|, base, penv)
    requires Ready(p, w, penv) && env == Inner(p, w, penv) && StagesRun(p, w, env)
    requires RightSoFar(p, i, w, env, done) && AgreeOn({}, w, done) && InRegion(p.funcs[i], env, pt)
    ensures ValueAt(p.funcs[i], k, pt, done, env) == w.call(Halide, p.funcs[i].name, k, pt)
  {
    var f := p.funcs[i];
    assert StageFits(p, i);
    ReferenceMeets(p.funcs, i, |p.funcs|, base, penv, k, pt);
    ValueFromParameters(p, i, k, pt, w, penv);
    ForcedIsRight(p, i, k, pt, w, penv, env, done);
  }

  lemma ForcedIsRight(p: Plan, i: nat, k: nat, pt: seq<int>, w: World, penv: Env, env: Env, done: World)
    requires i < |p.funcs| && Ready(p, w, penv) && env == Inner(p, w, penv) && StagesRun(p, w, env)
    requires RightSoFar(p, i, w, env, done) && AgreeOn({}, w, done) && InRegion(p.funcs[i], env, pt)
    ensures ValueAt(p.funcs[i], k, pt, done, env) == ValueAt(p.funcs[i], k, pt, w, env)
  {
    var f := p.funcs[i];
    var at := AtPoint(f.args, pt, env);
    assert StageFits(p, i);
    SameForced(f.def, 0, p.g.vars.Keys + (set a | a in f.args), w, done, at);
    var d := Chosen(f.def, w, at);
    if k < |d.values| {
      ChosenCalls(f.def, 0, Names(p.funcs[..i]), w, at, k);
      assert d.values[k] in d.values;
      ValueIsRight(p, i, d.values[k], pt, w, penv, env, done);
    }
  }

  lemma ValueIsRight(p: Plan, i: nat, v: Expr, pt: seq<int>, w: World, penv: Env, env: Env, done: World)
    requires i < |p.funcs| && Ready(p, w, penv) && env == Inner(p, w, penv) && StagesRun(p, w, env)
    requires RightSoFar(p, i, w, env, done) && AgreeOn({}, w, done)
    requires InForce(p.funcs[i], pt, v, w, env) && Calls(v) <= Names(p.funcs[..i])
    ensures var at := AtPoint(p.funcs[i].args, pt, env); Eval(v, done, at) == Eval(v, w, at)
  {
    var at, names := AtPoint(p.funcs[i].args, pt, env), Names(p.funcs[..i]);
    forall q, k, read | q in names && Touched(Evaluate(v), Reading, w, at, q, read)
      ensures w.call(Halide, q, k, read) == done.call(Halide, q, k, read) {
      var j := NameIndex(p.funcs, i, q);
      ReadsAreComputed(p, i, j, v, pt, read, w, penv);
    }
    SameReads(v, names, w, done, at);
  }

  lemma NameIndex(funcs: seq<Func>, i: nat, q: string) returns (j: nat)
    requires i <= |funcs| && q in Names(funcs[..i])
    ensures j < i && funcs[j].name == q
  {
    j :| 0 <= j < |funcs[..i]| && funcs[..i][j].name == q;
  }

  /** One more stage, over stages that are right. */
  lemma OneMoreStage(p: Plan, i: nat, junk: Junk, base: World, penv: Env, w: World, env: Env)
    requires i < |p.funcs| && w == Reference(p.funcs, |p.funcs|, base, penv)
    requires Ready(p, w, penv) && env == Inner(p, w, penv) && StagesRun(p, w, env)
    requires RightSoFar(p, i, w, env, Executed(p.funcs, i, junk, base, env))
    ensures RightSoFar(p, i + 1, w, env, Executed(p.funcs, i + 1, junk, base, env))
  {
    var before, done := Executed(p.funcs, i, junk, base, env), Executed(p.funcs, i + 1, junk, base, env);
    forall j, k, vs | 0 <= j < i + 1 && InRegion(p.funcs[j], env, vs)
      ensures done.call(Halide, p.funcs[j].name, k, vs) == w.call(Halide, p.funcs[j].name, k, vs) {
      if j == i {
        NewStage(p, i, k, vs, junk, base, penv, w, env, before);
      } else {
        ExecutedBelow(p.funcs, i, junk, base, env, j, k, vs);
      }
    }
  }

  lemma NewStage(p: Plan, i: nat, k: nat, vs: seq<int>, junk: Junk, base: World, penv: Env, w: World, env: Env,
      before: World)
    requires i < |p.funcs| && w == Reference(p.funcs, |p.funcs|, base, penv)
    requires Ready(p, w, penv) && env == Inner(p, w, penv) && StagesRun(p, w, env)
    requires before == Executed(p.funcs, i, junk, base, env) && RightSoFar(p, i, w, env, before)
    requires InRegion(p.funcs[i], env, vs)
    ensures Executed(p.funcs, i + 1, junk, base, env).call(Halide, p.funcs[i].name, k, vs) == w.call(Halide, p.funcs[i].name, k, vs)
  {
    ExecutedFacts(p.funcs, i, junk, base, env);
    ReferenceFacts(p.funcs, |p.funcs|, base, penv);
    StageIsRight(p, i, k, vs, base, penv, w, env, before);
    ExecutedAt(p.funcs, i, junk, base, env, k, vs);
  }

  lemma ExecutedAt(funcs: seq<Func>, i: nat, junk: Junk, base: World, env: Env, k: nat, vs: seq<int>)
    requires i < |funcs| && InRegion(funcs[i], env, vs)
    ensures Executed(funcs, i + 1, junk, base, env).call(Halide, funcs[i].name, k, vs)
         == ValueAt(funcs[i], k, vs, Executed(funcs, i, junk, base, env), env)
  {}

  lemma ExecutedBelow(funcs: seq<Func>, i: nat, junk: Junk, base: World, env: Env, j: nat, k: nat, vs: seq<int>)
    requires Topological(funcs) && j < i < |funcs|
    ensures Executed(funcs, i + 1, junk, base, env).call(Halide, funcs[j].name, k, vs)
         == Executed(funcs, i, junk, base, env).call(Halide, funcs[j].name, k, vs)
  {}

  lemma NothingYet(p: Plan, w: World, env: Env, done: World)
    ensures RightSoFar(p, 0, w, env, done)
  {}

  lemma {:induction false} ExecutedIsRight(p: Plan, n: nat, junk: Junk, base: World, penv: Env, w: World, env: Env)
    requires n <= |p.funcs| && w == Reference(p.funcs, |p.funcs|, base, penv)
    requires Ready(p, w, penv) && env == Inner(p, w, penv) && StagesRun(p, w, env)
    ensures RightSoFar(p, n, w, env, Executed(p.funcs, n, junk, base, env))
    decreases n
  {
    if n == 0 {
      NothingYet(p, w, env, Executed(p.funcs, 0, junk, base, env));
    } else {
      var i := n - 1;
      ExecutedIsRight(p, i, junk, base, penv, w, env);
      OneMoreStage(p, i, junk, base, penv, w, env);
      assert i + 1 == n;
    }
  }

  /** The meaning of the pipeline is preserved.  The emitted statement evaluates its lets
      before any function has been computed and then runs its body in the environment they
      define.  Whatever region of the outputs is asked for, every point of it is computed
      there, and every value that any stage computes is that of the recursive definitions,
      whatever uncomputed memory held. */
  lemma PipelineIsRight(p: Plan, junk: Junk, base: World, penv: Env, body: Stmt)
    requires var w := Reference(p.funcs, |p.funcs|, base, penv);
             WellFormed(p) && RunSound(p, w, penv) && (BoxesFit(p.funcs, FinalBoxes(p)) ==> StagesRun(p, w, Inner(p, base, penv)))
    ensures BoxesFit(p.funcs, FinalBoxes(p))
    ensures Arrives(Nest(LetsFrom(p.funcs, FinalBoxes(p), 0), body), base, penv, body, Inner(p, base, penv))
    ensures var w := Reference(p.funcs, |p.funcs|, base, penv);
            var env := Inner(p, base, penv);
            var done := Executed(p.funcs, |p.funcs|, junk, base, env);
            && (forall j, k, pt :: 0 <= j < |p.funcs| && InRegion(p.funcs[j], env, pt) ==>
                  done.call(Halide, p.funcs[j].name, k, pt) == ValueAt(p.funcs[j], k, pt, w, penv))
            && forall o, pt :: o in p.outputs && o < |p.funcs| && InBox(OutputBox(p.funcs[o]), base, penv, pt) ==> InRegion(p.funcs[o], env, pt)
  {
    var w := Reference(p.funcs, |p.funcs|, base, penv);
    FinalGood(p, w);
    LetsRunFirst(p, base, w, penv);
    var env := Inner(p, base, penv);
    NestArrives(LetsFrom(p.funcs, FinalBoxes(p), 0), body, base, penv);
    ExecutedIsRight(p, |p.funcs|, junk, base, penv, w, env);
    var done := Executed(p.funcs, |p.funcs|, junk, base, env);
    forall j, k, pt | 0 <= j < |p.funcs| && InRegion(p.funcs[j], env, pt)
      ensures done.call(Halide, p.funcs[j].name, k, pt) == ValueAt(p.funcs[j], k, pt, w, penv) {
      assert StageFits(p, j);
      ReferenceMeets(p.funcs, j, |p.funcs|, base, penv, k, pt);
    }
    forall o, pt | o in p.outputs && o < |p.funcs| && InBox(OutputBox(p.funcs[o]), base, penv, pt)
      ensures InRegion(p.funcs[o], env, pt) {
      OutputIsInRegion(p, o, pt, base, w, penv);
    }
  }

  lemma OutputCovers(p: Plan, o: nat, pt: seq<int>, w: World, env: Env, env': Env)
    requires WellFormed(p) && o in p.outputs && o < |p.funcs| && InBox(OutputBox(p.funcs[o]), w, env, pt)
    requires forall n :: n in p.g.vars.Keys ==> env'.Get(n) == env.Get(n)
    ensures Covers(OutputBox(p.funcs[o]), w, env', pt)
  {
    var f := p.funcs[o];
    var b := OutputBox(f);
    assert StageFits(p, o);
    forall d | 0 <= d < |pt| ensures Contains(b.bounds[d], w, env', pt[d]) {
      OutputEnds(f, d, p.g.vars.Keys);
      ContainsAgrees(b.bounds[d], p.g.vars.Keys, w, env, env', pt[d]);
    }
  }

  lemma OutputIsInRegion(p: Plan, o: nat, pt: seq<int>, base: World, w: World, penv: Env)
    requires Ready(p, w, penv) && o in p.outputs && o < |p.funcs| && InBox(OutputBox(p.funcs[o]), base, penv, pt)
    ensures InRegion(p.funcs[o], Inner(p, w, penv), pt)
  {
    SameOutput(p.funcs[o], base, w, penv, pt);
    var env := Inner(p, w, penv);
    assert StageFits(p, o);
    InnerKeepsParameters(p, w, penv);
    if pt != [] {
      OutputCovers(p, o, pt, w, penv, env);
      assert StageBounds(p.funcs, Required(p), o, p.outputs)[o] == OutputBox(p.funcs[o]);
      MergedCovers(p, o, p.order, o, w, env, pt);
      CoveredIsInRegion(p, o, w, penv, pt);
    }
  }

  lemma SameOutput(f: Func, base: World, w: World, env: Env, pt: seq<int>)
    requires InBox(OutputBox(f), base, env, pt)
    ensures InBox(OutputBox(f), w, env, pt)
  {
    forall d | 0 <= d < |pt| ensures Contains(OutputBox(f).bounds[d], w, env, pt[d]) {
      var sum := Bin(Add, Int(32), OutMin(f, d), OutExtent(f, d));
      assert Contains(OutputBox(f).bounds[d], base, env, pt[d]);
      assert Eval(sum, w, env) == Eval(sum, base, env);
      assert OutputBox(f).bounds[d] == Range(OutMin(f, d), Bin(Sub, Int(32), sum, Imm(Int(32), 1)));
      assert Eval(Imm(Int(32), 1), w, env) == Eval(Imm(Int(32), 1), base, env);
    }
  }

  /** The bounds that compute_function_value_bounds finds are good enough for the theorem. */
  lemma ComputedBoundsSuffice(p: Plan, cse: Expr -> Expr, base: World, penv: Env)
    requires Topological(p.funcs)
    requires var w := Reference(p.funcs, |p.funcs|, base, penv);
             ToolsSound(p.c, w) && CseSound(cse, w) && FuncsSane(p.funcs, p.c, cse, p.g, w, penv)
    requires p.c.fb == ValueBounds(p.funcs, |p.funcs|, p.c, cse)
    ensures RunSound(p, Reference(p.funcs, |p.funcs|, base, penv), penv)
  {
    ValueBoundsSound(p.funcs, |p.funcs|, p.c, cse, p.g, base, penv);
    ValueBoundsGood(p.funcs, |p.funcs|, p.c, cse, p.g, Reference(p.funcs, |p.funcs|, base, penv), penv);
  }

  // ---------- scoping ----------

  /** Every let mentions only what is in sight outside it. */
  predicate LetsScoped(lets: seq<Binding>, outer: set<string>)
    decreases lets
  {
    lets == [] || (FV(lets[0].value) <= outer && LetsScoped(lets[1..], outer + {lets[0].name}))
  }

  function LetNamesIn(lets: seq<Binding>): set<string>
    decreases lets
  {
    if lets == [] then {} else {lets[0].name} + LetNamesIn(lets[1..])
  }

  lemma {:induction false} ScopedSum(a: seq<Binding>, b: seq<Binding>, outer: set<string>)
    requires LetsScoped(a, outer) && LetsScoped(b, outer + LetNamesIn(a))
    ensures LetsScoped(a + b, outer) && LetNamesIn(a + b) == LetNamesIn(a) + LetNamesIn(b)
    decreases a
  {
    if a == [] {
      assert a + b == b;
      assert outer + LetNamesIn(a) == outer;
    } else {
      assert (a + b)[1..] == a[1..] + b;
      assert outer + LetNamesIn(a) == (outer + {a[0].name}) + LetNamesIn(a[1..]);
      ScopedSum(a[1..], b, outer + {a[0].name});
    }
  }

  lemma DimLetsScoped(f: Func, b: Box, d: nat, outer: set<string>)
    requires d < |b.bounds| == |f.args| && Bounded(b) && Shaped(b.bounds[d], outer)
    ensures LetsScoped(DimLets(f, b, d), outer)
    ensures LetNamesIn(DimLets(f, b, d)) == {StageMax(f, f.args[d]), StageMin(f, f.args[d])}
  {
    var lets := DimLets(f, b, d);
    var rest := lets[1..];
    assert rest[0] == lets[1] && rest[1..] == [];
    assert LetNamesIn(rest) == {rest[0].name} + LetNamesIn(rest[1..]);
    assert LetsScoped(rest, outer + {lets[0].name}) <==> FV(rest[0].value) <= outer + {lets[0].name};
  }

  lemma {:induction false} ScopedMore(lets: seq<Binding>, outer: set<string>, outer': set<string>)
    requires LetsScoped(lets, outer) && outer <= outer'
    ensures LetsScoped(lets, outer')
    decreases lets
  {
    if lets != [] { ScopedMore(lets[1..], outer + {lets[0].name}, outer' + {lets[0].name}); }
  }

  function OwnDims(f: Func, d: nat): set<string>
    requires d <= |f.args|
    decreases |f.args| - d
  {
    if d == |f.args| then {} else OwnDims(f, d + 1) + {StageMax(f, f.args[d]), StageMin(f, f.args[d])}
  }

  lemma {:induction false} StageLetsScoped(f: Func, b: Box, d: nat, outer: set<string>)
    requires d <= |b.bounds| == |f.args| && Bounded(b) && forall k :: 0 <= k < |b.bounds| ==> Shaped(b.bounds[k], outer)
    ensures LetsScoped(StageLets(f, b, d), outer) && LetNamesIn(StageLets(f, b, d)) == OwnDims(f, d)
    decreases |b.bounds| - d
  {
    if d < |b.bounds| {
      StageLetsScoped(f, b, d + 1, outer);
      DimLetsScoped(f, b, d, outer);
      ScopedMore(DimLets(f, b, d), outer, outer + OwnDims(f, d + 1));
      ScopedSum(StageLets(f, b, d + 1), DimLets(f, b, d), outer);
    }
  }

  lemma {:induction false} OwnDimsAre(f: Func, d: nat)
    requires d <= |f.args|
    ensures forall k :: d <= k < |f.args| ==> StageMin(f, f.args[k]) in OwnDims(f, d) && StageMax(f, f.args[k]) in OwnDims(f, d)
    decreases |f.args| - d
  {
    if d < |f.args| { OwnDimsAre(f, d + 1); }
  }

  /** Every function with arguments is an output, or some later one requires a box of it. */
  predicate Connected(p: Plan) {
    forall j :: 0 <= j < |p.funcs| && p.funcs[j].args != [] ==>
      j in p.outputs || exists i :: j < i < |p.funcs| && !BoxRequired(p.funcs, Required(p), i, j).Empty()
  }

  lemma {:induction false} MergedIsNotEmpty(p: Plan, j: nat, order: seq<nat>, i: nat)
    requires j < |p.funcs| && i in order && i < |p.funcs| && p.funcs[i].name in p.inner
    requires i in StageBounds(p.funcs, Required(p), j, p.outputs)
    requires !StageBounds(p.funcs, Required(p), j, p.outputs)[i].Empty()
    ensures !MergedFor(p, j, order).Empty()
  {
    var rest := order[..|order| - 1];
    if i in rest { MergedIsNotEmpty(p, j, rest, i); }
  }

  lemma RegionIsFull(p: Plan, j: nat)
    requires WellFormed(p) && Connected(p) && j < |p.funcs| && BoxesFit(p.funcs, FinalBoxes(p))
    ensures |FinalBoxes(p)[j].bounds| == |p.funcs[j].args|
  {
    if p.funcs[j].args != [] {
      var i := j;
      if j !in p.outputs {
        i :| j < i < |p.funcs| && !BoxRequired(p.funcs, Required(p), i, j).Empty();
        RequiredIsBound(p, i, j);
      }
      assert StageFits(p, i);
      MergedIsNotEmpty(p, j, p.order, i);
    }
  }

  /** Each injected let refers only to parameters and to lets placed further out. */
  lemma InferredLetsScoped(p: Plan, w: World)
    requires WellFormed(p) && Connected(p) && SimplifierSound(p.c, w) && FuncsGood(p.c.fb, p.g.vars.Keys)
    ensures BoxesFit(p.funcs, FinalBoxes(p)) && LetsScoped(LetsFrom(p.funcs, FinalBoxes(p), 0), p.g.vars.Keys)
  {
    FinalGood(p, w);
    forall k | 0 <= k < |p.funcs| ensures |FinalBoxes(p)[k].bounds| == |p.funcs[k].args| { RegionIsFull(p, k); }
    LetsFromScoped(p, 0);
  }

  lemma {:induction false} LetsFromScoped(p: Plan, j: nat)
    requires j <= |p.funcs| && BoxesFit(p.funcs, FinalBoxes(p))
    requires forall k :: 0 <= k < |p.funcs| ==> GoodFor(p, k, FinalBoxes(p)[k]) && |FinalBoxes(p)[k].bounds| == |p.funcs[k].args|
    ensures LetsScoped(LetsFrom(p.funcs, FinalBoxes(p), j), p.g.vars.Keys)
    ensures OwnFrom(p.funcs, j) <= LetNamesIn(LetsFrom(p.funcs, FinalBoxes(p), j))
    decreases |p.funcs| - j
  {
    if j < |p.funcs| {
      var f, b := p.funcs[j], FinalBoxes(p)[j];
      var before := LetsFrom(p.funcs, FinalBoxes(p), j + 1);
      LetsFromScoped(p, j + 1);
      forall k | 0 <= k < |b.bounds| ensures Shaped(b.bounds[k], Outer(p, j)) { assert Good(b.bounds[k], Outer(p, j)); }
      StageLetsScoped(f, b, 0, Outer(p, j));
      ScopedMore(StageLets(f, b, 0), Outer(p, j), p.g.vars.Keys + LetNamesIn(before));
      ScopedSum(before, StageLets(f, b, 0), p.g.vars.Keys);
      OwnDimsAre(f, 0);
    }
  }
}
