/** Bounds on the values of functions, computed one function after the other, each from
    the bounds of those before. */
module FunctionBounds {
  import opened IR
  import opened Intervals
  import opened BoundsRules
  import opened RuleSoundness
  import opened IntervalSoundness
  import opened IntervalShape
  import opened Pipeline

  /** Every definition of the function has n values. */
  predicate Outputs(d: Definition, n: nat)
    decreases d
  {
    |d.values| == n && forall i :: 0 <= i < |d.specializations| ==> Outputs(d.specializations[i].def, n)
  }

  /** The interval of one value, over the default and the first n specializations. */
  function DefBoundsFrom(d: Definition, n: nat, k: nat, scope: Scope, c: Tools): Interval
    requires n <= |d.specializations| && Outputs(d, |d.values|) && k < |d.values|
    decreases d, n, 0
  {
    if n == 0 then BoundsOf(d.values[k], scope, c)
    else
      assert Outputs(d.specializations[n - 1].def, |d.values|);
      Include(DefBoundsFrom(d, n - 1, k, scope, c), DefBounds(d.specializations[n - 1].def, k, scope, c))
  }

  function DefBounds(d: Definition, k: nat, scope: Scope, c: Tools): Interval
    requires Outputs(d, |d.values|) && k < |d.values|
    decreases d, |d.specializations|, 1
  {
    DefBoundsFrom(d, |d.specializations|, k, scope, c)
  }

  /** A scope in which the arguments could be anything. */
  function ArgScope(args: seq<string>): Scope { map a | a in args :: Everything() }

  function Tidied(i: Interval, c: Tools, cse: Expr -> Expr): Interval {
    Interval(if i.HasLower() then Fin(c.simplify(cse(i.min.e))) else i.min,
             if i.HasUpper() then Fin(c.simplify(cse(i.max.e))) else i.max)
  }

  function FuncBounds(f: Func, k: nat, c: Tools, cse: Expr -> Expr): Interval
    requires Outputs(f.def, |f.def.values|) && k < |f.def.values|
  {
    Tidied(DefBounds(f.def, k, ArgScope(f.args), c), c, cse)
  }

  /** The bounds after n values of f; they are taken with the bounds found so far. */
  function AddOutputs(f: Func, n: nat, c: Tools, cse: Expr -> Expr): FuncValueBounds
    requires Outputs(f.def, |f.def.values|) && n <= |f.def.values|
  {
    if n == 0 then c.fb
    else
      var fb := AddOutputs(f, n - 1, c, cse);
      fb[(f.name, n - 1) := FuncBounds(f, n - 1, Tools(fb, c.prove, c.simplify), cse)]
  }

  predicate AllOutputs(funcs: seq<Func>) { forall i :: 0 <= i < |funcs| ==> Outputs(funcs[i].def, |funcs[i].def.values|) }

  /** compute_function_value_bounds, after n functions. */
  function ValueBounds(funcs: seq<Func>, n: nat, c: Tools, cse: Expr -> Expr): FuncValueBounds
    requires n <= |funcs| && AllOutputs(funcs)
  {
    if n == 0 then map[]
    else
      var fb := ValueBounds(funcs, n - 1, c, cse);
      var f := funcs[n - 1];
      if f.pure then AddOutputs(f, |f.def.values|, Tools(fb, c.prove, c.simplify), cse) else fb
  }

  method ComputeDefinitionBounds(d: Definition, k: nat, scope: Scope, c: Tools) returns (result: Interval)
    requires Outputs(d, |d.values|) && k < |d.values|
    ensures result == DefBounds(d, k, scope, c)
    decreases d
  {
    result := BoundsOf(d.values[k], scope, c);
    var i := 0;
    while i < |d.specializations|
      invariant 0 <= i <= |d.specializations|
      invariant result == DefBoundsFrom(d, i, k, scope, c)
    {
      var s := ComputeDefinitionBounds(d.specializations[i].def, k, scope, c);
      result := Include(result, s);
      i := i + 1;
    }
  }

  method ComputeFunctionValueBounds(funcs: seq<Func>, c: Tools, cse: Expr -> Expr) returns (fb: FuncValueBounds)
    requires AllOutputs(funcs)
    ensures fb == ValueBounds(funcs, |funcs|, c, cse)
  {
    fb := map[];
    var i := 0;
    while i < |funcs|
      invariant 0 <= i <= |funcs|
      invariant fb == ValueBounds(funcs, i, c, cse)
    {
      var f := funcs[i];
      if f.pure {
        ghost var start := fb;
        var j := 0;
        while j < |f.def.values|
          invariant 0 <= j <= |f.def.values|
          invariant fb == AddOutputs(f, j, Tools(start, c.prove, c.simplify), cse)
        {
          var argScope: Scope := map a | a in f.args :: Everything();
          var result := ComputeDefinitionBounds(f.def, j, argScope, Tools(fb, c.prove, c.simplify));
          if result.HasLower() { result := result.(min := Fin(c.simplify(cse(result.min.e)))); }
          if result.HasUpper() { result := result.(max := Fin(c.simplify(cse(result.max.e)))); }
          fb := fb[(f.name, j) := result];
          j := j + 1;
        }
      }
      i := i + 1;
    }
  }

  // ---------- soundness ----------

  /** Elimination of common subexpressions, as far as bounds care. */
  ghost predicate CseSound(cse: Expr -> Expr, w: World) {
    && (forall e, env :: Eval(cse(e), w, env) == Eval(e, w, env))
    && (forall e :: FV(cse(e)) <= FV(e) && Calls(cse(e)) <= Calls(e))
    && (forall e :: Scalar(e) ==> Scalar(cse(e)))
  }

  /** The arguments are integers, and the parameters what they are outside. */
  function ArgContext(g: Context, args: seq<string>): Context
    decreases args
  {
    if args == [] then g else ArgContext(g.Bind(args[0], Int(32)), args[1..])
  }

  lemma {:induction false} ArgContextIs(g: Context, args: seq<string>)
    ensures ArgContext(g, args).funcs == g.funcs
    ensures forall n :: n in ArgContext(g, args).vars <==> n in g.vars || n in args
    ensures forall n :: n in ArgContext(g, args).vars ==> ArgContext(g, args).vars[n] == if n in args then Int(32) else g.vars[n]
    decreases args
  {
    if args != [] { ArgContextIs(g.Bind(args[0], Int(32)), args[1..]); }
  }

  lemma {:induction false} AtPointKeeps(args: seq<string>, vs: seq<int>, env: Env)
    ensures AtPoint(args, vs, env).lane == env.lane
    ensures forall n :: n !in args ==> AtPoint(args, vs, env).Get(n) == env.Get(n)
  {
    if args != [] {
      if vs == [] { AtPointKeeps(args[1..], [], env.Set(args[0], 0)); }
      else { AtPointKeeps(args[1..], vs[1..], env.Set(args[0], vs[0])); }
    }
  }

  /** The values of a definition are typed, regular and defined everywhere. */
  ghost predicate DefSane(d: Definition, key: string, args: seq<string>, c: Tools, g: Context, w: World, penv: Env)
    decreases d
  {
    && (forall k :: 0 <= k < |d.values| ==> ValueSane(d.values[k], (key, k), args, c, g, w, penv))
    && forall i :: 0 <= i < |d.specializations| ==> DefSane(d.specializations[i].def, key, args, c, g, w, penv)
  }

  ghost predicate ValueSane(e: Expr, key: (string, nat), args: seq<string>, c: Tools, g: Context, w: World, penv: Env) {
    && key in g.funcs && TypeOf(e) == g.funcs[key] && TypeOf(e).lanes == 1
    && WellTyped(e, ArgContext(g, args)) && Regular(e, ArgScope(args), c)
    && Hygienic(e, ArgContext(g, args).vars.Keys + g.vars.Keys) && Settled(e, ArgScope(args).Keys, g.vars.Keys)
    && forall vs :: Defined(e, w, AtPoint(args, vs, penv))
  }

  ghost predicate BoundsReady(c: Tools, g: Context, w: World, penv: Env) {
    ToolsSound(c, w) && FuncsShaped(c.fb, g.vars.Keys) && FuncsSound(c.fb, g, w, penv)
  }

  lemma ValueSound(e: Expr, key: (string, nat), args: seq<string>, c: Tools, g: Context, w: World, penv: Env,
      vs: seq<int>)
    requires ValueSane(e, key, args, c, g, w, penv) && BoundsReady(c, g, w, penv)
    ensures var i, at := BoundsOf(e, ArgScope(args), c), AtPoint(args, vs, penv);
            Brackets(i, g.funcs[key], w, penv, Eval(e, w, at)) && Shaped(i, g.vars.Keys) && InRange(g.funcs[key], Eval(e, w, at))
  {
    var g', at, scope := ArgContext(g, args), AtPoint(args, vs, penv), ArgScope(args);
    ArgContextIs(g, args);
    AtPointKeeps(args, vs, penv);
    assert FuncsSound(c.fb, g', w, penv) by {
      forall k | k in c.fb ensures FuncWithin(c.fb[k], k, g', w, penv) { assert FuncWithin(c.fb[k], k, g, w, penv); }
    }
    assert Setting(scope, c, g', g.vars.Keys, w, penv, at);
    BoundsSound(e, scope, c, g', g.vars.Keys, w, penv, at);
    TypeSound(e, g', w, at);
    assert ResultNames(scope, g', g.vars.Keys) <= g.vars.Keys;
    assert TypeOf(e).ElementOf() == TypeOf(e);
  }

  lemma IncludeSound(i: Interval, j: Interval, t: Type, names: set<string>, w: World, penv: Env)
    requires EndsOk(i, t, w, penv) && EndsOk(j, t, w, penv) && Shaped(i, names) && Shaped(j, names)
    ensures EndsOk(Include(i, j), t, w, penv) && Shaped(Include(i, j), names)
    ensures forall v :: Contains(i, w, penv, v) || Contains(j, w, penv, v) ==> Contains(Include(i, j), w, penv, v)
  {
    MakeBoundFacts(Min, i.min, j.min, t, w, penv);
    MakeBoundFacts(Max, i.max, j.max, t, w, penv);
    ExtShape(Min, i.min, j.min, names);
    ExtShape(Max, i.max, j.max, names);
  }

  lemma {:induction false} ChosenIs(d: Definition, i: nat, w: World, env: Env)
    requires i <= |d.specializations|
    ensures ChosenFrom(d, i, w, env) == d
         || exists j :: i <= j < |d.specializations| && ChosenFrom(d, i, w, env) == Chosen(d.specializations[j].def, w, env)
    decreases |d.specializations| - i
  {
    if i < |d.specializations| { ChosenIs(d, i + 1, w, env); }
  }

  lemma {:induction false} ChosenOutputs(d: Definition, i: nat, n: nat, w: World, env: Env)
    requires Outputs(d, n) && i <= |d.specializations|
    ensures |ChosenFrom(d, i, w, env).values| == n
    decreases d, |d.specializations| - i
  {
    if i < |d.specializations| {
      ChosenOutputs(d.specializations[i].def, 0, n, w, env);
      ChosenOutputs(d, i + 1, n, w, env);
    }
  }

  /** The interval covers the default and each specialization included so far. */
  ghost predicate Covered(d: Definition, n: nat, k: nat, i: Interval, w: World, penv: Env, at: Env)
    requires n <= |d.specializations| && k < |d.values|
  {
    && Contains(i, w, penv, Eval(d.values[k], w, at))
    && forall j :: 0 <= j < n && k < |Chosen(d.specializations[j].def, w, at).values| ==>
         Contains(i, w, penv, Eval(Chosen(d.specializations[j].def, w, at).values[k], w, at))
  }

  lemma {:induction false} DefFromSound(d: Definition, n: nat, k: nat, key: string, args: seq<string>, c: Tools,
      g: Context, w: World, penv: Env, vs: seq<int>)
    requires n <= |d.specializations| && Outputs(d, |d.values|) && k < |d.values|
    requires DefSane(d, key, args, c, g, w, penv) && BoundsReady(c, g, w, penv)
    ensures var i, at := DefBoundsFrom(d, n, k, ArgScope(args), c), AtPoint(args, vs, penv);
            && (key, k) in g.funcs && EndsOk(i, g.funcs[(key, k)], w, penv) && Shaped(i, g.vars.Keys)
            && Covered(d, n, k, i, w, penv, at)
    decreases d, n, 0
  {
    ValueSound(d.values[k], (key, k), args, c, g, w, penv, vs);
    if n > 0 {
      var scope, special := ArgScope(args), d.specializations[n - 1].def;
      DefFromSound(d, n - 1, k, key, args, c, g, w, penv, vs);
      DefSound(special, k, key, args, c, g, w, penv, vs);
      OneMoreCovered(d, n, k, DefBoundsFrom(d, n - 1, k, scope, c), DefBounds(special, k, scope, c), g.funcs[(key, k)], g.vars.Keys, w, penv,
                     AtPoint(args, vs, penv));
    }
  }

  lemma OneMoreCovered(d: Definition, n: nat, k: nat, i: Interval, j: Interval, t: Type, names: set<string>, w: World,
      penv: Env, at: Env)
    requires 0 < n <= |d.specializations| && k < |d.values| && Covered(d, n - 1, k, i, w, penv, at)
    requires EndsOk(i, t, w, penv) && EndsOk(j, t, w, penv) && Shaped(i, names) && Shaped(j, names)
    requires var special := Chosen(d.specializations[n - 1].def, w, at);
             k < |special.values| ==> Contains(j, w, penv, Eval(special.values[k], w, at))
    ensures EndsOk(Include(i, j), t, w, penv) && Shaped(Include(i, j), names)
    ensures Covered(d, n, k, Include(i, j), w, penv, at)
  {
    IncludeSound(i, j, t, names, w, penv);
  }

  /** Whichever specialization is in force, its value lies in the interval. */
  lemma {:induction false} DefSound(d: Definition, k: nat, key: string, args: seq<string>, c: Tools, g: Context,
      w: World, penv: Env, vs: seq<int>)
    requires Outputs(d, |d.values|) && k < |d.values|
    requires DefSane(d, key, args, c, g, w, penv) && BoundsReady(c, g, w, penv)
    ensures var i, at := DefBounds(d, k, ArgScope(args), c), AtPoint(args, vs, penv);
            && (key, k) in g.funcs && EndsOk(i, g.funcs[(key, k)], w, penv) && Shaped(i, g.vars.Keys)
            && k < |Chosen(d, w, at).values| && Contains(i, w, penv, Eval(Chosen(d, w, at).values[k], w, at))
    decreases d, |d.specializations|, 1
  {
    var at := AtPoint(args, vs, penv);
    DefFromSound(d, |d.specializations|, k, key, args, c, g, w, penv, vs);
    ChosenIs(d, 0, w, at);
    ChosenOutputs(d, 0, |d.values|, w, at);
  }

  lemma {:induction false} ChosenInRange(d: Definition, i: nat, k: nat, key: string, args: seq<string>, c: Tools,
      g: Context, w: World, penv: Env, vs: seq<int>)
    requires i <= |d.specializations| && Outputs(d, |d.values|) && k < |d.values|
    requires DefSane(d, key, args, c, g, w, penv) && BoundsReady(c, g, w, penv)
    ensures var at := AtPoint(args, vs, penv);
            && k < |ChosenFrom(d, i, w, at).values| && (key, k) in g.funcs
            && InRange(g.funcs[(key, k)], Eval(ChosenFrom(d, i, w, at).values[k], w, at))
    decreases d, |d.specializations| - i
  {
    ValueSound(d.values[k], (key, k), args, c, g, w, penv, vs);
    if i < |d.specializations| {
      ChosenInRange(d.specializations[i].def, 0, k, key, args, c, g, w, penv, vs);
      ChosenInRange(d, i + 1, k, key, args, c, g, w, penv, vs);
    }
  }

  lemma TidySound(i: Interval, c: Tools, cse: Expr -> Expr, t: Type, names: set<string>, w: World, penv: Env)
    requires SimplifierSound(c, w) && CseSound(cse, w) && EndsOk(i, t, w, penv) && Shaped(i, names)
    ensures EndsOk(Tidied(i, c, cse), t, w, penv) && Shaped(Tidied(i, c, cse), names)
    ensures forall v :: Contains(i, w, penv, v) ==> Contains(Tidied(i, c, cse), w, penv, v)
  {
    if i.HasLower() { TidyEnd(i.min.e, c, cse, names, w, penv); }
    if i.HasUpper() { TidyEnd(i.max.e, c, cse, names, w, penv); }
  }

  lemma TidyEnd(e: Expr, c: Tools, cse: Expr -> Expr, names: set<string>, w: World, penv: Env)
    requires SimplifierSound(c, w) && CseSound(cse, w) && Neat(e, names)
    ensures Eval(c.simplify(cse(e)), w, penv) == Eval(e, w, penv) && Neat(c.simplify(cse(e)), names)
  {
    assert Eval(cse(e), w, penv) == Eval(e, w, penv) && FV(cse(e)) <= FV(e) && Calls(cse(e)) <= Calls(e);
    SimplifyShape(c, cse(e), names, w);
  }

  /** One more recorded interval is right. */
  lemma OutputSound(f: Func, k: nat, c: Tools, cse: Expr -> Expr, g: Context, w: World, penv: Env)
    requires Outputs(f.def, |f.def.values|) && k < |f.def.values| && CseSound(cse, w)
    requires DefSane(f.def, f.name, f.args, c, g, w, penv) && BoundsReady(c, g, w, penv)
    requires forall vs :: w.call(Halide, f.name, k, vs) == ValueAt(f, k, vs, w, penv)
    ensures BoundsReady(Tools(c.fb[(f.name, k) := FuncBounds(f, k, c, cse)], c.prove, c.simplify), g, w, penv)
  {
    var i := DefBounds(f.def, k, ArgScope(f.args), c);
    DefSound(f.def, k, f.name, f.args, c, g, w, penv, []);
    var t := g.funcs[(f.name, k)];
    TidySound(i, c, cse, t, g.vars.Keys, w, penv);
    forall vs ensures var v := w.call(Halide, f.name, k, vs); InRange(t, v) && Brackets(FuncBounds(f, k, c, cse), t, w, penv, v) {
      DefSound(f.def, k, f.name, f.args, c, g, w, penv, vs);
      ChosenInRange(f.def, 0, k, f.name, f.args, c, g, w, penv, vs);
    }
    assert t.lanes == 1 by { assert ValueSane(f.def.values[k], (f.name, k), f.args, c, g, w, penv); }
    assert FuncWithin(FuncBounds(f, k, c, cse), (f.name, k), g, w, penv);
    var fb := c.fb[(f.name, k) := FuncBounds(f, k, c, cse)];
    forall key | key in fb ensures FuncWithin(fb[key], key, g, w, penv) {}
  }

  /** The definitions are sane whatever sound bounds are recorded for other functions.  (What
      is regular depends on those bounds.) */
  ghost predicate FuncSane(f: Func, c: Tools, cse: Expr -> Expr, g: Context, w: World, penv: Env) {
    && Outputs(f.def, |f.def.values|)
    && forall k :: 0 <= k < |f.def.values| ==>
         DefSane(f.def, f.name, f.args, Tools(AddOutputs(f, k, c, cse), c.prove, c.simplify), g, w, penv)
  }

  lemma {:induction false} OutputsSound(f: Func, n: nat, c: Tools, cse: Expr -> Expr, g: Context, w: World, penv: Env)
    requires FuncSane(f, c, cse, g, w, penv) && n <= |f.def.values| && BoundsReady(c, g, w, penv) && CseSound(cse, w)
    requires forall k, vs :: w.call(Halide, f.name, k, vs) == ValueAt(f, k, vs, w, penv)
    ensures BoundsReady(Tools(AddOutputs(f, n, c, cse), c.prove, c.simplify), g, w, penv)
  {
    if n > 0 {
      OutputsSound(f, n - 1, c, cse, g, w, penv);
      OutputSound(f, n - 1, Tools(AddOutputs(f, n - 1, c, cse), c.prove, c.simplify), cse, g, w, penv);
    }
  }

  ghost predicate FuncsSane(funcs: seq<Func>, c: Tools, cse: Expr -> Expr, g: Context, w: World, penv: Env) {
    AllOutputs(funcs) &&
    forall i :: 0 <= i < |funcs| && funcs[i].pure ==>
      FuncSane(funcs[i], Tools(ValueBounds(funcs, i, c, cse), c.prove, c.simplify), cse, g, w, penv)
  }

  /** Function value bounds are sound: in the reference world every recorded interval
      contains the function's value at every argument tuple. */
  lemma {:induction false} ValueBoundsSound(funcs: seq<Func>, n: nat, c: Tools, cse: Expr -> Expr, g: Context,
      base: World, penv: Env)
    requires Topological(funcs) && n <= |funcs|
    requires var w := Reference(funcs, |funcs|, base, penv);
             ToolsSound(c, w) && CseSound(cse, w) && FuncsSane(funcs, c, cse, g, w, penv)
    ensures var w := Reference(funcs, |funcs|, base, penv);
            BoundsReady(Tools(ValueBounds(funcs, n, c, cse), c.prove, c.simplify), g, w, penv)
  {
    var w := Reference(funcs, |funcs|, base, penv);
    if n > 0 {
      ValueBoundsSound(funcs, n - 1, c, cse, g, base, penv);
      var f := funcs[n - 1];
      if f.pure {
        forall k, vs ensures w.call(Halide, f.name, k, vs) == ValueAt(f, k, vs, w, penv) {
          ReferenceMeets(funcs, n - 1, |funcs|, base, penv, k, vs);
        }
        OutputsSound(f, |f.def.values|, Tools(ValueBounds(funcs, n - 1, c, cse), c.prove, c.simplify), cse, g, w, penv);
      }
    }
  }

  // ---------- shape ----------

  lemma IncludeGood(i: Interval, j: Interval, names: set<string>)
    requires Good(i, names) && Good(j, names)
    ensures Good(Include(i, j), names)
  {
    ExtShape(Min, i.min, j.min, names);
    ExtShape(Max, i.max, j.max, names);
  }

  ghost predicate GoodReady(c: Tools, cse: Expr -> Expr, g: Context, w: World) {
    SimplifierSound(c, w) && CseSound(cse, w) && FuncsGood(c.fb, g.vars.Keys)
  }

  lemma ValueGood(e: Expr, key: (string, nat), args: seq<string>, c: Tools, g: Context, w: World, penv: Env)
    requires ValueSane(e, key, args, c, g, w, penv) && SimplifierSound(c, w) && FuncsGood(c.fb, g.vars.Keys)
    ensures Good(BoundsOf(e, ArgScope(args), c), g.vars.Keys)
  {
    ArgContextIs(g, args);
    RegularGood(e, ArgScope(args), c, ArgContext(g, args), g.vars.Keys, w);
  }

  lemma {:induction false} DefFromGood(d: Definition, n: nat, k: nat, key: string, args: seq<string>, c: Tools,
      g: Context, w: World, penv: Env)
    requires n <= |d.specializations| && Outputs(d, |d.values|) && k < |d.values|
    requires DefSane(d, key, args, c, g, w, penv) && SimplifierSound(c, w) && FuncsGood(c.fb, g.vars.Keys)
    ensures Good(DefBoundsFrom(d, n, k, ArgScope(args), c), g.vars.Keys)
    decreases d, n
  {
    ValueGood(d.values[k], (key, k), args, c, g, w, penv);
    if n > 0 {
      var s := d.specializations[n - 1];
      DefFromGood(d, n - 1, k, key, args, c, g, w, penv);
      DefFromGood(s.def, |s.def.specializations|, k, key, args, c, g, w, penv);
      IncludeGood(DefBoundsFrom(d, n - 1, k, ArgScope(args), c), DefBounds(s.def, k, ArgScope(args), c), g.vars.Keys);
    }
  }

  lemma TidyGood(i: Interval, c: Tools, cse: Expr -> Expr, names: set<string>, w: World)
    requires SimplifierSound(c, w) && CseSound(cse, w) && Good(i, names)
    ensures Good(Tidied(i, c, cse), names)
  {
    if i.HasLower() { TidyEnd(i.min.e, c, cse, names, w, Env(map[], 0)); }
    if i.HasUpper() { TidyEnd(i.max.e, c, cse, names, w, Env(map[], 0)); }
  }

  lemma {:induction false} OutputsGood(f: Func, n: nat, c: Tools, cse: Expr -> Expr, g: Context, w: World, penv: Env)
    requires FuncSane(f, c, cse, g, w, penv) && n <= |f.def.values| && GoodReady(c, cse, g, w)
    ensures FuncsGood(AddOutputs(f, n, c, cse), g.vars.Keys)
  {
    if n > 0 {
      var c' := Tools(AddOutputs(f, n - 1, c, cse), c.prove, c.simplify);
      OutputsGood(f, n - 1, c, cse, g, w, penv);
      DefFromGood(f.def, |f.def.specializations|, n - 1, f.name, f.args, c', g, w, penv);
      TidyGood(DefBounds(f.def, n - 1, ArgScope(f.args), c'), c', cse, g.vars.Keys, w);
    }
  }

  /** Every recorded interval is proper and over the parameters, as bounds inference needs. */
  lemma {:induction false} ValueBoundsGood(funcs: seq<Func>, n: nat, c: Tools, cse: Expr -> Expr, g: Context,
      w: World, penv: Env)
    requires n <= |funcs| && SimplifierSound(c, w) && CseSound(cse, w) && FuncsSane(funcs, c, cse, g, w, penv)
    ensures FuncsGood(ValueBounds(funcs, n, c, cse), g.vars.Keys)
  {
    if n > 0 {
      ValueBoundsGood(funcs, n - 1, c, cse, g, w, penv);
      var f := funcs[n - 1];
      if f.pure { OutputsGood(f, |f.def.values|, Tools(ValueBounds(funcs, n - 1, c, cse), c.prove, c.simplify), cse, g, w, penv); }
    }
  }

  /** Functions that are not pure get no entry, so their type is all that is known. */
  lemma {:induction false} ImpureUnbounded(funcs: seq<Func>, n: nat, c: Tools, cse: Expr -> Expr, key: (string, nat))
    requires n <= |funcs| && AllOutputs(funcs)
    requires forall i :: 0 <= i < n && funcs[i].pure ==> funcs[i].name != key.0
    ensures key !in ValueBounds(funcs, n, c, cse)
  {
    if n > 0 {
      ImpureUnbounded(funcs, n - 1, c, cse, key);
      if funcs[n - 1].pure {
        OutputKeys(funcs[n - 1], |funcs[n - 1].def.values|,
            Tools(ValueBounds(funcs, n - 1, c, cse), c.prove, c.simplify), cse, key);
      }
    }
  }

  lemma {:induction false} OutputKeys(f: Func, n: nat, c: Tools, cse: Expr -> Expr, key: (string, nat))
    requires Outputs(f.def, |f.def.values|) && n <= |f.def.values| && key.0 != f.name
    ensures key in AddOutputs(f, n, c, cse) <==> key in c.fb
  {
    if n > 0 { OutputKeys(f, n - 1, c, cse, key); }
  }
}
