/** Pipelines of pure functions: their definitions, with specializations, and the recursive
    meaning they have whatever region of them is computed. */
module Pipeline {
  import opened IR
  import opened Intervals
  import opened BoundsRules
  import opened RuleSoundness

  datatype Definition = Definition(values: seq<Expr>, specializations: seq<Specialization>)
  datatype Specialization = Specialization(cond: Expr, def: Definition)

  /** A function; a pure one has no update definitions and no foreign ones. */
  datatype Func = Func(name: string, args: seq<string>, def: Definition, pure: bool)

  /** The definition in force: the first specialization whose condition holds, or the
      default. */
  function Chosen(d: Definition, w: World, env: Env): Definition
    decreases d, |d.specializations|
  {
    ChosenFrom(d, 0, w, env)
  }

  function ChosenFrom(d: Definition, i: nat, w: World, env: Env): Definition
    requires i <= |d.specializations|
    decreases d, |d.specializations| - i, 0
  {
    if i == |d.specializations| then d
    else if Eval(d.specializations[i].cond, w, env) != 0 then Chosen(d.specializations[i].def, w, env)
    else ChosenFrom(d, i + 1, w, env)
  }

  /** The arguments, bound to the coordinates of a point. */
  function AtPoint(args: seq<string>, vs: seq<int>, env: Env): Env {
    if args == [] then env
    else if vs == [] then AtPoint(args[1..], [], env.Set(args[0], 0))
    else AtPoint(args[1..], vs[1..], env.Set(args[0], vs[0]))
  }

  /** A definition's value at a point. */
  function ValueAt(f: Func, k: nat, vs: seq<int>, w: World, env: Env): int {
    var at := AtPoint(f.args, vs, env);
    var d := Chosen(f.def, w, at);
    if k < |d.values| then Eval(d.values[k], w, at) else 0
  }

  /** The world in which those of the first n functions that are pure have the values of
      their definitions. */
  function Reference(funcs: seq<Func>, n: nat, base: World, env: Env): World
    requires n <= |funcs|
  {
    if n == 0 then base
    else
      var w, f := Reference(funcs, n - 1, base, env), funcs[n - 1];
      World(base.load, (kind: CallKind, name: string, k: nat, vs: seq<int>) =>
        if kind == Halide && name == f.name && f.pure then ValueAt(f, k, vs, w, env) else w.call(kind, name, k, vs))
  }

  // ---------- worlds ----------

  /** Worlds that differ only in the values of functions not in the set. */
  ghost predicate AgreeOn(names: set<string>, w: World, w': World) {
    && w.load == w'.load
    && forall kind, name, k, vs :: kind != Halide || name in names ==> w.call(kind, name, k, vs) == w'.call(kind, name, k, vs)
  }

  lemma {:induction false} SameCalls(e: Expr, names: set<string>, w: World, w': World, env: Env)
    requires AgreeOn(names, w, w') && Calls(e) <= names
    ensures Eval(e, w, env) == Eval(e, w', env)
  {
    match e
    case Imm(_, _) =>
    case Var(_, _) =>
    case Cast(_, value) => SameCalls(value, names, w, w', env);
    case Bin(_, _, a, b) => SameCalls(a, names, w, w', env); SameCalls(b, names, w, w', env);
    case Not(a) => SameCalls(a, names, w, w', env);
    case Select(c, tv, fv) =>
      SameCalls(c, names, w, w', env); SameCalls(tv, names, w, w', env); SameCalls(fv, names, w, w', env);
    case Load(_, _, index) => SameCalls(index, names, w, w', env);
    case Ramp(base, stride, _) => SameCalls(base, names, w, w', env); SameCalls(stride, names, w, w', env);
    case Broadcast(value, _) => SameCalls(value, names, w, w', env);
    case Call(_, _, _, _, args) => SameCallsOf(args, names, w, w', env);
    case Let(name, value, body) =>
      SameCalls(value, names, w, w', env);
      SameCalls(body, names, w, w', env.Set(name, Eval(value, w, env)));
  }

  lemma {:induction false} SameCallsOf(es: seq<Expr>, names: set<string>, w: World, w': World, env: Env)
    requires AgreeOn(names, w, w') && CallsOf(es) <= names
    ensures EvalArgs(es, w, env) == EvalArgs(es, w', env)
  {
    if es != [] {
      SameCalls(es[0], names, w, w', env);
      SameCallsOf(es[1..], names, w, w', env);
    }
  }

  predicate DefCalls(d: Definition, names: set<string>)
    decreases d
  {
    && (forall k :: 0 <= k < |d.values| ==> Calls(d.values[k]) <= names)
    && forall i :: 0 <= i < |d.specializations| ==>
         Calls(d.specializations[i].cond) <= names && DefCalls(d.specializations[i].def, names)
  }

  lemma {:induction false} SameChoice(d: Definition, i: nat, names: set<string>, w: World, w': World, env: Env)
    requires AgreeOn(names, w, w') && DefCalls(d, names) && i <= |d.specializations|
    ensures ChosenFrom(d, i, w, env) == ChosenFrom(d, i, w', env)
    ensures DefCalls(ChosenFrom(d, i, w, env), names)
    decreases d, |d.specializations| - i
  {
    if i < |d.specializations| {
      var s := d.specializations[i];
      SameCalls(s.cond, names, w, w', env);
      if Eval(s.cond, w, env) != 0 {
        SameChoice(s.def, 0, names, w, w', env);
      } else {
        SameChoice(d, i + 1, names, w, w', env);
      }
    }
  }

  lemma SameValue(f: Func, k: nat, vs: seq<int>, names: set<string>, w: World, w': World, env: Env)
    requires AgreeOn(names, w, w') && DefCalls(f.def, names)
    ensures ValueAt(f, k, vs, w, env) == ValueAt(f, k, vs, w', env)
  {
    var at := AtPoint(f.args, vs, env);
    SameChoice(f.def, 0, names, w, w', at);
    var d := Chosen(f.def, w, at);
    if k < |d.values| { SameCalls(d.values[k], names, w, w', at); }
  }

  // ---------- realization order ----------

  function Names(funcs: seq<Func>): set<string> { set i | 0 <= i < |funcs| :: funcs[i].name }

  /** Distinct names, and each function calls only earlier ones. */
  ghost predicate Topological(funcs: seq<Func>) {
    && (forall i, j :: 0 <= i < j < |funcs| ==> funcs[i].name != funcs[j].name)
    && forall i :: 0 <= i < |funcs| ==> DefCalls(funcs[i].def, Names(funcs[..i]))
  }

  lemma AgreeStep(funcs: seq<Func>, i: nat, n: nat, base: World, env: Env)
    requires Topological(funcs) && i <= n < |funcs|
    ensures AgreeOn(Names(funcs[..i]), Reference(funcs, n, base, env), Reference(funcs, n + 1, base, env))
  {
    forall name | name in Names(funcs[..i]) ensures name != funcs[n].name {}
  }

  lemma AgreeTrans(names: set<string>, w: World, w': World, w'': World)
    requires AgreeOn(names, w, w') && AgreeOn(names, w', w'')
    ensures AgreeOn(names, w, w'')
  {}

  lemma AgreeSame(names: set<string>, w: World)
    ensures AgreeOn(names, w, w)
  {}

  /** Defining later functions does not change earlier ones. */
  lemma {:induction false} ReferenceAgrees(funcs: seq<Func>, i: nat, n: nat, base: World, env: Env, w: World, w': World)
    requires Topological(funcs) && i <= n <= |funcs|
    requires w == Reference(funcs, i, base, env) && w' == Reference(funcs, n, base, env)
    ensures AgreeOn(Names(funcs[..i]), w, w')
    decreases n
  {
    if i == n {
      AgreeSame(Names(funcs[..i]), w);
    } else {
      var mid := Reference(funcs, n - 1, base, env);
      ReferenceAgrees(funcs, i, n - 1, base, env, w, mid);
      AgreeStep(funcs, i, n - 1, base, env);
      AgreeTrans(Names(funcs[..i]), w, mid, w');
    }
  }

  /** In the reference world every pure function satisfies its own definition. */
  lemma {:induction false} ReferenceMeets(funcs: seq<Func>, i: nat, n: nat, base: World, env: Env, k: nat, vs: seq<int>)
    requires Topological(funcs) && i < n <= |funcs| && funcs[i].pure
    ensures var w := Reference(funcs, n, base, env);
            w.call(Halide, funcs[i].name, k, vs) == ValueAt(funcs[i], k, vs, w, env)
  {
    var f := funcs[i];
    ReferenceAgrees(funcs, i + 1, n, base, env, Reference(funcs, i + 1, base, env), Reference(funcs, n, base, env));
    ReferenceAgrees(funcs, i, n, base, env, Reference(funcs, i, base, env), Reference(funcs, n, base, env));
    assert funcs[..i + 1][i] == f;
    assert f.name in Names(funcs[..i + 1]);
    assert Reference(funcs, i + 1, base, env).call(Halide, f.name, k, vs) == ValueAt(f, k, vs,
        Reference(funcs, i, base, env), env);
    SameValue(f, k, vs, Names(funcs[..i]), Reference(funcs, i, base, env), Reference(funcs, n, base, env), env);
  }
}
