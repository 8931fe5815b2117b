/** The scope of the region analysis stays right when it enters the body of a loop, the
    body of a let or a branch. */
module RegionScopes {
  import opened IR
  import opened Intervals
  import opened BoundsRules
  import opened RuleSoundness
  import opened IntervalSoundness
  import opened IntervalShape
  import opened Boxes
  import opened BoxesTouched
  import opened RegionSoundness

  /** The scope is well formed, and this run agrees with it. */
  ghost predicate Live(scope: Scope, c: Tools, g: Context, names: set<string>, params: set<string>, w: World,
      penv: Env, env: Env) {
    Base(scope, c, g, names, params, w) && Setting(scope, c, g, names, w, penv, env)
  }

  lemma ScopeWith(scope: Scope, name: string, i: Interval, c: Tools, g: Context, t: Type, names: set<string>,
      params: set<string>, w: World)
    requires Base(scope, c, g, names, params, w) && Good(i, names)
    ensures Base(scope[name := i], c, g.Bind(name, t), names, params, w)
  {}

  /** A variable whose value its interval contains may join the scope. */
  lemma LiveWith(scope: Scope, name: string, i: Interval, v: int, c: Tools, g: Context, t: Type, names: set<string>,
      params: set<string>, w: World, penv: Env, env: Env)
    requires Live(scope, c, g, names, params, w, penv, env)
    requires Good(i, names) && InRange(t, v) && Brackets(i, t.ElementOf(), w, penv, v)
    ensures Live(scope[name := i], c, g.Bind(name, t), names, params, w, penv, env.Set(name, v))
  {
    ScopeWith(scope, name, i, c, g, t, names, params, w);
    forall k | k in c.fb ensures FuncWithin(c.fb[k], k, g.Bind(name, t), w, penv) {
      assert FuncWithin(c.fb[k], k, g, w, penv);
    }
  }

  /** The interval of a sane expression. */
  lemma SaneBounds(e: Expr, scope: Scope, c: Tools, g: Context, names: set<string>, params: set<string>, w: World)
    requires Base(scope, c, g, names, params, w) && ExprSane(e, scope, c, g, names)
    ensures Good(BoundsOf(e, scope, c), names)
  {
    RegularGood(e, scope, c, g, names, w);
  }

  lemma LiveBounds(e: Expr, scope: Scope, c: Tools, g: Context, names: set<string>, params: set<string>, w: World,
      penv: Env, env: Env)
    requires Live(scope, c, g, names, params, w, penv, env) && ExprSane(e, scope, c, g, names) && Defined(e, w, env)
    ensures Brackets(BoundsOf(e, scope, c), TypeOf(e).ElementOf(), w, penv, Eval(e, w, env))
    ensures InRange(TypeOf(e), Eval(e, w, env))
  {
    BoundsSound(e, scope, c, g, names, w, penv, env);
    TypeSound(e, g, w, env);
  }

  // ---------- loops ----------

  lemma AddEndsGood(op: BinOp, x: Bound, y: Bound, names: set<string>)
    requires NeatBound(x, names) && NeatBound(y, names)
    ensures NeatBound(AddEnds(op, x, y), names) && !AddEnds(op, x, y).NegInf?
  {}

  lemma LoopGood(name: string, min: Expr, extent: Expr, scope: Scope, c: Tools, g: Context, names: set<string>,
      params: set<string>, w: World)
    requires Base(scope, c, g, names, params, w)
    requires Integer(min, scope, c, g, names) && Integer(extent, scope, c, g, names)
    ensures Good(LoopInterval(name, min, extent, scope, c), names)
  {
    SaneBounds(min, scope, c, g, names, params, w);
    SaneBounds(extent, scope, c, g, names, params, w);
    var sum := AddEnds(Add, BoundsOf(extent, scope, c).max, BoundsOf(min, scope, c).max);
    AddEndsGood(Add, BoundsOf(extent, scope, c).max, BoundsOf(min, scope, c).max, names);
    AddEndsGood(Sub, sum, Fin(Imm(Int(32), 1)), names);
  }

  lemma AddEndsAbove(x: Bound, y: Bound, w: World, penv: Env, u: int, v: int)
    requires AtMost(x, w, penv, u) && AtMost(y, w, penv, v)
    ensures AtMost(AddEnds(Sub, AddEnds(Add, x, y), Fin(Imm(Int(32), 1))), w, penv, u + v - 1)
  {}

  lemma AnyInt(i: Interval, w: World, penv: Env)
    ensures EndsOk(i, Int(32), w, penv)
  {}

  /** The loop variable lies in the interval computed for it, whether its ends are found by
      name in the scope or computed from the loop's own expressions. */
  lemma LoopContains(name: string, min: Expr, extent: Expr, i: int, scope: Scope, c: Tools, g: Context,
      names: set<string>, params: set<string>, w: World, penv: Env, env: Env)
    requires Live(scope, c, g, names, params, w, penv, env)
    requires Integer(min, scope, c, g, names) && Integer(extent, scope, c, g, names)
    requires Defined(min, w, env) && Defined(extent, w, env)
    requires Eval(min, w, env) <= i < Eval(min, w, env) + Eval(extent, w, env)
    requires LoopEndsHold(name, scope.Keys, Eval(min, w, env), Eval(min, w, env) + Eval(extent, w, env) - 1, env)
    requires forall n :: n in scope && (n == LoopMin(name) || n == LoopMax(name)) ==> n in g.vars && g.vars[n] == Int(32)
    ensures Contains(LoopInterval(name, min, extent, scope, c), w, penv, i)
  {
    LiveBounds(min, scope, c, g, names, params, w, penv, env);
    LiveBounds(extent, scope, c, g, names, params, w, penv, env);
    AddEndsAbove(BoundsOf(extent, scope, c).max, BoundsOf(min, scope, c).max, w, penv, Eval(extent, w, env),
        Eval(min, w, env));
    if LoopMin(name) in scope { assert Contains(scope[LoopMin(name)], w, penv, env.Get(LoopMin(name))); }
    if LoopMax(name) in scope { assert Contains(scope[LoopMax(name)], w, penv, env.Get(LoopMax(name))); }
  }

  lemma LiveLoop(name: string, min: Expr, extent: Expr, i: int, scope: Scope, c: Tools, g: Context,
      names: set<string>, params: set<string>, w: World, penv: Env, env: Env)
    requires Live(scope, c, g, names, params, w, penv, env)
    requires Integer(min, scope, c, g, names) && Integer(extent, scope, c, g, names)
    requires Defined(min, w, env) && Defined(extent, w, env)
    requires Eval(min, w, env) <= i < Eval(min, w, env) + Eval(extent, w, env)
    requires LoopEndsHold(name, scope.Keys, Eval(min, w, env), Eval(min, w, env) + Eval(extent, w, env) - 1, env)
    requires forall n :: n in scope && (n == LoopMin(name) || n == LoopMax(name)) ==> n in g.vars && g.vars[n] == Int(32)
    ensures Live(scope[name := LoopInterval(name, min, extent, scope, c)], c, g.Bind(name, Int(32)), names, params, w, penv, env.Set(name, i))
  {
    var j := LoopInterval(name, min, extent, scope, c);
    LoopContains(name, min, extent, i, scope, c, g, names, params, w, penv, env);
    LoopGood(name, min, extent, scope, c, g, names, params, w);
    AnyInt(j, w, penv);
    LiveWith(scope, name, j, i, c, g, Int(32), names, params, w, penv, env);
  }

  // ---------- lets ----------

  lemma LetBoundsGood(value: Expr, scope: Scope, c: Tools, g: Context, names: set<string>, params: set<string>,
      w: World)
    requires Base(scope, c, g, names, params, w) && ExprSane(value, scope, c, g, names)
    ensures Good(LetBounds(c, value, scope), names)
  {
    SaneBounds(value, scope, c, g, names, params, w);
    var i := BoundsOf(value, scope, c);
    if i.min.Fin? { SimplifyShape(c, i.min.e, names, w); }
    if i.max.Fin? { SimplifyShape(c, i.max.e, names, w); }
  }

  lemma LetBoundsBracket(value: Expr, scope: Scope, c: Tools, g: Context, names: set<string>, params: set<string>,
      w: World, penv: Env, env: Env)
    requires Live(scope, c, g, names, params, w, penv, env) && ExprSane(value, scope, c, g, names)
    requires Defined(value, w, env)
    ensures Brackets(LetBounds(c, value, scope), TypeOf(value).ElementOf(), w, penv, Eval(value, w, env))
    ensures InRange(TypeOf(value), Eval(value, w, env))
  {
    LiveBounds(value, scope, c, g, names, params, w, penv, env);
    var i := BoundsOf(value, scope, c);
    if i.min.Fin? { assert Eval(c.simplify(i.min.e), w, penv) == Eval(i.min.e, w, penv); }
    if i.max.Fin? { assert Eval(c.simplify(i.max.e), w, penv) == Eval(i.max.e, w, penv); }
  }

  lemma GoodMore(i: Interval, names: set<string>, names': set<string>)
    requires Good(i, names) && names <= names'
    ensures Good(i, names')
  {}

  lemma BaseMore(scope: Scope, c: Tools, g: Context, names: set<string>, names': set<string>, params: set<string>,
      w: World)
    requires Base(scope, c, g, names, params, w) && names <= names' && (AnyCall in names' ==> AnyCall in names)
    ensures Base(scope, c, g, names', params, w)
  {
    forall n | n in scope ensures Good(scope[n], names') { GoodMore(scope[n], names, names'); }
    forall k | k in c.fb ensures Good(c.fb[k], names') { GoodMore(c.fb[k], names, names'); }
  }

  /** The scope of the body of a let. */
  lemma LetScopeGood(name: string, value: Expr, scope: Scope, c: Tools, g: Context, names: set<string>,
      params: set<string>, w: World)
    requires Base(scope, c, g, names, params, w) && ExprSane(value, scope, c, g, names)
    requires var i := LetBounds(c, value, scope);
             Substitutes(i) || (TypeOf(value).lanes == 1 && Fresh(name) !! names && i.IsBounded())
    ensures var i := LetBounds(c, value, scope);
            && Base(scope[name := LetEntry(i, TypeOf(value), name)], c, g.Bind(name, TypeOf(value)), LetScopeNames(i, name, names), params, w)
            && LetReady(i, name, names)
  {
    var i := LetBounds(c, value, scope);
    LetBoundsGood(value, scope, c, g, names, params, w);
    var names' := LetScopeNames(i, name, names);
    FreshDiffer(name);
    BaseMore(scope, c, g, names, names', params, w);
    GoodMore(i, names, names');
    ScopeWith(scope, name, LetEntry(i, TypeOf(value), name), c, g, TypeOf(value), names', params, w);
  }

  /** Naming fresh variables does not disturb a setting. */
  lemma LiveFresh(scope: Scope, c: Tools, g: Context, names: set<string>, added: set<string>, params: set<string>,
      w: World, penv: Env, penv': Env, env: Env)
    requires Live(scope, c, g, names, params, w, penv, env) && added !! names + g.vars.Keys && AnyCall !in added
    requires forall n :: n !in added ==> penv'.Get(n) == penv.Get(n)
    ensures Live(scope, c, g, names + added, params, w, penv', env)
  {
    BaseMore(scope, c, g, names, names + added, params, w);
    FuncsKept(c.fb, g, names, w, penv, penv');
    forall n | n in g.vars && n in scope ensures Brackets(scope[n], g.vars[n].ElementOf(), w, penv', env.Get(n)) {
      BracketsAgree(scope[n], names, g.vars[n].ElementOf(), w, penv, penv', env.Get(n));
    }
  }

  lemma LetEntryContains(i: Interval, t: Type, name: string, w: World, penv: Env, v: int)
    requires t.lanes == 1 && i.IsBounded() && !Substitutes(i) && Brackets(i, t, w, penv, v)
    ensures Brackets(LetEntry(i, t, name), t, w, BindEnv(i, name, w, penv), v)
  {
    FreshDiffer(name);
    var p := BindEnv(i, name, w, penv);
    assert p.Get(MinVar(name)) == Eval(i.min.e, w, penv) && p.Get(MaxVar(name)) == Eval(i.max.e, w, penv);
  }

  lemma LiveLet(name: string, value: Expr, scope: Scope, c: Tools, g: Context, names: set<string>,
      params: set<string>, w: World, penv: Env, env: Env)
    requires Live(scope, c, g, names, params, w, penv, env) && ExprSane(value, scope, c, g, names)
    requires Defined(value, w, env)
    requires var i := LetBounds(c, value, scope);
             Substitutes(i) || (i.IsBounded() && TypeOf(value).lanes == 1 && Fresh(name) !! g.vars.Keys + names + {name})
    ensures var i := LetBounds(c, value, scope);
            Live(scope[name := LetEntry(i, TypeOf(value), name)], c, g.Bind(name, TypeOf(value)), LetScopeNames(i, name, names), params,
                 w, BindEnv(i, name, w, penv), env.Set(name, Eval(value, w, env)))
  {
    var i, t, v := LetBounds(c, value, scope), TypeOf(value), Eval(value, w, env);
    LetBoundsGood(value, scope, c, g, names, params, w);
    LetBoundsBracket(value, scope, c, g, names, params, w, penv, env);
    if Substitutes(i) {
      LiveWith(scope, name, i, v, c, g, t, names, params, w, penv, env);
    } else {
      LiveLargeLet(name, i, t, v, scope, c, g, names, params, w, penv, env);
    }
  }

  lemma LiveLargeLet(name: string, i: Interval, t: Type, v: int, scope: Scope, c: Tools, g: Context,
      names: set<string>, params: set<string>, w: World, penv: Env, env: Env)
    requires Live(scope, c, g, names, params, w, penv, env) && !Substitutes(i) && i.IsBounded()
    requires t.lanes == 1 && InRange(t, v) && Brackets(i, t, w, penv, v) && Fresh(name) !! g.vars.Keys + names
    ensures Live(scope[name := LetEntry(i, t, name)], c, g.Bind(name, t), names + Fresh(name), params, w, BindEnv(i, name, w, penv), env.Set(name, v))
  {
    var penv' := BindEnv(i, name, w, penv);
    LiveFresh(scope, c, g, names, Fresh(name), params, w, penv, penv', env);
    LetEntryContains(i, t, name, w, penv, v);
    LiveWith(scope, name, LetEntry(i, t, name), v, c, g, t, names + Fresh(name), params, w, penv', env);
  }

  // ---------- conditions ----------

  lemma TrimEndGood(op: BinOp, b: Bound, e: Expr, likely: bool, names: set<string>)
    requires NeatBound(b, names) && Neat(e, names)
    ensures NeatBound(TrimEnd(op, LikelyEnd(b, likely), e), names) && TrimEnd(op, LikelyEnd(b, likely), e).Fin?
  {
    if likely && b.Fin? {
      ScalarLanes(b.e);
      NeatCall(Likely, TypeOf(b.e), "likely", 0, b.e, names);
    }
  }

  lemma TrimGood(i: Interval, op: BinOp, o: Interval, likely: bool, names: set<string>)
    requires Good(i, names) && Good(o, names)
    ensures Good(Trim(i, op, o, likely), names)
  {
    var one := Imm(Int(32), 1);
    if o.HasUpper() {
      NeatBin(Sub, Int(32), o.max.e, one, names);
      TrimEndGood(Min, i.max, Bin(Sub, Int(32), o.max.e, one), likely, names);
      TrimEndGood(Min, i.max, o.max.e, likely, names);
    }
    if o.HasLower() {
      NeatBin(Add, Int(32), o.min.e, one, names);
      TrimEndGood(Max, i.min, Bin(Add, Int(32), o.min.e, one), likely, names);
      TrimEndGood(Max, i.min, o.min.e, likely, names);
    }
  }

  lemma TrimScopeGood(cond: Expr, scope: Scope, c: Tools, g: Context, names: set<string>, params: set<string>, w: World)
    requires Base(scope, c, g, names, params, w) && TrimSane(cond, scope, c, g, names)
    ensures Base(TrimScope(cond, scope, c), c, g, names, params, w) && TrimScope(cond, scope, c).Keys == scope.Keys
  {
    var k := StripLikely(cond);
    if TrimsLeft(k, scope) {
      SaneBounds(k.b, scope, c, g, names, params, w);
      TrimGood(scope[k.a.name], k.op, BoundsOf(k.b, scope, c), IsLikely(cond), names);
    } else if TrimsRight(k, scope) {
      SaneBounds(k.a, scope, c, g, names, params, w);
      TrimGood(scope[k.b.name], Flip(k.op), BoundsOf(k.a, scope, c), IsLikely(cond), names);
    }
  }

  predicate Compares(op: BinOp, x: int, y: int) {
    match op
    case LT => x < y
    case LE => x <= y
    case GT => x > y
    case GE => x >= y
    case EQ => x == y
    case _ => true
  }

  lemma LikelyEndValue(b: Bound, likely: bool, w: World, penv: Env, v: int)
    ensures AtMost(b, w, penv, v) ==> AtMost(LikelyEnd(b, likely), w, penv, v)
    ensures AtLeast(b, w, penv, v) ==> AtLeast(LikelyEnd(b, likely), w, penv, v)
  {
    if likely && b.Fin? { EvalOne(b.e, w, penv); }
  }

  /** The trimmed interval still contains every value for which the comparison holds. */
  lemma TrimContains(i: Interval, op: BinOp, o: Interval, likely: bool, w: World, penv: Env, v: int, u: int)
    requires Contains(i, w, penv, v) && Contains(o, w, penv, u) && Compares(op, v, u)
    ensures Contains(Trim(i, op, o, likely), w, penv, v)
  {
    LikelyEndValue(i.max, likely, w, penv, v);
    LikelyEndValue(i.min, likely, w, penv, v);
    var one := Imm(Int(32), 1);
    assert Eval(one, w, penv) == 1;
    if o.HasUpper() {
      TrimEndAbove(LikelyEnd(i.max, likely), Bin(Sub, Int(32), o.max.e, one), w, penv, v);
      TrimEndAbove(LikelyEnd(i.max, likely), o.max.e, w, penv, v);
    }
    if o.HasLower() {
      TrimEndBelow(LikelyEnd(i.min, likely), Bin(Add, Int(32), o.min.e, one), w, penv, v);
      TrimEndBelow(LikelyEnd(i.min, likely), o.min.e, w, penv, v);
    }
  }

  lemma TrimEndAbove(b: Bound, e: Expr, w: World, penv: Env, v: int)
    requires AtMost(b, w, penv, v)
    ensures v <= Eval(e, w, penv) ==> AtMost(TrimEnd(Min, b, e), w, penv, v)
  {}

  lemma TrimEndBelow(b: Bound, e: Expr, w: World, penv: Env, v: int)
    requires AtLeast(b, w, penv, v)
    ensures v >= Eval(e, w, penv) ==> AtLeast(TrimEnd(Max, b, e), w, penv, v)
  {}

  lemma ComparisonHolds(k: Expr, w: World, env: Env)
    requires k.Bin? && Trims(k.op) && Eval(k, w, env) != 0
    ensures Compares(k.op, Eval(k.a, w, env), Eval(k.b, w, env))
    ensures Compares(Flip(k.op), Eval(k.b, w, env), Eval(k.a, w, env))
  {}

  lemma StripLikelySame(cond: Expr, g: Context, w: World, env: Env)
    requires WellTyped(cond, g)
    ensures Eval(StripLikely(cond), w, env) == Eval(cond, w, env) && WellTyped(StripLikely(cond), g)
    ensures Defined(cond, w, env) ==> Defined(StripLikely(cond), w, env)
  {
    if IsLikely(cond) {
      assert EvalArgs(cond.args, w, env)[0] == Eval(cond.args[0], w, env);
      WellTypedArg(cond.args, g, cond.t.lanes, 0);
      if Defined(cond, w, env) { DefinedArg(cond.args, w, env, 0); }
    }
  }

  lemma IntegerVar(e: Expr, g: Context, w: World, env: Env)
    requires e.Var? && WellTyped(e, g) && e.t == Int(32)
    ensures Eval(e, w, env) == env.Get(e.name) && g.vars[e.name] == Int(32)
  {}

  /** In the branch taken the trimmed scope is right. */
  lemma LiveTrim(cond: Expr, scope: Scope, c: Tools, g: Context, names: set<string>, params: set<string>, w: World,
      penv: Env, env: Env)
    requires Live(scope, c, g, names, params, w, penv, env) && TrimSane(cond, scope, c, g, names)
    requires Defined(cond, w, env) && Eval(cond, w, env) != 0
    ensures Live(TrimScope(cond, scope, c), c, g, names, params, w, penv, env)
  {
    var k := StripLikely(cond);
    StripLikelySame(cond, g, w, env);
    TrimScopeGood(cond, scope, c, g, names, params, w);
    if TrimsLeft(k, scope) {
      TrimLeftContains(k, IsLikely(cond), scope, c, g, names, params, w, penv, env);
      LiveTrimmed(scope, k.a.name, Trim(scope[k.a.name], k.op, BoundsOf(k.b, scope, c), IsLikely(cond)), c, g, names,
          params, w, penv, env);
    } else if TrimsRight(k, scope) {
      TrimRightContains(k, IsLikely(cond), scope, c, g, names, params, w, penv, env);
      LiveTrimmed(scope, k.b.name, Trim(scope[k.b.name], Flip(k.op), BoundsOf(k.a, scope, c), IsLikely(cond)), c, g,
          names, params, w, penv, env);
    }
  }

  lemma TrimLeftContains(k: Expr, likely: bool, scope: Scope, c: Tools, g: Context, names: set<string>,
      params: set<string>, w: World, penv: Env, env: Env)
    requires Live(scope, c, g, names, params, w, penv, env) && TrimsLeft(k, scope) && WellTyped(k, g)
    requires Integer(k.b, scope, c, g, names) && Defined(k.b, w, env) && Eval(k, w, env) != 0
    ensures Contains(Trim(scope[k.a.name], k.op, BoundsOf(k.b, scope, c), likely), w, penv, env.Get(k.a.name))
    ensures k.a.name in g.vars && g.vars[k.a.name] == Int(32)
  {
    ComparisonHolds(k, w, env);
    IntegerVar(k.a, g, w, env);
    LiveBounds(k.b, scope, c, g, names, params, w, penv, env);
    TrimContains(scope[k.a.name], k.op, BoundsOf(k.b, scope, c), likely, w, penv, env.Get(k.a.name), Eval(k.b, w, env));
  }

  lemma TrimRightContains(k: Expr, likely: bool, scope: Scope, c: Tools, g: Context, names: set<string>,
      params: set<string>, w: World, penv: Env, env: Env)
    requires Live(scope, c, g, names, params, w, penv, env) && TrimsRight(k, scope) && WellTyped(k, g)
    requires Integer(k.a, scope, c, g, names) && Defined(k.a, w, env) && Eval(k, w, env) != 0
    ensures Contains(Trim(scope[k.b.name], Flip(k.op), BoundsOf(k.a, scope, c), likely), w, penv, env.Get(k.b.name))
    ensures k.b.name in g.vars && g.vars[k.b.name] == Int(32)
  {
    ComparisonHolds(k, w, env);
    IntegerVar(k.b, g, w, env);
    LiveBounds(k.a, scope, c, g, names, params, w, penv, env);
    TrimContains(scope[k.b.name], Flip(k.op), BoundsOf(k.a, scope, c), likely, w, penv, env.Get(k.b.name),
        Eval(k.a, w, env));
  }

  lemma LiveTrimmed(scope: Scope, name: string, i: Interval, c: Tools, g: Context, names: set<string>,
      params: set<string>, w: World, penv: Env, env: Env)
    requires Live(scope, c, g, names, params, w, penv, env) && Base(scope[name := i], c, g, names, params, w)
    requires name in scope && name in g.vars && g.vars[name] == Int(32)
    requires Contains(i, w, penv, env.Get(name))
    ensures Live(scope[name := i], c, g, names, params, w, penv, env)
  {
    AnyInt(i, w, penv);
  }
}
