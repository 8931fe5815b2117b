/** The main theorem on regions: every point a run touches is reported, under the run's
    parameters, and nothing reported is ever lost. */
module RegionTheorem {
  import opened IR
  import opened Intervals
  import opened BoundsRules
  import opened RuleSoundness
  import opened IntervalSoundness
  import opened IntervalShape
  import opened Boxes
  import opened BoxesTouched
  import opened Trees
  import opened RegionSoundness
  import opened RegionScopes

  // ---------- the traversal only adds ----------

  ghost predicate Ok(s: Stmt, scope: Scope, m: Mode, c: Tools, g: Context, names: set<string>, params: set<string>,
      ar: map<string, nat>, w: World) {
    Sane(s, scope, m, c, g, names, ar) && Base(scope, c, g, names, params, w)
  }

  ghost predicate OkArgs(es: seq<Expr>, scope: Scope, m: Mode, c: Tools, g: Context, names: set<string>,
      params: set<string>, ar: map<string, nat>, w: World) {
    SaneArgs(es, scope, m, c, g, names, ar) && Base(scope, c, g, names, params, w)
  }

  /** The traversal leaves well-formed boxes that report all that was reported before. */
  lemma {:induction false} TouchKeeps(s: Stmt, scope: Scope, m: Mode, c: Tools, g: Context, names: set<string>,
      params: set<string>, ar: map<string, nat>, w: World, boxes: BoxMap)
    requires Ok(s, scope, m, c, g, names, params, ar, w) && BoxesGood(boxes, names, params, ar)
    ensures Kept(boxes, Touch(s, scope, m, c, boxes), names, params, ar, w)
    decreases StmtSize(s), 2
  {
    match s
    case Evaluate(e) => EvaluateKeeps(s, scope, m, c, g, names, params, ar, w, boxes);
    case Provide(_, _, _) => ProvideKeeps(s, scope, m, c, g, names, params, ar, w, boxes);
    case For(_, _, _, _) => ForKeeps(s, scope, m, c, g, names, params, ar, w, boxes);
    case LetStmt(_, _, _) => LetKeeps(s, scope, m, c, g, names, params, ar, w, boxes);
    case IfThenElse(_, _, _) => IfKeeps(s, scope, m, c, g, names, params, ar, w, boxes);
    case Block(first, rest) =>
      TouchKeeps(first, scope, m, c, g, names, params, ar, w, boxes);
      TouchKeeps(rest, scope, m, c, g, names, params, ar, w, Touch(first, scope, m, c, boxes));
  }

  lemma {:induction false} TouchArgsKeeps(es: seq<Expr>, scope: Scope, m: Mode, c: Tools, g: Context,
      names: set<string>, params: set<string>, ar: map<string, nat>, w: World, boxes: BoxMap)
    requires OkArgs(es, scope, m, c, g, names, params, ar, w) && BoxesGood(boxes, names, params, ar)
    ensures Kept(boxes, TouchArgs(es, scope, m, c, boxes), names, params, ar, w)
    decreases Sizes(es), 2
  {
    if es != [] {
      TouchKeeps(Evaluate(es[0]), scope, m, c, g, names, params, ar, w, boxes);
      TouchArgsKeeps(es[1..], scope, m, c, g, names, params, ar, w, Touch(Evaluate(es[0]), scope, m, c, boxes));
    }
  }

  /** A read merges the box of its arguments into that of its function. */
  function ReadBoxes(e: Expr, scope: Scope, m: Mode, c: Tools, boxes: BoxMap): BoxMap
    requires e.Call?
  {
    if Reads(e) && m.Wants(e.name) then MergeInto(c, boxes, e.name, ArgBox(Some(ConstTrue()), e.args, scope, c)) else boxes
  }

  lemma ReadKept(e: Expr, scope: Scope, m: Mode, c: Tools, g: Context, names: set<string>, params: set<string>,
      ar: map<string, nat>, w: World, boxes: BoxMap)
    requires e.Call? && !IsIf(e) && m.calls
    requires Ok(Evaluate(e), scope, m, c, g, names, params, ar, w) && BoxesGood(boxes, names, params, ar)
    ensures Kept(boxes, ReadBoxes(e, scope, m, c, boxes), names, params, ar, w)
    ensures forall penv, pt :: pt != [] && Reads(e) && m.Wants(e.name) && Covers(ArgBox(Some(ConstTrue()), e.args, scope, c), w, penv, pt) ==>
              Reported(ReadBoxes(e, scope, m, c, boxes), w, penv, e.name, pt)
  {
    if Reads(e) && m.Wants(e.name) {
      var used := Some(ConstTrue());
      ArgBoxGood(used, e.args, e.name, scope, c, g, names, params, ar, w);
      MergeIntoKept(c, boxes, e.name, ArgBox(used, e.args, scope, c), names, params, ar, w);
    }
  }

  lemma {:induction false} EvaluateKeeps(s: Stmt, scope: Scope, m: Mode, c: Tools, g: Context, names: set<string>,
      params: set<string>, ar: map<string, nat>, w: World, boxes: BoxMap)
    requires s.Evaluate? && Ok(s, scope, m, c, g, names, params, ar, w) && BoxesGood(boxes, names, params, ar)
    ensures Kept(boxes, Touch(s, scope, m, c, boxes), names, params, ar, w)
    decreases StmtSize(s), 1
  {
    var e := s.value;
    if e.Let? {
      AsLetSize(e);
      TouchKeeps(AsLetStmt(e), scope, m, c, g, names, params, ar, w, boxes);
    } else if !e.Call? {
      ChildSizes(e);
      TouchArgsKeeps(Children(e), scope, m, c, g, names, params, ar, w, boxes);
    } else if !m.calls {
    } else if IsIf(e) {
      AsIfSize(e);
      TouchKeeps(AsIf(e), scope, m, c, g, names, params, ar, w, boxes);
    } else {
      CallKeeps(e, scope, m, c, g, names, params, ar, w, boxes);
    }
  }

  lemma {:induction false} CallKeeps(e: Expr, scope: Scope, m: Mode, c: Tools, g: Context, names: set<string>,
      params: set<string>, ar: map<string, nat>, w: World, boxes: BoxMap)
    requires e.Call? && !IsIf(e) && m.calls
    requires Ok(Evaluate(e), scope, m, c, g, names, params, ar, w) && BoxesGood(boxes, names, params, ar)
    ensures Kept(boxes, Touch(Evaluate(e), scope, m, c, boxes), names, params, ar, w)
    decreases StmtSize(Evaluate(e)), 0
  {
    var once := TouchArgs(e.args, scope, m, c, boxes);
    TouchArgsKeeps(e.args, scope, m, c, g, names, params, ar, w, boxes);
    if Reads(e) {
      var twice := TouchArgs(e.args, scope, m, c, once);
      TouchArgsKeeps(e.args, scope, m, c, g, names, params, ar, w, once);
      ReadKept(e, scope, m, c, g, names, params, ar, w, twice);
    }
  }

  function WriteBoxes(s: Stmt, scope: Scope, m: Mode, c: Tools, boxes: BoxMap): BoxMap
    requires s.Provide?
  {
    if m.stores && m.Wants(s.name) then MergeInto(c, boxes, s.name, ArgBox(None, s.args, scope, c)) else boxes
  }

  lemma WriteKept(s: Stmt, scope: Scope, m: Mode, c: Tools, g: Context, names: set<string>, params: set<string>,
      ar: map<string, nat>, w: World, boxes: BoxMap)
    requires s.Provide? && Ok(s, scope, m, c, g, names, params, ar, w) && BoxesGood(boxes, names, params, ar)
    ensures Kept(boxes, WriteBoxes(s, scope, m, c, boxes), names, params, ar, w)
    ensures forall penv, pt :: pt != [] && m.stores && m.Wants(s.name) && Covers(ArgBox(None, s.args, scope, c), w, penv, pt) ==>
              Reported(WriteBoxes(s, scope, m, c, boxes), w, penv, s.name, pt)
  {
    if m.stores && m.Wants(s.name) {
      ArgBoxGood(None, s.args, s.name, scope, c, g, names, params, ar, w);
      MergeIntoKept(c, boxes, s.name, ArgBox(None, s.args, scope, c), names, params, ar, w);
    }
  }

  lemma {:induction false} ProvideKeeps(s: Stmt, scope: Scope, m: Mode, c: Tools, g: Context, names: set<string>,
      params: set<string>, ar: map<string, nat>, w: World, boxes: BoxMap)
    requires s.Provide? && Ok(s, scope, m, c, g, names, params, ar, w) && BoxesGood(boxes, names, params, ar)
    ensures Kept(boxes, Touch(s, scope, m, c, boxes), names, params, ar, w)
    decreases StmtSize(s), 1
  {
    var b := WriteBoxes(s, scope, m, c, boxes);
    WriteKept(s, scope, m, c, g, names, params, ar, w, boxes);
    if m.calls {
      TouchArgsKeeps(s.args, scope, m, c, g, names, params, ar, w, b);
      TouchArgsKeeps(s.values, scope, m, c, g, names, params, ar, w, TouchArgs(s.args, scope, m, c, b));
    }
  }

  function EndBoxes(s: Stmt, scope: Scope, m: Mode, c: Tools, boxes: BoxMap): BoxMap
    requires s.For?
  {
    if m.calls then Touch(Evaluate(s.extent), scope, m, c, Touch(Evaluate(s.min), scope, m, c, boxes)) else boxes
  }

  lemma {:induction false} EndsKeep(s: Stmt, scope: Scope, m: Mode, c: Tools, g: Context, names: set<string>,
      params: set<string>, ar: map<string, nat>, w: World, boxes: BoxMap)
    requires s.For? && Ok(s, scope, m, c, g, names, params, ar, w) && BoxesGood(boxes, names, params, ar)
    ensures Kept(boxes, EndBoxes(s, scope, m, c, boxes), names, params, ar, w)
    decreases StmtSize(s), 0
  {
    if m.calls {
      TouchKeeps(Evaluate(s.min), scope, m, c, g, names, params, ar, w, boxes);
      TouchKeeps(Evaluate(s.extent), scope, m, c, g, names, params, ar, w, Touch(Evaluate(s.min), scope, m, c, boxes));
    }
  }

  lemma ForBody(s: Stmt, scope: Scope, m: Mode, c: Tools, g: Context, names: set<string>, params: set<string>,
      ar: map<string, nat>, w: World)
    requires s.For? && Ok(s, scope, m, c, g, names, params, ar, w)
    ensures Ok(s.body, scope[s.name := LoopInterval(s.name, s.min, s.extent, scope, c)], m, c, g.Bind(s.name, Int(32)), names, params, ar, w)
  {
    var i := LoopInterval(s.name, s.min, s.extent, scope, c);
    LoopGood(s.name, s.min, s.extent, scope, c, g, names, params, w);
    ScopeWith(scope, s.name, i, c, g, Int(32), names, params, w);
  }

  lemma {:induction false} ForKeeps(s: Stmt, scope: Scope, m: Mode, c: Tools, g: Context, names: set<string>,
      params: set<string>, ar: map<string, nat>, w: World, boxes: BoxMap)
    requires s.For? && Ok(s, scope, m, c, g, names, params, ar, w) && BoxesGood(boxes, names, params, ar)
    ensures Kept(boxes, Touch(s, scope, m, c, boxes), names, params, ar, w)
    decreases StmtSize(s), 1
  {
    EndsKeep(s, scope, m, c, g, names, params, ar, w, boxes);
    ForBody(s, scope, m, c, g, names, params, ar, w);
    TouchKeeps(s.body, scope[s.name := LoopInterval(s.name, s.min, s.extent, scope, c)], m, c, g.Bind(s.name, Int(32)),
               names, params, ar, w, EndBoxes(s, scope, m, c, boxes));
  }

  function ValueBoxes(s: Stmt, scope: Scope, m: Mode, c: Tools, boxes: BoxMap): BoxMap
    requires s.LetStmt?
  {
    if m.calls then Touch(Evaluate(s.value), scope, m, c, boxes) else boxes
  }

  function LetScope(s: Stmt, scope: Scope, c: Tools): Scope
    requires s.LetStmt?
  {
    scope[s.name := LetEntry(LetBounds(c, s.value, scope), TypeOf(s.value), s.name)]
  }

  lemma LetBody(s: Stmt, scope: Scope, m: Mode, c: Tools, g: Context, names: set<string>, params: set<string>,
      ar: map<string, nat>, w: World)
    requires s.LetStmt? && Ok(s, scope, m, c, g, names, params, ar, w)
    ensures var i := LetBounds(c, s.value, scope);
            && Ok(s.body, LetScope(s, scope, c), m, c, g.Bind(s.name, TypeOf(s.value)), LetScopeNames(i, s.name, names), params, ar, w)
            && LetReady(i, s.name, names)
  {
    LetScopeGood(s.name, s.value, scope, c, g, names, params, w);
  }

  lemma {:induction false} LetKeeps(s: Stmt, scope: Scope, m: Mode, c: Tools, g: Context, names: set<string>,
      params: set<string>, ar: map<string, nat>, w: World, boxes: BoxMap)
    requires s.LetStmt? && Ok(s, scope, m, c, g, names, params, ar, w) && BoxesGood(boxes, names, params, ar)
    ensures Kept(boxes, Touch(s, scope, m, c, boxes), names, params, ar, w)
    decreases StmtSize(s), 1
  {
    var i := LetBounds(c, s.value, scope);
    var b := ValueBoxes(s, scope, m, c, boxes);
    if m.calls { TouchKeeps(Evaluate(s.value), scope, m, c, g, names, params, ar, w, boxes); }
    LetBody(s, scope, m, c, g, names, params, ar, w);
    MoreNames(b, names, LetScopeNames(i, s.name, names), params, ar);
    TouchKeeps(s.body, LetScope(s, scope, c), m, c, g.Bind(s.name, TypeOf(s.value)), LetScopeNames(i, s.name, names),
        params, ar, w, b);
    LetKept(b, Touch(s.body, LetScope(s, scope, c), m, c, b), i, s.name, names, params, ar, w);
    LetUnfolds(s, scope, m, c, boxes);
    KeptAgain(boxes, b, BindBoxes(Touch(s.body, LetScope(s, scope, c), m, c, b), i, s.name), names, params, ar, w);
  }

  lemma LetUnfolds(s: Stmt, scope: Scope, m: Mode, c: Tools, boxes: BoxMap)
    requires s.LetStmt?
    ensures Touch(s, scope, m, c, boxes)
         == BindBoxes(Touch(s.body, LetScope(s, scope, c), m, c, ValueBoxes(s, scope, m, c, boxes)), LetBounds(c, s.value, scope), s.name)
  {}

  lemma KeptAgain(b: BoxMap, b': BoxMap, b'': BoxMap, names: set<string>, params: set<string>, ar: map<string, nat>,
      w: World)
    requires Grows(b, b', w) && Kept(b', b'', names, params, ar, w)
    ensures Kept(b, b'', names, params, ar, w)
  {}

  lemma {:induction false} IfKeeps(s: Stmt, scope: Scope, m: Mode, c: Tools, g: Context, names: set<string>,
      params: set<string>, ar: map<string, nat>, w: World, boxes: BoxMap)
    requires s.IfThenElse? && Ok(s, scope, m, c, g, names, params, ar, w) && BoxesGood(boxes, names, params, ar)
    ensures Kept(boxes, Touch(s, scope, m, c, boxes), names, params, ar, w)
    decreases StmtSize(s), 1
  {
    var b := Touch(Evaluate(s.cond), scope, m, c, boxes);
    TouchKeeps(Evaluate(s.cond), scope, m, c, g, names, params, ar, w, boxes);
    if !UsesVars(s.cond, scope.Keys) {
      ForkKeeps(s, scope, m, c, g, names, params, ar, w, b);
    } else if IsNoOp(s.elseCase) {
      TrimScopeGood(s.cond, scope, c, g, names, params, w);
      TouchKeeps(s.thenCase, TrimScope(s.cond, scope, c), m, c, g, names, params, ar, w, b);
    } else {
      TouchKeeps(s.thenCase, scope, m, c, g, names, params, ar, w, b);
      TouchKeeps(s.elseCase.value, scope, m, c, g, names, params, ar, w, Touch(s.thenCase, scope, m, c, b));
    }
  }

  function ThenBoxes(s: Stmt, scope: Scope, m: Mode, c: Tools): BoxMap
    requires s.IfThenElse?
  {
    Touch(s.thenCase, scope, m, c, map[])
  }

  function ElseBoxes(s: Stmt, scope: Scope, m: Mode, c: Tools): BoxMap
    requires s.IfThenElse?
  {
    if s.elseCase.Some? then Touch(s.elseCase.value, scope, m, c, map[]) else map[]
  }

  lemma {:induction false} ForkKeeps(s: Stmt, scope: Scope, m: Mode, c: Tools, g: Context, names: set<string>,
      params: set<string>, ar: map<string, nat>, w: World, b: BoxMap)
    requires s.IfThenElse? && Ok(s, scope, m, c, g, names, params, ar, w) && BoxesGood(b, names, params, ar)
    requires !UsesVars(s.cond, scope.Keys)
    ensures Kept(b, Fork(c, s.cond, b, ThenBoxes(s, scope, m, c), ElseBoxes(s, scope, m, c)), names, params, ar, w)
    ensures BoxesGood(ThenBoxes(s, scope, m, c), names, params, ar)
    ensures BoxesGood(ElseBoxes(s, scope, m, c), names, params, ar)
    ensures Neat(s.cond, params)
    decreases StmtSize(s), 0
  {
    TouchKeeps(s.thenCase, scope, m, c, g, names, params, ar, w, map[]);
    if s.elseCase.Some? { TouchKeeps(s.elseCase.value, scope, m, c, g, names, params, ar, w, map[]); }
    ConditionNeat(s.cond, scope, g, params);
    ForkKept(c, s.cond, b, ThenBoxes(s, scope, m, c), ElseBoxes(s, scope, m, c), names, params, ar, w);
  }

  // ---------- the traversal reports every point touched ----------

  /** A run in a sound setting that touches the point. */
  ghost predicate Hit(s: Stmt, scope: Scope, m: Mode, c: Tools, g: Context, names: set<string>, params: set<string>,
      ar: map<string, nat>, w: World, penv: Env, env: Env, f: string, pt: seq<int>) {
    && Sane(s, scope, m, c, g, names, ar) && Live(scope, c, g, names, params, w, penv, env)
    && Runs(s, scope.Keys, w, env) && Touched(s, m, w, env, f, pt) && pt != []
  }

  ghost predicate HitArgs(es: seq<Expr>, scope: Scope, m: Mode, c: Tools, g: Context, names: set<string>,
      params: set<string>, ar: map<string, nat>, w: World, penv: Env, env: Env, f: string, pt: seq<int>) {
    && SaneArgs(es, scope, m, c, g, names, ar) && Live(scope, c, g, names, params, w, penv, env)
    && RunsArgs(es, scope.Keys, w, env) && TouchedArgs(es, m, w, env, f, pt) && pt != []
  }

  /** Every point that a run reads or writes lies in the box reported for its function. */
  lemma {:induction false} TouchSound(s: Stmt, scope: Scope, m: Mode, c: Tools, g: Context, names: set<string>,
      params: set<string>, ar: map<string, nat>, w: World, penv: Env, env: Env, f: string, pt: seq<int>, boxes: BoxMap)
    requires Hit(s, scope, m, c, g, names, params, ar, w, penv, env, f, pt) && BoxesGood(boxes, names, params, ar)
    ensures Reported(Touch(s, scope, m, c, boxes), w, penv, f, pt)
    decreases StmtSize(s), 2
  {
    match s
    case Evaluate(_) => EvaluateReports(s, scope, m, c, g, names, params, ar, w, penv, env, f, pt, boxes);
    case Provide(_, _, _) => ProvideReports(s, scope, m, c, g, names, params, ar, w, penv, env, f, pt, boxes);
    case For(_, _, _, _) => ForReports(s, scope, m, c, g, names, params, ar, w, penv, env, f, pt, boxes);
    case LetStmt(_, _, _) => LetReports(s, scope, m, c, g, names, params, ar, w, penv, env, f, pt, boxes);
    case IfThenElse(_, _, _) => IfReports(s, scope, m, c, g, names, params, ar, w, penv, env, f, pt, boxes);
    case Block(first, rest) =>
      TouchKeeps(first, scope, m, c, g, names, params, ar, w, boxes);
      var b := Touch(first, scope, m, c, boxes);
      if Touched(first, m, w, env, f, pt) {
        TouchSound(first, scope, m, c, g, names, params, ar, w, penv, env, f, pt, boxes);
        TouchKeeps(rest, scope, m, c, g, names, params, ar, w, b);
      } else {
        TouchSound(rest, scope, m, c, g, names, params, ar, w, penv, env, f, pt, b);
      }
  }

  lemma {:induction false} TouchArgsSound(es: seq<Expr>, scope: Scope, m: Mode, c: Tools, g: Context,
      names: set<string>, params: set<string>, ar: map<string, nat>, w: World, penv: Env, env: Env, f: string,
      pt: seq<int>, boxes: BoxMap)
    requires HitArgs(es, scope, m, c, g, names, params, ar, w, penv, env, f, pt) && BoxesGood(boxes, names, params, ar)
    ensures Reported(TouchArgs(es, scope, m, c, boxes), w, penv, f, pt)
    decreases Sizes(es), 2
  {
    var b := Touch(Evaluate(es[0]), scope, m, c, boxes);
    TouchKeeps(Evaluate(es[0]), scope, m, c, g, names, params, ar, w, boxes);
    if Touched(Evaluate(es[0]), m, w, env, f, pt) {
      TouchSound(Evaluate(es[0]), scope, m, c, g, names, params, ar, w, penv, env, f, pt, boxes);
      TouchArgsKeeps(es[1..], scope, m, c, g, names, params, ar, w, b);
    } else {
      TouchArgsSound(es[1..], scope, m, c, g, names, params, ar, w, penv, env, f, pt, b);
    }
  }

  lemma {:induction false} EvaluateReports(s: Stmt, scope: Scope, m: Mode, c: Tools, g: Context, names: set<string>,
      params: set<string>, ar: map<string, nat>, w: World, penv: Env, env: Env, f: string, pt: seq<int>, boxes: BoxMap)
    requires s.Evaluate? && Hit(s, scope, m, c, g, names, params, ar, w, penv, env, f, pt)
    requires BoxesGood(boxes, names, params, ar)
    ensures Reported(Touch(s, scope, m, c, boxes), w, penv, f, pt)
    decreases StmtSize(s), 1
  {
    var e := s.value;
    if e.Let? {
      AsLetSize(e);
      TouchSound(AsLetStmt(e), scope, m, c, g, names, params, ar, w, penv, env, f, pt, boxes);
    } else if !e.Call? {
      ChildSizes(e);
      TouchArgsSound(Children(e), scope, m, c, g, names, params, ar, w, penv, env, f, pt, boxes);
    } else if !m.calls {
      NoCallsNoTouch(s, m, w, env, f, pt);
    } else if IsIf(e) {
      AsIfSize(e);
      TouchSound(AsIf(e), scope, m, c, g, names, params, ar, w, penv, env, f, pt, boxes);
    } else {
      CallReports(e, scope, m, c, g, names, params, ar, w, penv, env, f, pt, boxes);
    }
  }

  /** The indices lie in the box of their intervals. */
  lemma IndicesInBox(used: Option<Expr>, es: seq<Expr>, scope: Scope, c: Tools, g: Context, names: set<string>,
      params: set<string>, w: World, penv: Env, env: Env)
    requires Live(scope, c, g, names, params, w, penv, env) && Indices(es, scope, c, g, names)
    requires DefinedArgs(es, w, env)
    requires used.Some? ==> used.value == ConstTrue()
    ensures Covers(ArgBox(used, es, scope, c), w, penv, EvalArgs(es, w, env))
  {
    forall i | 0 <= i < |es| ensures Contains(BoundsOf(es[i], scope, c), w, penv, Eval(es[i], w, env)) {
      DefinedArg(es, w, env, i);
      assert ExprSane(es[i], scope, c, g, names);
      LiveBounds(es[i], scope, c, g, names, params, w, penv, env);
    }
  }

  lemma {:induction false} CallReports(e: Expr, scope: Scope, m: Mode, c: Tools, g: Context, names: set<string>,
      params: set<string>, ar: map<string, nat>, w: World, penv: Env, env: Env, f: string, pt: seq<int>, boxes: BoxMap)
    requires e.Call? && !IsIf(e) && m.calls
    requires Hit(Evaluate(e), scope, m, c, g, names, params, ar, w, penv, env, f, pt)
    requires BoxesGood(boxes, names, params, ar)
    ensures Reported(Touch(Evaluate(e), scope, m, c, boxes), w, penv, f, pt)
    decreases StmtSize(Evaluate(e)), 0
  {
    var once := TouchArgs(e.args, scope, m, c, boxes);
    TouchArgsKeeps(e.args, scope, m, c, g, names, params, ar, w, boxes);
    if TouchedArgs(e.args, m, w, env, f, pt) {
      TouchArgsSound(e.args, scope, m, c, g, names, params, ar, w, penv, env, f, pt, boxes);
    }
    if Reads(e) {
      var twice := TouchArgs(e.args, scope, m, c, once);
      TouchArgsKeeps(e.args, scope, m, c, g, names, params, ar, w, once);
      ReadKept(e, scope, m, c, g, names, params, ar, w, twice);
      if !TouchedArgs(e.args, m, w, env, f, pt) {
        IndicesInBox(Some(ConstTrue()), e.args, scope, c, g, names, params, w, penv, env);
      }
      ReadUnfolds(e, scope, m, c, boxes);
    }
  }

  lemma ReadUnfolds(e: Expr, scope: Scope, m: Mode, c: Tools, boxes: BoxMap)
    requires e.Call? && !IsIf(e) && m.calls && Reads(e)
    ensures Touch(Evaluate(e), scope, m, c, boxes)
         == ReadBoxes(e, scope, m, c, TouchArgs(e.args, scope, m, c, TouchArgs(e.args, scope, m, c, boxes)))
  {}

  lemma {:induction false} ProvideReports(s: Stmt, scope: Scope, m: Mode, c: Tools, g: Context, names: set<string>,
      params: set<string>, ar: map<string, nat>, w: World, penv: Env, env: Env, f: string, pt: seq<int>, boxes: BoxMap)
    requires s.Provide? && Hit(s, scope, m, c, g, names, params, ar, w, penv, env, f, pt)
    requires BoxesGood(boxes, names, params, ar)
    ensures Reported(Touch(s, scope, m, c, boxes), w, penv, f, pt)
    decreases StmtSize(s), 1
  {
    var b := WriteBoxes(s, scope, m, c, boxes);
    WriteKept(s, scope, m, c, g, names, params, ar, w, boxes);
    var written := m.stores && m.Wants(f) && f == s.name && pt == EvalArgs(s.args, w, env);
    if written { IndicesInBox(None, s.args, scope, c, g, names, params, w, penv, env); }
    if m.calls {
      var b' := TouchArgs(s.args, scope, m, c, b);
      TouchArgsKeeps(s.args, scope, m, c, g, names, params, ar, w, b);
      TouchArgsKeeps(s.values, scope, m, c, g, names, params, ar, w, b');
      if TouchedArgs(s.args, m, w, env, f, pt) {
        TouchArgsSound(s.args, scope, m, c, g, names, params, ar, w, penv, env, f, pt, b);
      } else if TouchedArgs(s.values, m, w, env, f, pt) {
        TouchArgsSound(s.values, scope, m, c, g, names, params, ar, w, penv, env, f, pt, b');
      }
    } else {
      NoCallsNoTouchArgs(s.args, m, w, env, f, pt);
      NoCallsNoTouchArgs(s.values, m, w, env, f, pt);
    }
  }

  lemma {:induction false} ForReports(s: Stmt, scope: Scope, m: Mode, c: Tools, g: Context, names: set<string>,
      params: set<string>, ar: map<string, nat>, w: World, penv: Env, env: Env, f: string, pt: seq<int>, boxes: BoxMap)
    requires s.For? && Hit(s, scope, m, c, g, names, params, ar, w, penv, env, f, pt)
    requires BoxesGood(boxes, names, params, ar)
    ensures Reported(Touch(s, scope, m, c, boxes), w, penv, f, pt)
    decreases StmtSize(s), 1
  {
    var b := EndBoxes(s, scope, m, c, boxes);
    var inner := scope[s.name := LoopInterval(s.name, s.min, s.extent, scope, c)];
    EndsKeep(s, scope, m, c, g, names, params, ar, w, boxes);
    ForBody(s, scope, m, c, g, names, params, ar, w);
    if Touched(Evaluate(s.min), m, w, env, f, pt) || Touched(Evaluate(s.extent), m, w, env, f, pt) {
      EndsReport(s, scope, m, c, g, names, params, ar, w, penv, env, f, pt, boxes);
      TouchKeeps(s.body, inner, m, c, g.Bind(s.name, Int(32)), names, params, ar, w, b);
    } else {
      var i := LoopRun(s, scope, m, c, g, names, params, ar, w, penv, env, f, pt);
      TouchSound(s.body, inner, m, c, g.Bind(s.name, Int(32)), names, params, ar, w, penv, env.Set(s.name, i), f, pt,
          b);
    }
  }

  /** Some iteration of the loop touches the point. */
  lemma LoopRun(s: Stmt, scope: Scope, m: Mode, c: Tools, g: Context, names: set<string>, params: set<string>,
      ar: map<string, nat>, w: World, penv: Env, env: Env, f: string, pt: seq<int>) returns (i: int)
    requires s.For? && Hit(s, scope, m, c, g, names, params, ar, w, penv, env, f, pt)
    requires !Touched(Evaluate(s.min), m, w, env, f, pt) && !Touched(Evaluate(s.extent), m, w, env, f, pt)
    ensures Hit(s.body, scope[s.name := LoopInterval(s.name, s.min, s.extent, scope, c)], m, c, g.Bind(s.name, Int(32)),
                names, params, ar, w, penv, env.Set(s.name, i), f, pt)
  {
    var lo := Eval(s.min, w, env);
    i :| lo <= i < lo + Eval(s.extent, w, env) && Touched(s.body, m, w, env.Set(s.name, i), f, pt);
    LiveLoop(s.name, s.min, s.extent, i, scope, c, g, names, params, w, penv, env);
    assert scope[s.name := LoopInterval(s.name, s.min, s.extent, scope, c)].Keys == scope.Keys + {s.name};
  }

  lemma {:induction false} EndsReport(s: Stmt, scope: Scope, m: Mode, c: Tools, g: Context, names: set<string>,
      params: set<string>, ar: map<string, nat>, w: World, penv: Env, env: Env, f: string, pt: seq<int>, boxes: BoxMap)
    requires s.For? && Hit(s, scope, m, c, g, names, params, ar, w, penv, env, f, pt)
    requires BoxesGood(boxes, names, params, ar)
    requires Touched(Evaluate(s.min), m, w, env, f, pt) || Touched(Evaluate(s.extent), m, w, env, f, pt)
    ensures Reported(EndBoxes(s, scope, m, c, boxes), w, penv, f, pt)
    decreases StmtSize(s), 0
  {
    if m.calls {
      var b := Touch(Evaluate(s.min), scope, m, c, boxes);
      TouchKeeps(Evaluate(s.min), scope, m, c, g, names, params, ar, w, boxes);
      TouchKeeps(Evaluate(s.extent), scope, m, c, g, names, params, ar, w, b);
      if Touched(Evaluate(s.min), m, w, env, f, pt) {
        TouchSound(Evaluate(s.min), scope, m, c, g, names, params, ar, w, penv, env, f, pt, boxes);
      } else {
        TouchSound(Evaluate(s.extent), scope, m, c, g, names, params, ar, w, penv, env, f, pt, b);
      }
    } else {
      NoCallsNoTouch(Evaluate(s.min), m, w, env, f, pt);
      NoCallsNoTouch(Evaluate(s.extent), m, w, env, f, pt);
    }
  }

  lemma {:induction false} LetReports(s: Stmt, scope: Scope, m: Mode, c: Tools, g: Context, names: set<string>,
      params: set<string>, ar: map<string, nat>, w: World, penv: Env, env: Env, f: string, pt: seq<int>, boxes: BoxMap)
    requires s.LetStmt? && Hit(s, scope, m, c, g, names, params, ar, w, penv, env, f, pt)
    requires BoxesGood(boxes, names, params, ar)
    ensures Reported(Touch(s, scope, m, c, boxes), w, penv, f, pt)
    decreases StmtSize(s), 1
  {
    if Touched(Evaluate(s.value), m, w, env, f, pt) {
      ValueReports(s, scope, m, c, g, names, params, ar, w, penv, env, f, pt, boxes);
    } else {
      BodyReports(s, scope, m, c, g, names, params, ar, w, penv, env, f, pt, boxes);
    }
  }

  lemma {:induction false} ValueReports(s: Stmt, scope: Scope, m: Mode, c: Tools, g: Context, names: set<string>,
      params: set<string>, ar: map<string, nat>, w: World, penv: Env, env: Env, f: string, pt: seq<int>, boxes: BoxMap)
    requires s.LetStmt? && Hit(s, scope, m, c, g, names, params, ar, w, penv, env, f, pt)
    requires BoxesGood(boxes, names, params, ar)
    requires Touched(Evaluate(s.value), m, w, env, f, pt)
    ensures Reported(Touch(s, scope, m, c, boxes), w, penv, f, pt)
    decreases StmtSize(s), 0
  {
    if !m.calls {
      NoCallsNoTouch(Evaluate(s.value), m, w, env, f, pt);
    } else {
      var i := LetBounds(c, s.value, scope);
      var b := Touch(Evaluate(s.value), scope, m, c, boxes);
      TouchSound(Evaluate(s.value), scope, m, c, g, names, params, ar, w, penv, env, f, pt, boxes);
      TouchKeeps(Evaluate(s.value), scope, m, c, g, names, params, ar, w, boxes);
      LetBodyKeeps(s, scope, m, c, g, names, params, ar, w, b);
    }
  }

  lemma LetBodyKeeps(s: Stmt, scope: Scope, m: Mode, c: Tools, g: Context, names: set<string>, params: set<string>,
      ar: map<string, nat>, w: World, b: BoxMap)
    requires s.LetStmt? && Ok(s, scope, m, c, g, names, params, ar, w) && BoxesGood(b, names, params, ar)
    ensures Kept(b, BindBoxes(Touch(s.body, LetScope(s, scope, c), m, c, b), LetBounds(c, s.value, scope), s.name), names, params, ar, w)
  {
    var i := LetBounds(c, s.value, scope);
    LetBody(s, scope, m, c, g, names, params, ar, w);
    MoreNames(b, names, LetScopeNames(i, s.name, names), params, ar);
    TouchKeeps(s.body, LetScope(s, scope, c), m, c, g.Bind(s.name, TypeOf(s.value)), LetScopeNames(i, s.name, names),
        params, ar, w, b);
    LetKept(b, Touch(s.body, LetScope(s, scope, c), m, c, b), i, s.name, names, params, ar, w);
  }

  lemma LetRun(s: Stmt, scope: Scope, m: Mode, c: Tools, g: Context, names: set<string>, params: set<string>,
      ar: map<string, nat>, w: World, penv: Env, env: Env, f: string, pt: seq<int>)
    requires s.LetStmt? && Hit(s, scope, m, c, g, names, params, ar, w, penv, env, f, pt)
    requires !Touched(Evaluate(s.value), m, w, env, f, pt)
    ensures var i := LetBounds(c, s.value, scope);
            Hit(s.body, LetScope(s, scope, c), m, c, g.Bind(s.name, TypeOf(s.value)), LetScopeNames(i, s.name, names), params, ar, w,
                BindEnv(i, s.name, w, penv), env.Set(s.name, Eval(s.value, w, env)), f, pt)
  {
    LiveLet(s.name, s.value, scope, c, g, names, params, w, penv, env);
    assert LetScope(s, scope, c).Keys == scope.Keys + {s.name};
  }

  lemma {:induction false} BodyReports(s: Stmt, scope: Scope, m: Mode, c: Tools, g: Context, names: set<string>,
      params: set<string>, ar: map<string, nat>, w: World, penv: Env, env: Env, f: string, pt: seq<int>, boxes: BoxMap)
    requires s.LetStmt? && Hit(s, scope, m, c, g, names, params, ar, w, penv, env, f, pt)
    requires BoxesGood(boxes, names, params, ar)
    requires !Touched(Evaluate(s.value), m, w, env, f, pt)
    ensures Reported(Touch(s, scope, m, c, boxes), w, penv, f, pt)
    decreases StmtSize(s), 0
  {
    var i := LetBounds(c, s.value, scope);
    var g', names' := g.Bind(s.name, TypeOf(s.value)), LetScopeNames(i, s.name, names);
    var b := ValueBoxes(s, scope, m, c, boxes);
    if m.calls { TouchKeeps(Evaluate(s.value), scope, m, c, g, names, params, ar, w, boxes); }
    LetBody(s, scope, m, c, g, names, params, ar, w);
    MoreNames(b, names, names', params, ar);
    LetRun(s, scope, m, c, g, names, params, ar, w, penv, env, f, pt);
    TouchSound(s.body, LetScope(s, scope, c), m, c, g', names', params, ar, w, BindEnv(i, s.name, w, penv),
               env.Set(s.name, Eval(s.value, w, env)), f, pt, b);
    TouchKeeps(s.body, LetScope(s, scope, c), m, c, g', names', params, ar, w, b);
    BindBoxesReport(Touch(s.body, LetScope(s, scope, c), m, c, b), i, s.name, names, params, ar, w, penv, f, pt);
  }

  lemma {:induction false} IfReports(s: Stmt, scope: Scope, m: Mode, c: Tools, g: Context, names: set<string>,
      params: set<string>, ar: map<string, nat>, w: World, penv: Env, env: Env, f: string, pt: seq<int>, boxes: BoxMap)
    requires s.IfThenElse? && Hit(s, scope, m, c, g, names, params, ar, w, penv, env, f, pt)
    requires BoxesGood(boxes, names, params, ar)
    ensures Reported(Touch(s, scope, m, c, boxes), w, penv, f, pt)
    decreases StmtSize(s), 1
  {
    var b := Touch(Evaluate(s.cond), scope, m, c, boxes);
    TouchKeeps(Evaluate(s.cond), scope, m, c, g, names, params, ar, w, boxes);
    if Touched(Evaluate(s.cond), m, w, env, f, pt) {
      TouchSound(Evaluate(s.cond), scope, m, c, g, names, params, ar, w, penv, env, f, pt, boxes);
      BranchesKeep(s, scope, m, c, g, names, params, ar, w, b);
    } else if !UsesVars(s.cond, scope.Keys) {
      ForkReached(s, scope, m, c, g, names, params, ar, w, penv, env, f, pt, b);
    } else {
      UnionReached(s, scope, m, c, g, names, params, ar, w, penv, env, f, pt, b);
    }
  }

  /** What an if statement does to the boxes once its condition has been visited. */
  function Branches(s: Stmt, scope: Scope, m: Mode, c: Tools, b: BoxMap): BoxMap
    requires s.IfThenElse?
  {
    if !UsesVars(s.cond, scope.Keys) then Fork(c, s.cond, b, ThenBoxes(s, scope, m, c), ElseBoxes(s, scope, m, c))
    else if IsNoOp(s.elseCase) then Touch(s.thenCase, TrimScope(s.cond, scope, c), m, c, b)
    else Touch(s.elseCase.value, scope, m, c, Touch(s.thenCase, scope, m, c, b))
  }

  lemma BranchesKeep(s: Stmt, scope: Scope, m: Mode, c: Tools, g: Context, names: set<string>, params: set<string>,
      ar: map<string, nat>, w: World, b: BoxMap)
    requires s.IfThenElse? && Ok(s, scope, m, c, g, names, params, ar, w) && BoxesGood(b, names, params, ar)
    ensures Kept(b, Branches(s, scope, m, c, b), names, params, ar, w)
  {
    if !UsesVars(s.cond, scope.Keys) {
      ForkKeeps(s, scope, m, c, g, names, params, ar, w, b);
    } else if IsNoOp(s.elseCase) {
      TrimScopeGood(s.cond, scope, c, g, names, params, w);
      TouchKeeps(s.thenCase, TrimScope(s.cond, scope, c), m, c, g, names, params, ar, w, b);
    } else {
      TouchKeeps(s.thenCase, scope, m, c, g, names, params, ar, w, b);
      TouchKeeps(s.elseCase.value, scope, m, c, g, names, params, ar, w, Touch(s.thenCase, scope, m, c, b));
    }
  }

  /** A condition on parameters alone has the same value for the box as for the run. */
  lemma {:induction false} ForkReached(s: Stmt, scope: Scope, m: Mode, c: Tools, g: Context, names: set<string>,
      params: set<string>, ar: map<string, nat>, w: World, penv: Env, env: Env, f: string, pt: seq<int>, b: BoxMap)
    requires s.IfThenElse? && Hit(s, scope, m, c, g, names, params, ar, w, penv, env, f, pt)
    requires BoxesGood(b, names, params, ar)
    requires !UsesVars(s.cond, scope.Keys) && !Touched(Evaluate(s.cond), m, w, env, f, pt)
    ensures Reported(Branches(s, scope, m, c, b), w, penv, f, pt)
    decreases StmtSize(s), 0
  {
    FixedCondition(s.cond, scope, g, names, w, penv, env);
    ForkKeeps(s, scope, m, c, g, names, params, ar, w, b);
    var thens, elses := ThenBoxes(s, scope, m, c), ElseBoxes(s, scope, m, c);
    if Eval(s.cond, w, env) != 0 {
      TouchSound(s.thenCase, scope, m, c, g, names, params, ar, w, penv, env, f, pt, map[]);
    } else {
      TouchSound(s.elseCase.value, scope, m, c, g, names, params, ar, w, penv, env, f, pt, map[]);
    }
    ForkReports(c, s.cond, b, thens, elses, names, params, ar, w, penv, f, pt);
  }

  lemma {:induction false} UnionReached(s: Stmt, scope: Scope, m: Mode, c: Tools, g: Context, names: set<string>,
      params: set<string>, ar: map<string, nat>, w: World, penv: Env, env: Env, f: string, pt: seq<int>, b: BoxMap)
    requires s.IfThenElse? && Hit(s, scope, m, c, g, names, params, ar, w, penv, env, f, pt)
    requires BoxesGood(b, names, params, ar)
    requires UsesVars(s.cond, scope.Keys) && !Touched(Evaluate(s.cond), m, w, env, f, pt)
    ensures Reported(Branches(s, scope, m, c, b), w, penv, f, pt)
    decreases StmtSize(s), 0
  {
    if IsNoOp(s.elseCase) {
      if s.elseCase.Some? { ConstTouchesNothing(s.elseCase.value.value, m, w, env, f, pt); }
      TrimScopeGood(s.cond, scope, c, g, names, params, w);
      LiveTrim(s.cond, scope, c, g, names, params, w, penv, env);
      TouchSound(s.thenCase, TrimScope(s.cond, scope, c), m, c, g, names, params, ar, w, penv, env, f, pt, b);
    } else {
      var b' := Touch(s.thenCase, scope, m, c, b);
      TouchKeeps(s.thenCase, scope, m, c, g, names, params, ar, w, b);
      TouchKeeps(s.elseCase.value, scope, m, c, g, names, params, ar, w, b');
      if Eval(s.cond, w, env) != 0 {
        TouchSound(s.thenCase, scope, m, c, g, names, params, ar, w, penv, env, f, pt, b);
      } else {
        TouchSound(s.elseCase.value, scope, m, c, g, names, params, ar, w, penv, env, f, pt, b');
      }
    }
  }

  lemma CollectSound(s: Stmt, scope: Scope, m: Mode, wanted: bool, c: Tools, g: Context, names: set<string>,
      params: set<string>, ar: map<string, nat>, w: World, penv: Env, env: Env, f: string,
      pt: seq<int>) returns (boxes: BoxMap)
    requires wanted ==> Sane(s, scope, m, c, g, names, ar)
    requires Live(scope, c, g, names, params, w, penv, env) && Runs(s, scope.Keys, w, env) && pt != []
    ensures boxes == if wanted then Touch(s, scope, m, c, map[]) else map[]
    ensures BoxesGood(boxes, names, params, ar)
    ensures wanted && Touched(s, m, w, env, f, pt) ==> Reported(boxes, w, penv, f, pt)
  {
    boxes := map[];
    if wanted {
      boxes := Touch(s, scope, m, c, map[]);
      TouchKeeps(s, scope, m, c, g, names, params, ar, w, map[]);
      if Touched(s, m, w, env, f, pt) { TouchSound(s, scope, m, c, g, names, params, ar, w, penv, env, f, pt, map[]); }
    }
  }

  /** boxes_touched as a whole: reads when reads are asked for, writes when writes are. */
  lemma BoxesTouchedSound(s: Stmt, scope: Scope, calls: bool, stores: bool, fn: string, c: Tools, g: Context,
      names: set<string>, params: set<string>, ar: map<string, nat>, w: World, penv: Env, env: Env, f: string,
      pt: seq<int>)
    requires calls ==> Sane(s, scope, Mode(true, false, fn), c, g, names, ar)
    requires stores ==> Sane(s, scope, Mode(false, true, fn), c, g, names, ar)
    requires Live(scope, c, g, names, params, w, penv, env) && Runs(s, scope.Keys, w, env) && pt != []
    requires || (calls && Touched(s, Mode(true, false, fn), w, env, f, pt))
             || (stores && Touched(s, Mode(false, true, fn), w, env, f, pt))
    ensures Reported(BoxesTouchedBy(s, scope, calls, stores, fn, c), w, penv, f, pt)
  {
    var required := CollectSound(s, scope, Mode(true, false, fn), calls, c, g, names, params, ar, w, penv, env, f, pt);
    var provided := CollectSound(s, scope, Mode(false, true, fn), stores, c, g, names, params, ar, w, penv, env, f, pt);
    if calls && stores && f in provided {
      SameSize(BoxOf(required, f), provided[f], f, names, params, ar);
      MergeCovers(c, BoxOf(required, f), provided[f], w, penv, pt);
    }
  }
}
