/** Region soundness: whatever a run of a statement reads or writes lies in the box that
    boxes_touched reports for that function, under the parameters of the run. */
module RegionSoundness {
  import opened IR
  import opened Intervals
  import opened BoundsRules
  import opened RuleSoundness
  import opened IntervalSoundness
  import opened IntervalShape
  import opened Boxes
  import opened BoxesTouched
  import opened Trees

  // ---------- runs ----------

  /** When the scope knows variables called after the ends of a loop, they hold the loop's
      ends. */
  predicate LoopEndsHold(name: string, keys: set<string>, lo: int, hi: int, env: Env) {
    && (LoopMin(name) in keys ==> env.Get(LoopMin(name)) <= lo)
    && (LoopMax(name) in keys ==> hi <= env.Get(LoopMax(name)))
  }

  /** The statement runs to its end from this environment: everything it evaluates is
      defined.  `keys` are the variables of the analysis' scope. */
  ghost predicate Runs(s: Stmt, keys: set<string>, w: World, env: Env)
    decreases StmtSize(s)
  {
    match s
    case Evaluate(e) =>
      if e.Let? then AsLetSize(e); Runs(AsLetStmt(e), keys, w, env)
      else if !e.Call? then ChildSizes(e); RunsArgs(Children(e), keys, w, env)
      else if IsIf(e) then AsIfSize(e); Runs(AsIf(e), keys, w, env)
      else RunsArgs(e.args, keys, w, env) && DefinedArgs(e.args, w, env)
    case Provide(_, values, args) =>
      DefinedArgs(args, w, env) && RunsArgs(args, keys, w, env) && RunsArgs(values, keys, w, env)
    case For(name, min, extent, body) =>
      var lo := Eval(min, w, env);
      var end := lo + Eval(extent, w, env);
      && Defined(min, w, env) && Defined(extent, w, env)
      && Runs(Evaluate(min), keys, w, env) && Runs(Evaluate(extent), keys, w, env)
      && LoopEndsHold(name, keys, lo, end - 1, env)
      && forall i :: lo <= i < end ==> Runs(body, keys + {name}, w, env.Set(name, i))
    case LetStmt(name, value, body) =>
      && Defined(value, w, env) && Runs(Evaluate(value), keys, w, env)
      && Runs(body, keys + {name}, w, env.Set(name, Eval(value, w, env)))
    case IfThenElse(cond, thenCase, elseCase) =>
      && Defined(cond, w, env) && Runs(Evaluate(cond), keys, w, env)
      && (if Eval(cond, w, env) != 0 then Runs(thenCase, keys, w, env)
          else elseCase.Some? ==> Runs(elseCase.value, keys, w, env))
    case Block(first, rest) => Runs(first, keys, w, env) && Runs(rest, keys, w, env)
  }

  ghost predicate RunsArgs(es: seq<Expr>, keys: set<string>, w: World, env: Env)
    decreases Sizes(es)
  {
    es == [] || (Runs(Evaluate(es[0]), keys, w, env) && RunsArgs(es[1..], keys, w, env))
  }

  /** The run reads (or, as the mode asks, writes) this point of f. */
  ghost predicate Touched(s: Stmt, m: Mode, w: World, env: Env, f: string, pt: seq<int>)
    decreases StmtSize(s)
  {
    match s
    case Evaluate(e) =>
      if e.Let? then AsLetSize(e); Touched(AsLetStmt(e), m, w, env, f, pt)
      else if !e.Call? then ChildSizes(e); TouchedArgs(Children(e), m, w, env, f, pt)
      else if IsIf(e) then AsIfSize(e); Touched(AsIf(e), m, w, env, f, pt)
      else
        || TouchedArgs(e.args, m, w, env, f, pt)
        || (m.calls && Reads(e) && m.Wants(f) && f == e.name && pt == EvalArgs(e.args, w, env))
    case Provide(name, values, args) =>
      || (m.stores && m.Wants(f) && f == name && pt == EvalArgs(args, w, env))
      || TouchedArgs(args, m, w, env, f, pt) || TouchedArgs(values, m, w, env, f, pt)
    case For(name, min, extent, body) =>
      var lo := Eval(min, w, env);
      var end := lo + Eval(extent, w, env);
      || Touched(Evaluate(min), m, w, env, f, pt) || Touched(Evaluate(extent), m, w, env, f, pt)
      || exists i :: lo <= i < end && Touched(body, m, w, env.Set(name, i), f, pt)
    case LetStmt(name, value, body) =>
      || Touched(Evaluate(value), m, w, env, f, pt)
      || Touched(body, m, w, env.Set(name, Eval(value, w, env)), f, pt)
    case IfThenElse(cond, thenCase, elseCase) =>
      || Touched(Evaluate(cond), m, w, env, f, pt)
      || (if Eval(cond, w, env) != 0 then Touched(thenCase, m, w, env, f, pt)
          else elseCase.Some? && Touched(elseCase.value, m, w, env, f, pt))
    case Block(first, rest) => Touched(first, m, w, env, f, pt) || Touched(rest, m, w, env, f, pt)
  }

  ghost predicate TouchedArgs(es: seq<Expr>, m: Mode, w: World, env: Env, f: string, pt: seq<int>)
    decreases Sizes(es)
  {
    es != [] && (Touched(Evaluate(es[0]), m, w, env, f, pt) || TouchedArgs(es[1..], m, w, env, f, pt))
  }

  /** Writes are only found in provides, so a traversal that ignores calls finds nothing in
      an expression. */
  lemma {:induction false} NoCallsNoTouch(s: Stmt, m: Mode, w: World, env: Env, f: string, pt: seq<int>)
    requires !m.calls && OnlyEvaluates(s)
    ensures !Touched(s, m, w, env, f, pt)
    decreases StmtSize(s)
  {
    match s
    case Evaluate(e) =>
      if e.Let? {
        AsLetSize(e);
        NoCallsNoTouch(AsLetStmt(e), m, w, env, f, pt);
      } else if !e.Call? {
        ChildSizes(e);
        NoCallsNoTouchArgs(Children(e), m, w, env, f, pt);
      } else if IsIf(e) {
        AsIfSize(e);
        NoCallsNoTouch(AsIf(e), m, w, env, f, pt);
      } else {
        NoCallsNoTouchArgs(e.args, m, w, env, f, pt);
      }
    case LetStmt(name, value, body) =>
      NoCallsNoTouch(Evaluate(value), m, w, env, f, pt);
      NoCallsNoTouch(body, m, w, env.Set(name, Eval(value, w, env)), f, pt);
    case IfThenElse(cond, t, e) =>
      NoCallsNoTouch(Evaluate(cond), m, w, env, f, pt);
      NoCallsNoTouch(t, m, w, env, f, pt);
      if e.Some? { NoCallsNoTouch(e.value, m, w, env, f, pt); }
  }

  lemma {:induction false} NoCallsNoTouchArgs(es: seq<Expr>, m: Mode, w: World, env: Env, f: string, pt: seq<int>)
    requires !m.calls
    ensures !TouchedArgs(es, m, w, env, f, pt)
    decreases Sizes(es)
  {
    if es != [] {
      NoCallsNoTouch(Evaluate(es[0]), m, w, env, f, pt);
      NoCallsNoTouchArgs(es[1..], m, w, env, f, pt);
    }
  }

  /** The statements that an expression is visited as. */
  predicate OnlyEvaluates(s: Stmt) {
    match s
    case Evaluate(_) => true
    case LetStmt(_, _, body) => OnlyEvaluates(body)
    case IfThenElse(_, t, e) => OnlyEvaluates(t) && (e.Some? ==> OnlyEvaluates(e.value))
    case _ => false
  }

  lemma {:induction false} ConstTouchesNothing(e: Expr, m: Mode, w: World, env: Env, f: string, pt: seq<int>)
    requires IsConst(e)
    ensures !Touched(Evaluate(e), m, w, env, f, pt)
  {
    var none: seq<Expr> := [];
    assert !TouchedArgs(none, m, w, env, f, pt);
    match e
    case Imm(_, _) =>
    case Cast(_, value) =>
      ConstTouchesNothing(value, m, w, env, f, pt);
      assert [value][1..] == none;
    case Broadcast(value, _) =>
      ConstTouchesNothing(value, m, w, env, f, pt);
      assert [value][1..] == none;
    case Ramp(base, stride, _) =>
      ConstTouchesNothing(base, m, w, env, f, pt);
      ConstTouchesNothing(stride, m, w, env, f, pt);
      var one, two := [stride], [base, stride];
      assert one[1..] == none && two[1..] == one;
      assert !TouchedArgs(one, m, w, env, f, pt) && !TouchedArgs(two, m, w, env, f, pt);
  }

  // ---------- what the traversal asks of a statement ----------

  predicate ExprSane(e: Expr, scope: Scope, c: Tools, g: Context, names: set<string>) {
    WellTyped(e, g) && Regular(e, scope, c) && Hygienic(e, g.vars.Keys + names) && Settled(e, scope.Keys, names)
  }

  predicate Indices(es: seq<Expr>, scope: Scope, c: Tools, g: Context, names: set<string>) {
    forall i :: 0 <= i < |es| ==> ExprSane(es[i], scope, c, g, names)
  }

  predicate Integer(e: Expr, scope: Scope, c: Tools, g: Context, names: set<string>) {
    ExprSane(e, scope, c, g, names) && TypeOf(e) == Int(32)
  }

  function Fresh(name: string): set<string> { {MinVar(name), MaxVar(name)} }

  /** The names that may occur in boxes inside a let. */
  function LetScopeNames(i: Interval, name: string, names: set<string>): set<string> {
    if Substitutes(i) then names else names + Fresh(name)
  }

  /** Each expression whose bounds are taken is typed, regular and named apart, each
      function is used with one number of dimensions, and a let value too large to
      substitute is a bounded scalar. */
  predicate Sane(s: Stmt, scope: Scope, m: Mode, c: Tools, g: Context, names: set<string>, ar: map<string, nat>)
    decreases StmtSize(s)
  {
    match s
    case Evaluate(e) =>
      if e.Let? then AsLetSize(e); Sane(AsLetStmt(e), scope, m, c, g, names, ar)
      else if !e.Call? then ChildSizes(e); SaneArgs(Children(e), scope, m, c, g, names, ar)
      else if !m.calls then true
      else if IsIf(e) then AsIfSize(e); Sane(AsIf(e), scope, m, c, g, names, ar)
      else
        && SaneArgs(e.args, scope, m, c, g, names, ar)
        && (Reads(e) && m.Wants(e.name) ==> Indices(e.args, scope, c, g, names) && e.name in ar && ar[e.name] == |e.args|)
    case Provide(name, values, args) =>
      && (m.stores && m.Wants(name) ==> Indices(args, scope, c, g, names) && name in ar && ar[name] == |args|)
      && (m.calls ==> SaneArgs(args, scope, m, c, g, names, ar) && SaneArgs(values, scope, m, c, g, names, ar))
    case For(name, min, extent, body) =>
      && (m.calls ==> Sane(Evaluate(min), scope, m, c, g, names, ar) && Sane(Evaluate(extent), scope, m, c, g, names, ar))
      && Integer(min, scope, c, g, names) && Integer(extent, scope, c, g, names)
      && (forall n :: n in scope && (n == LoopMin(name) || n == LoopMax(name)) ==> n in g.vars && g.vars[n] == Int(32))
      && Sane(body, scope[name := LoopInterval(name, min, extent, scope, c)], m, c, g.Bind(name, Int(32)), names, ar)
    case LetStmt(name, value, body) =>
      var i := LetBounds(c, value, scope);
      && (m.calls ==> Sane(Evaluate(value), scope, m, c, g, names, ar))
      && ExprSane(value, scope, c, g, names)
      && (Substitutes(i) || (i.IsBounded() && TypeOf(value).lanes == 1 && Fresh(name) !! g.vars.Keys + names + {name}))
      && Sane(body, scope[name := LetEntry(i, TypeOf(value), name)], m, c, g.Bind(name, TypeOf(value)),
              LetScopeNames(i, name, names), ar)
    case IfThenElse(cond, thenCase, elseCase) =>
      && Sane(Evaluate(cond), scope, m, c, g, names, ar)
      && if UsesVars(cond, scope.Keys) then
           if IsNoOp(elseCase) then
             && TrimSane(cond, scope, c, g, names)
             && Sane(thenCase, TrimScope(cond, scope, c), m, c, g, names, ar)
           else Sane(thenCase, scope, m, c, g, names, ar) && Sane(elseCase.value, scope, m, c, g, names, ar)
         else
           && WellTyped(cond, g) && TypeOf(cond).lanes == 1 && SettledCond(cond, scope.Keys, names)
           && Sane(thenCase, scope, m, c, g, names, ar)
           && (elseCase.Some? ==> Sane(elseCase.value, scope, m, c, g, names, ar))
    case Block(first, rest) => Sane(first, scope, m, c, g, names, ar) && Sane(rest, scope, m, c, g, names, ar)
  }

  predicate SaneArgs(es: seq<Expr>, scope: Scope, m: Mode, c: Tools, g: Context, names: set<string>,
      ar: map<string, nat>)
    decreases Sizes(es)
  {
    es == [] || (Sane(Evaluate(es[0]), scope, m, c, g, names, ar) && SaneArgs(es[1..], scope, m, c, g, names, ar))
  }

  predicate TrimSane(cond: Expr, scope: Scope, c: Tools, g: Context, names: set<string>) {
    var k := StripLikely(cond);
    && WellTyped(cond, g)
    && (TrimsLeft(k, scope) ==> Integer(k.b, scope, c, g, names))
    && (!TrimsLeft(k, scope) && TrimsRight(k, scope) ==> Integer(k.a, scope, c, g, names))
  }

  // ---------- boxes ----------

  /** Every end is over the given names, every condition over the parameters, and every
      function has its number of dimensions. */
  predicate BoxGood(b: Box, n: string, names: set<string>, params: set<string>, ar: map<string, nat>) {
    && (forall i :: 0 <= i < |b.bounds| ==> Good(b.bounds[i], names))
    && (b.used.Some? ==> Neat(b.used.value, params))
    && (b.Empty() || (n in ar && |b.bounds| == ar[n]))
  }

  ghost predicate BoxesGood(boxes: BoxMap, names: set<string>, params: set<string>, ar: map<string, nat>) {
    forall n :: n in boxes ==> BoxGood(boxes[n], n, names, params, ar)
  }

  predicate Reported(boxes: BoxMap, w: World, penv: Env, f: string, pt: seq<int>) {
    pt != [] && f in boxes && Covers(boxes[f], w, penv, pt)
  }

  /** Nothing that was reported is lost. */
  ghost predicate Grows(boxes: BoxMap, boxes': BoxMap, w: World) {
    forall penv, f, pt :: Reported(boxes, w, penv, f, pt) ==> Reported(boxes', w, penv, f, pt)
  }

  /** What the boxes are built from. */
  ghost predicate Base(scope: Scope, c: Tools, g: Context, names: set<string>, params: set<string>, w: World) {
    Ground(scope, c, names, w) && g.vars.Keys - scope.Keys <= params <= names && (AnyCall in names ==> AnyCall in params)
  }

  ghost predicate Kept(boxes: BoxMap, boxes': BoxMap, names: set<string>, params: set<string>, ar: map<string, nat>,
      w: World) {
    BoxesGood(boxes', names, params, ar) && Grows(boxes, boxes', w)
  }

  lemma MergeGood(c: Tools, a: Box, b: Box, n: string, names: set<string>, params: set<string>, ar: map<string, nat>,
      w: World)
    requires SimplifierSound(c, w) && BoxGood(a, n, names, params, ar) && BoxGood(b, n, names, params, ar)
    requires params <= names
    ensures BoxGood(Merge(c, a, b), n, names, params, ar)
  {
    if !a.Empty() && !b.Empty() && |a.bounds| == |b.bounds| {
      MergeUsedNeat(c, a, b, params, w);
      forall i | 0 <= i < |a.bounds| ensures Good(MergeInterval(c, a, b, i), names) {
        assert Good(a.bounds[i], names) && Good(b.bounds[i], names);
        MergeIntervalGood(c, a, b, i, names, w);
      }
    }
  }

  lemma MergeUsedNeat(c: Tools, a: Box, b: Box, params: set<string>, w: World)
    requires SimplifierSound(c, w)
    requires a.used.Some? ==> Neat(a.used.value, params)
    requires b.used.Some? ==> Neat(b.used.value, params)
    ensures MergeUsed(c, a, b).Some? ==> Neat(MergeUsed(c, a, b).value, params)
  {
    if a.MaybeUnused() && b.MaybeUnused() {
      NeatBin(Or, Bool(1), a.used.value, b.used.value, params);
      SimplifyShape(c, Bin(Or, Bool(1), a.used.value, b.used.value), params, w);
    }
  }

  lemma MergedEndNeat(op: BinOp, a: Box, b: Box, x: Expr, y: Expr, names: set<string>)
    requires IsExt(op) && Neat(x, names) && Neat(y, names)
    requires a.used.Some? ==> Neat(a.used.value, names)
    requires b.used.Some? ==> Neat(b.used.value, names)
    ensures Neat(MergedEnd(op, a, b, x, y), names)
  {
    var both := MakeExt(op, x, y);
    if a.MaybeUnused() {
      NeatSelect(a.used.value, x, y, names);
      NeatSelect(a.used.value, both, y, names);
      if b.MaybeUnused() {
        NeatBin(And, Bool(1), a.used.value, b.used.value, names);
        NeatSelect(Bin(And, Bool(1), a.used.value, b.used.value), both, Select(a.used.value, x, y), names);
      }
    } else if b.MaybeUnused() {
      NeatSelect(b.used.value, both, x, names);
    }
  }

  lemma MergeIntervalGood(c: Tools, a: Box, b: Box, i: nat, names: set<string>, w: World)
    requires SimplifierSound(c, w) && i < |a.bounds| == |b.bounds|
    requires Good(a.bounds[i], names) && Good(b.bounds[i], names)
    requires a.used.Some? ==> Neat(a.used.value, names)
    requires b.used.Some? ==> Neat(b.used.value, names)
    ensures Good(MergeInterval(c, a, b, i), names)
  {
    var x, y := a.bounds[i], b.bounds[i];
    if x.min.Fin? && y.min.Fin? {
      MergedEndNeat(Min, a, b, x.min.e, y.min.e, names);
      SimplifyShape(c, MergedEnd(Min, a, b, x.min.e, y.min.e), names, w);
    }
    if x.max.Fin? && y.max.Fin? {
      MergedEndNeat(Max, a, b, x.max.e, y.max.e, names);
      SimplifyShape(c, MergedEnd(Max, a, b, x.max.e, y.max.e), names, w);
    }
  }

  lemma SameSize(a: Box, b: Box, n: string, names: set<string>, params: set<string>, ar: map<string, nat>)
    requires BoxGood(a, n, names, params, ar) && BoxGood(b, n, names, params, ar)
    ensures a.Empty() || b.Empty() || |a.bounds| == |b.bounds|
  {}

  lemma MergeIntoKept(c: Tools, boxes: BoxMap, n: string, b: Box, names: set<string>, params: set<string>,
      ar: map<string, nat>, w: World)
    requires SimplifierSound(c, w) && BoxesGood(boxes, names, params, ar) && BoxGood(b, n, names, params, ar)
    requires params <= names
    ensures Kept(boxes, MergeInto(c, boxes, n, b), names, params, ar, w)
    ensures forall penv, pt :: pt != [] && Covers(b, w, penv, pt) ==> Reported(MergeInto(c, boxes, n, b), w, penv, n, pt)
  {
    var a := BoxOf(boxes, n);
    MergeGood(c, a, b, n, names, params, ar, w);
    SameSize(a, b, n, names, params, ar);
    forall penv, pt | pt != [] && (Covers(a, w, penv, pt) || Covers(b, w, penv, pt))
      ensures Reported(MergeInto(c, boxes, n, b), w, penv, n, pt) {
      MergeCovers(c, a, b, w, penv, pt);
    }
  }

  lemma ArgBoxGood(used: Option<Expr>, es: seq<Expr>, n: string, scope: Scope, c: Tools, g: Context,
      names: set<string>, params: set<string>, ar: map<string, nat>, w: World)
    requires Base(scope, c, g, names, params, w) && Indices(es, scope, c, g, names)
    requires n in ar && ar[n] == |es| && (used.Some? ==> used.value == ConstTrue())
    ensures BoxGood(ArgBox(used, es, scope, c), n, names, params, ar)
  {
    forall i | 0 <= i < |es| ensures Good(BoundsOf(es[i], scope, c), names) {
      assert ExprSane(es[i], scope, c, g, names);
      RegularGood(es[i], scope, c, g, names, w);
    }
  }

  // ---------- forks ----------

  lemma WithCondGood(b: Box, cond: Expr, n: string, names: set<string>, params: set<string>, ar: map<string, nat>)
    requires BoxGood(b, n, names, params, ar) && Neat(cond, params)
    ensures BoxGood(WithCond(b, cond), n, names, params, ar)
  {
    if b.MaybeUnused() { NeatBin(And, Bool(1), b.used.value, cond, params); }
  }

  lemma WithCondCovers(b: Box, cond: Expr, w: World, penv: Env, pt: seq<int>)
    requires Covers(b, w, penv, pt) && Eval(cond, w, penv) != 0
    ensures Covers(WithCond(b, cond), w, penv, pt)
  {
    if b.MaybeUnused() { AndValue(b.used.value, cond, w, penv); }
  }

  lemma ForkBoxGood(c: Tools, cond: Expr, orig: Box, thenBox: Box, elseBox: Box, n: string, names: set<string>,
      params: set<string>, ar: map<string, nat>, w: World)
    requires SimplifierSound(c, w) && Neat(cond, params) && params <= names
    requires BoxGood(orig, n, names, params, ar) && BoxGood(thenBox, n, names, params, ar)
    requires BoxGood(elseBox, n, names, params, ar)
    ensures BoxGood(ForkBox(c, cond, orig, thenBox, elseBox), n, names, params, ar)
  {
    WithCondGood(thenBox, cond, n, names, params, ar);
    WithCondGood(elseBox, Not(cond), n, names, params, ar);
    MergeGood(c, WithCond(thenBox, cond), WithCond(elseBox, Not(cond)), n, names, params, ar, w);
    MergeGood(c, orig, Merge(c, WithCond(thenBox, cond), WithCond(elseBox, Not(cond))), n, names, params, ar, w);
  }

  /** The forked box covers what was covered before, and what the branch taken covers. */
  lemma ForkBoxCovers(c: Tools, cond: Expr, orig: Box, thenBox: Box, elseBox: Box, n: string, names: set<string>,
      params: set<string>, ar: map<string, nat>, w: World, penv: Env, pt: seq<int>)
    requires SimplifierSound(c, w) && Neat(cond, params) && params <= names && pt != []
    requires BoxGood(orig, n, names, params, ar) && BoxGood(thenBox, n, names, params, ar)
    requires BoxGood(elseBox, n, names, params, ar)
    requires || Covers(orig, w, penv, pt)
             || Covers(if Eval(cond, w, penv) != 0 then thenBox else elseBox, w, penv, pt)
    ensures Covers(ForkBox(c, cond, orig, thenBox, elseBox), w, penv, pt)
  {
    var x, y := WithCond(thenBox, cond), WithCond(elseBox, Not(cond));
    WithCondGood(thenBox, cond, n, names, params, ar);
    WithCondGood(elseBox, Not(cond), n, names, params, ar);
    MergeGood(c, x, y, n, names, params, ar, w);
    SameSize(x, y, n, names, params, ar);
    SameSize(orig, Merge(c, x, y), n, names, params, ar);
    if !Covers(orig, w, penv, pt) {
      if Eval(cond, w, penv) != 0 {
        WithCondCovers(thenBox, cond, w, penv, pt);
      } else {
        assert Eval(Not(cond), w, penv) == 1;
        WithCondCovers(elseBox, Not(cond), w, penv, pt);
      }
      MergeCovers(c, x, y, w, penv, pt);
    }
    MergeCovers(c, orig, Merge(c, x, y), w, penv, pt);
  }

  lemma ForkKept(c: Tools, cond: Expr, orig: BoxMap, thens: BoxMap, elses: BoxMap, names: set<string>,
      params: set<string>, ar: map<string, nat>, w: World)
    requires SimplifierSound(c, w) && Neat(cond, params) && params <= names
    requires BoxesGood(orig, names, params, ar) && BoxesGood(thens, names, params, ar)
    requires BoxesGood(elses, names, params, ar)
    ensures Kept(orig, Fork(c, cond, orig, thens, elses), names, params, ar, w)
  {
    var r := Fork(c, cond, orig, thens, elses);
    forall n | n in r ensures BoxGood(r[n], n, names, params, ar) {
      if n in thens.Keys + elses.Keys {
        ForkBoxGood(c, cond, BoxOf(orig, n), BoxOf(thens, n), BoxOf(elses, n), n, names, params, ar, w);
      }
    }
    forall penv, f, pt | Reported(orig, w, penv, f, pt) ensures Reported(r, w, penv, f, pt) {
      if f in thens.Keys + elses.Keys {
        ForkBoxCovers(c, cond, BoxOf(orig, f), BoxOf(thens, f), BoxOf(elses, f), f, names, params, ar, w, penv, pt);
      }
    }
  }

  /** The branch taken is reported. */
  lemma ForkReports(c: Tools, cond: Expr, orig: BoxMap, thens: BoxMap, elses: BoxMap, names: set<string>,
      params: set<string>, ar: map<string, nat>, w: World, penv: Env, f: string, pt: seq<int>)
    requires SimplifierSound(c, w) && Neat(cond, params) && params <= names
    requires BoxesGood(orig, names, params, ar) && BoxesGood(thens, names, params, ar)
    requires BoxesGood(elses, names, params, ar)
    requires Reported(if Eval(cond, w, penv) != 0 then thens else elses, w, penv, f, pt)
    ensures Reported(Fork(c, cond, orig, thens, elses), w, penv, f, pt)
  {
    ForkBoxCovers(c, cond, BoxOf(orig, f), BoxOf(thens, f), BoxOf(elses, f), f, names, params, ar, w, penv, pt);
  }

  // ---------- lets ----------

  /** The parameters, with the ends of a large let value under their fresh names. */
  function BindEnv(i: Interval, name: string, w: World, penv: Env): Env {
    if Substitutes(i) || !i.min.Fin? || !i.max.Fin? then penv
    else penv.Set(MinVar(name), Eval(i.min.e, w, penv)).Set(MaxVar(name), Eval(i.max.e, w, penv))
  }

  lemma FreshDiffer(name: string)
    ensures MinVar(name) != MaxVar(name)
    ensures AnyCall !in Fresh(name)
  {
    var p, q := MinVar(name), MaxVar(name);
    assert p[|p| - 1] == 'n';
    assert q[|q| - 1] == 'x';
  }

  lemma BindEndValue(b: Bound, name: string, value: Expr, w: World, env: Env)
    requires b.Fin?
    ensures BindEnd(b, name, value).Fin?
    ensures Eval(BindEnd(b, name, value).e, w, env) == Eval(b.e, w, env.Set(name, Eval(value, w, env)))
  {
    if !UsesVars(b.e, {name}) {
      UnusedIsNotFree(b.e, {name});
      EvalAgree(b.e, w, env, env.Set(name, Eval(value, w, env)));
    }
  }

  lemma BindEndNeat(b: Bound, name: string, value: Expr, names: set<string>)
    requires b.Fin? && Neat(b.e, names + {name}) && Neat(value, names) && name != AnyCall
    ensures NeatBound(BindEnd(b, name, value), names)
  {
    if !UsesVars(b.e, {name}) { UnusedIsNotFree(b.e, {name}); }
  }

  ghost predicate Large(i: Interval, name: string, names: set<string>) {
    !Substitutes(i) && i.IsBounded() && Shaped(i, names) && Fresh(name) !! names
  }

  /** Binding the fresh names around an end is evaluating it with them set. */
  lemma BindEndsValue(b: Bound, i: Interval, name: string, names: set<string>, w: World, penv: Env)
    requires b.Fin? && Neat(b.e, names + Fresh(name)) && Large(i, name, names)
    ensures BindEnds(b, i, name, true).Fin?
    ensures Eval(BindEnds(b, i, name, true).e, w, penv) == Eval(b.e, w, BindEnv(i, name, w, penv))
  {
    FreshDiffer(name);
    var e1 := penv.Set(MinVar(name), Eval(i.min.e, w, penv));
    NeatAgree(i.max.e, names, w, penv, e1);
    BindEndValue(b, MaxVar(name), i.max.e, w, e1);
    BindEndValue(BindEnd(b, MaxVar(name), i.max.e), MinVar(name), i.min.e, w, penv);
  }

  lemma BindEndsNeat(b: Bound, i: Interval, name: string, names: set<string>)
    requires b.Fin? && Neat(b.e, names + Fresh(name)) && Large(i, name, names)
    ensures NeatBound(BindEnds(b, i, name, true), names)
  {
    FreshDiffer(name);
    var inner := BindEnd(b, MaxVar(name), i.max.e);
    assert names + Fresh(name) == (names + {MinVar(name)}) + {MaxVar(name)};
    BindEndNeat(b, MaxVar(name), i.max.e, names + {MinVar(name)});
    BindEndValueFin(b, MaxVar(name), i.max.e);
    BindEndNeat(inner, MinVar(name), i.min.e, names);
  }

  lemma BindEndValueFin(b: Bound, name: string, value: Expr)
    requires b.Fin?
    ensures BindEnd(b, name, value).Fin?
  {}

  lemma BindIntervalIs(d: Interval, i: Interval, name: string)
    requires d.Proper()
    ensures BindInterval(d, i, name)
         == Interval(BindEnds(d.min, i, name, d.min.Fin?), BindEnds(d.max, i, name, d.max.Fin?))
    ensures BindInterval(d, i, name).min.Fin? <==> d.min.Fin?
    ensures BindInterval(d, i, name).max.Fin? <==> d.max.Fin?
    ensures BindInterval(d, i, name).Proper()
  {}

  lemma BindIntervalGood(d: Interval, i: Interval, name: string, names: set<string>)
    requires Good(d, names + Fresh(name)) && Large(i, name, names)
    ensures Good(BindInterval(d, i, name), names)
  {
    BindIntervalIs(d, i, name);
    if d.min.Fin? { BindEndsNeat(d.min, i, name, names); }
    if d.max.Fin? { BindEndsNeat(d.max, i, name, names); }
  }

  lemma BindContains(d: Interval, i: Interval, name: string, names: set<string>, w: World, penv: Env, v: int)
    requires Good(d, names + Fresh(name)) && Large(i, name, names)
    ensures Contains(BindInterval(d, i, name), w, penv, v) <==> Contains(d, w, BindEnv(i, name, w, penv), v)
  {
    BindIntervalIs(d, i, name);
    if d.min.Fin? { BindEndsValue(d.min, i, name, names, w, penv); }
    if d.max.Fin? { BindEndsValue(d.max, i, name, names, w, penv); }
  }

  lemma BindEnvAgrees(i: Interval, name: string, names: set<string>, w: World, penv: Env)
    requires Fresh(name) !! names || Substitutes(i)
    ensures forall n :: n in names ==> BindEnv(i, name, w, penv).Get(n) == penv.Get(n)
  {}

  lemma BindBoxGood(b: Box, i: Interval, name: string, n: string, names: set<string>, params: set<string>,
      ar: map<string, nat>)
    requires BoxGood(b, n, names + Fresh(name), params, ar) && Large(i, name, names)
    ensures BoxGood(BindBox(b, i, name), n, names, params, ar)
  {
    forall k | 0 <= k < |b.bounds| ensures Good(BindInterval(b.bounds[k], i, name), names) {
      BindIntervalGood(b.bounds[k], i, name, names);
    }
  }

  /** The bound box says under the parameters what the box said with the fresh names set. */
  lemma BindBoxCovers(b: Box, i: Interval, name: string, n: string, names: set<string>, params: set<string>,
      ar: map<string, nat>, w: World, penv: Env, pt: seq<int>)
    requires BoxGood(b, n, names + Fresh(name), params, ar) && Large(i, name, names) && params <= names
    ensures Covers(BindBox(b, i, name), w, penv, pt) <==> Covers(b, w, BindEnv(i, name, w, penv), pt)
  {
    BindEnvAgrees(i, name, names, w, penv);
    if b.used.Some? { NeatAgree(b.used.value, params, w, penv, BindEnv(i, name, w, penv)); }
    forall k | 0 <= k < |b.bounds| && k < |pt|
      ensures Contains(BindInterval(b.bounds[k], i, name), w, penv, pt[k]) <==> Contains(b.bounds[k], w, BindEnv(i, name, w, penv), pt[k]) {
      BindContains(b.bounds[k], i, name, names, w, penv, pt[k]);
    }
  }

  ghost predicate LetReady(i: Interval, name: string, names: set<string>) {
    Substitutes(i) || Large(i, name, names)
  }

  lemma BindBoxesGood(boxes: BoxMap, i: Interval, name: string, names: set<string>, params: set<string>,
      ar: map<string, nat>)
    requires BoxesGood(boxes, LetScopeNames(i, name, names), params, ar) && LetReady(i, name, names)
    ensures BoxesGood(BindBoxes(boxes, i, name), names, params, ar)
  {
    if !Substitutes(i) {
      forall n | n in boxes ensures BoxGood(BindBox(boxes[n], i, name), n, names, params, ar) {
        BindBoxGood(boxes[n], i, name, n, names, params, ar);
      }
    }
  }

  lemma BindBoxesReport(boxes: BoxMap, i: Interval, name: string, names: set<string>, params: set<string>,
      ar: map<string, nat>, w: World, penv: Env, f: string, pt: seq<int>)
    requires BoxesGood(boxes, LetScopeNames(i, name, names), params, ar) && LetReady(i, name, names) && params <= names
    ensures Reported(BindBoxes(boxes, i, name), w, penv, f, pt) <==> Reported(boxes, w, BindEnv(i, name, w, penv), f, pt)
  {
    if !Substitutes(i) && f in boxes {
      BindBoxCovers(boxes[f], i, name, f, names, params, ar, w, penv, pt);
    }
  }

  /** Boxes over names that exclude the fresh ones do not notice them. */
  lemma ReportedAgrees(boxes: BoxMap, names: set<string>, params: set<string>, ar: map<string, nat>, w: World,
      penv: Env, penv': Env, f: string, pt: seq<int>)
    requires BoxesGood(boxes, names, params, ar) && params <= names && Reported(boxes, w, penv, f, pt)
    requires forall n :: n in names ==> penv'.Get(n) == penv.Get(n)
    ensures Reported(boxes, w, penv', f, pt)
  {
    var b := boxes[f];
    assert BoxGood(b, f, names, params, ar);
    if b.used.Some? { NeatAgree(b.used.value, params, w, penv, penv'); }
    forall k | 0 <= k < |pt| ensures Contains(b.bounds[k], w, penv', pt[k]) {
      assert Good(b.bounds[k], names);
      ContainsAgrees(b.bounds[k], names, w, penv, penv', pt[k]);
    }
  }

  lemma ContainsAgrees(i: Interval, names: set<string>, w: World, env: Env, env': Env, v: int)
    requires Shaped(i, names) && Contains(i, w, env, v)
    requires forall n :: n in names ==> env.Get(n) == env'.Get(n)
    ensures Contains(i, w, env', v)
  {
    if i.min.Fin? { NeatAgree(i.min.e, names, w, env, env'); }
    if i.max.Fin? { NeatAgree(i.max.e, names, w, env, env'); }
  }

  lemma MoreNames(boxes: BoxMap, names: set<string>, names': set<string>, params: set<string>, ar: map<string, nat>)
    requires BoxesGood(boxes, names, params, ar) && names <= names'
    ensures BoxesGood(boxes, names', params, ar)
  {
    forall n | n in boxes ensures BoxGood(boxes[n], n, names', params, ar) {
      assert BoxGood(boxes[n], n, names, params, ar);
      var b := boxes[n];
      forall i | 0 <= i < |b.bounds| ensures Good(b.bounds[i], names') {
        assert Good(b.bounds[i], names);
      }
    }
  }

  lemma LetKept(b: BoxMap, inner: BoxMap, i: Interval, name: string, names: set<string>, params: set<string>,
      ar: map<string, nat>, w: World)
    requires BoxesGood(b, names, params, ar) && LetReady(i, name, names) && params <= names
    requires Kept(b, inner, LetScopeNames(i, name, names), params, ar, w)
    ensures Kept(b, BindBoxes(inner, i, name), names, params, ar, w)
  {
    BindBoxesGood(inner, i, name, names, params, ar);
    forall penv, f, pt | Reported(b, w, penv, f, pt) ensures Reported(BindBoxes(inner, i, name), w, penv, f, pt) {
      var penv' := BindEnv(i, name, w, penv);
      BindEnvAgrees(i, name, names, w, penv);
      ReportedAgrees(b, names, params, ar, w, penv, penv', f, pt);
      BindBoxesReport(inner, i, name, names, params, ar, w, penv, f, pt);
    }
  }
}
