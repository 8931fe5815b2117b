/** The regions of each function that a statement reads or writes: for every name, one
    conditional box over the parameters. */
module BoxesTouched {
  import opened IR
  import opened Intervals
  import opened BoundsRules
  import opened Boxes
  import opened Trees

  datatype Stmt =
    | Evaluate(value: Expr)
    | Provide(name: string, values: seq<Expr>, args: seq<Expr>)
    | For(name: string, min: Expr, extent: Expr, body: Stmt)
    | LetStmt(name: string, value: Expr, body: Stmt)
    | IfThenElse(cond: Expr, thenCase: Stmt, elseCase: Option<Stmt>)
    | Block(first: Stmt, rest: Stmt)

  /** Whether to consider calls, whether to consider provides, and of which function (all of
      them if empty). */
  datatype Mode = Mode(calls: bool, stores: bool, fn: string) {
    predicate Wants(name: string) { fn == "" || name == fn }
  }

  type BoxMap = map<string, Box>

  function BoxOf(boxes: BoxMap, name: string): Box {
    if name in boxes then boxes[name] else Box(None, [])
  }

  function MergeInto(c: Tools, boxes: BoxMap, name: string, b: Box): BoxMap {
    boxes[name := Merge(c, BoxOf(boxes, name), b)]
  }

  function ArgBox(used: Option<Expr>, args: seq<Expr>, scope: Scope, c: Tools): Box {
    Box(used, BoundsOfArgs(args, scope, c))
  }

  // ---------- lets ----------

  /** The number of variable nodes. */
  function CountVars(e: Expr): nat {
    match e
    case Imm(_, _) => 0
    case Var(_, _) => 1
    case Cast(_, value) => CountVars(value)
    case Bin(_, _, a, b) => CountVars(a) + CountVars(b)
    case Not(a) => CountVars(a)
    case Select(c, tv, fv) => CountVars(c) + CountVars(tv) + CountVars(fv)
    case Load(_, _, index) => CountVars(index)
    case Ramp(base, stride, _) => CountVars(base) + CountVars(stride)
    case Broadcast(value, _) => CountVars(value)
    case Call(_, _, _, _, args) => CountVarsOf(args)
    case Let(_, value, body) => CountVars(value) + CountVars(body)
  }

  function CountVarsOf(es: seq<Expr>): nat {
    if es == [] then 0 else CountVars(es[0]) + CountVarsOf(es[1..])
  }

  predicate SmallEnough(b: Bound) { b.Fin? ==> CountVars(b.e) < 10 }

  function SimplifyBound(c: Tools, b: Bound): Bound {
    if b.Fin? then Fin(c.simplify(b.e)) else b
  }

  function LetBounds(c: Tools, value: Expr, scope: Scope): Interval {
    var i := BoundsOf(value, scope, c);
    Interval(SimplifyBound(c, i.min), SimplifyBound(c, i.max))
  }

  predicate Substitutes(i: Interval) { SmallEnough(i.min) && (i.min == i.max || SmallEnough(i.max)) }

  /** The names that stand for the ends of a let value too large to substitute, made
      from the let's own name. */
  function MinVar(name: string): string { name + "$min" }
  function MaxVar(name: string): string { name + "$max" }

  /** An end as an expression; an infinity is a variable of its own. */
  function EndExpr(b: Bound): Expr {
    match b
    case Fin(e) => e
    case PosInf => Var(Int(32), "pos_inf")
    case NegInf => Var(Int(32), "neg_inf")
  }

  function LetEntry(i: Interval, t: Type, name: string): Interval {
    if Substitutes(i) then i else Range(Var(t, MinVar(name)), Var(t, MaxVar(name)))
  }

  function BindEnd(b: Bound, name: string, value: Expr): Bound
    requires b.Fin?
  {
    if UsesVars(b.e, {name}) then Fin(Let(name, value, b.e)) else b
  }

  function BindEnds(b: Bound, i: Interval, name: string, has: bool): Bound
    requires has ==> b.Fin?
  {
    if has then BindEnd(BindEnd(b, MaxVar(name), EndExpr(i.max)), MinVar(name), EndExpr(i.min)) else b
  }

  function BindInterval(d: Interval, i: Interval, name: string): Interval {
    var lo := BindEnds(d.min, i, name, d.HasLower());
    var d' := Interval(lo, d.max);
    Interval(lo, BindEnds(d.max, i, name, d'.HasUpper()))
  }

  function BindBox(b: Box, i: Interval, name: string): Box {
    Box(b.used, seq(|b.bounds|, k requires 0 <= k < |b.bounds| => BindInterval(b.bounds[k], i, name)))
  }

  function BindBoxes(boxes: BoxMap, i: Interval, name: string): BoxMap {
    if Substitutes(i) then boxes else map n | n in boxes :: BindBox(boxes[n], i, name)
  }

  // ---------- conditions ----------

  predicate IsLikely(cond: Expr) { cond.Call? && cond.kind.Likely? && |cond.args| == 1 }

  function StripLikely(cond: Expr): Expr { if IsLikely(cond) then cond.args[0] else cond }

  predicate Trims(op: BinOp) { op.LT? || op.LE? || op.GT? || op.GE? || op.EQ? }

  function Flip(op: BinOp): BinOp {
    match op
    case LT => GT
    case LE => GE
    case GT => LT
    case GE => LE
    case _ => op
  }

  function LikelyEnd(b: Bound, likely: bool): Bound {
    if likely && b.Fin? then Fin(Call(Likely, TypeOf(b.e), "likely", 0, [b.e])) else b
  }

  /** min or max of two ends, where the first may be infinite. */
  function TrimEnd(op: BinOp, b: Bound, e: Expr): Bound {
    if b.Fin? then Fin(Bin(op, Int(32), b.e, e)) else Fin(e)
  }

  /** The interval of a variable known to compare with something in the interval o. */
  function Trim(i: Interval, op: BinOp, o: Interval, likely: bool): Interval {
    var one := Imm(Int(32), 1);
    var hi :=
      if !o.HasUpper() then i.max
      else if op.LT? then TrimEnd(Min, LikelyEnd(i.max, likely), Bin(Sub, Int(32), o.max.e, one))
      else if op.LE? || op.EQ? then TrimEnd(Min, LikelyEnd(i.max, likely), o.max.e)
      else i.max;
    var lo :=
      if !o.HasLower() then i.min
      else if op.GT? then TrimEnd(Max, LikelyEnd(i.min, likely), Bin(Add, Int(32), o.min.e, one))
      else if op.GE? || op.EQ? then TrimEnd(Max, LikelyEnd(i.min, likely), o.min.e)
      else i.min;
    Interval(lo, hi)
  }

  predicate TrimsLeft(c: Expr, scope: Scope) {
    c.Bin? && Trims(c.op) && TypeOf(c.a) == Int(32) && c.a.Var? && c.a.name in scope
  }

  predicate TrimsRight(c: Expr, scope: Scope) {
    c.Bin? && Trims(c.op) && TypeOf(c.a) == Int(32) && c.b.Var? && c.b.name in scope
  }

  /** The scope inside a branch taken when the condition holds. */
  function TrimScope(cond: Expr, scope: Scope, c: Tools): Scope {
    var k := StripLikely(cond);
    if TrimsLeft(k, scope) then
      scope[k.a.name := Trim(scope[k.a.name], k.op, BoundsOf(k.b, scope, c), IsLikely(cond))]
    else if TrimsRight(k, scope) then
      scope[k.b.name := Trim(scope[k.b.name], Flip(k.op), BoundsOf(k.a, scope, c), IsLikely(cond))]
    else scope
  }

  function WithCond(b: Box, cond: Expr): Box {
    Box(Some(if b.MaybeUnused() then And2(b.used.value, cond) else cond), b.bounds)
  }

  function ForkBox(c: Tools, cond: Expr, orig: Box, thenBox: Box, elseBox: Box): Box {
    Merge(c, orig, Merge(c, WithCond(thenBox, cond), WithCond(elseBox, Not(cond))))
  }

  /** Merge the boxes of both branches, each under its condition, into the original ones. */
  function Fork(c: Tools, cond: Expr, orig: BoxMap, thens: BoxMap, elses: BoxMap): BoxMap {
    map n | n in orig.Keys + thens.Keys + elses.Keys ::
      if n in thens.Keys + elses.Keys then ForkBox(c, cond, BoxOf(orig, n), BoxOf(thens, n), BoxOf(elses, n))
      else orig[n]
  }

  predicate IsNoOp(s: Option<Stmt>) { s.None? || (s.value.Evaluate? && IsConst(s.value.value)) }

  // ---------- loops ----------

  function AddEnds(op: BinOp, x: Bound, y: Bound): Bound {
    if x.Fin? && y.Fin? then Fin(Bin(op, Int(32), x.e, y.e)) else PosInf
  }

  function LoopMin(name: string): string { name + ".loop_min" }
  function LoopMax(name: string): string { name + ".loop_max" }

  function LoopInterval(name: string, min: Expr, extent: Expr, scope: Scope, c: Tools): Interval {
    var lo := if LoopMin(name) in scope then scope[LoopMin(name)].min else BoundsOf(min, scope, c).min;
    var hi :=
      if LoopMax(name) in scope then scope[LoopMax(name)].max
      else
        AddEnds(Sub, AddEnds(Add, BoundsOf(extent, scope, c).max, BoundsOf(min, scope, c).max), Fin(Imm(Int(32), 1)));
    Interval(lo, hi)
  }

  // ---------- the traversal ----------

  function StmtSize(s: Stmt): nat {
    match s
    case Evaluate(value) => 1 + Size(value)
    case Provide(_, values, args) => 1 + Sizes(values) + Sizes(args)
    case For(_, min, extent, body) => 3 + Size(min) + Size(extent) + StmtSize(body)
    case LetStmt(_, value, body) => 2 + Size(value) + StmtSize(body)
    case IfThenElse(cond, t, e) => 2 + Size(cond) + StmtSize(t) + (if e.Some? then StmtSize(e.value) else 0)
    case Block(first, rest) => 1 + StmtSize(first) + StmtSize(rest)
  }

  function AsLetStmt(e: Expr): Stmt
    requires e.Let?
  {
    LetStmt(e.name, e.value, Evaluate(e.body))
  }

  lemma AsLetSize(e: Expr)
    requires e.Let?
    ensures StmtSize(AsLetStmt(e)) < StmtSize(Evaluate(e))
  {
    assert StmtSize(Evaluate(e.body)) == 1 + Size(e.body);
  }

  /** An if_then_else intrinsic is visited as the statement it stands for. */
  function AsIf(e: Expr): Stmt
    requires e.Call? && |e.args| == 3
  {
    Stmt.IfThenElse(e.args[0], Evaluate(e.args[1]), Some(Evaluate(e.args[2])))
  }

  lemma AsIfSize(e: Expr)
    requires e.Call? && |e.args| == 3
    ensures StmtSize(AsIf(e)) < StmtSize(Evaluate(e))
  {
    assert e.args == [e.args[0], e.args[1], e.args[2]];
    ThreeSizes(e.args[0], e.args[1], e.args[2]);
  }

  predicate IsIf(e: Expr) { e.Call? && e.kind.IfThenElse? && |e.args| == 3 }

  predicate Reads(e: Expr) { e.Call? && (e.kind.Halide? || e.kind.Image?) }

  function Touch(s: Stmt, scope: Scope, m: Mode, c: Tools, boxes: BoxMap): BoxMap
    decreases StmtSize(s)
  {
    match s
    case Evaluate(e) =>
      if e.Let? then
        AsLetSize(e);
        Touch(AsLetStmt(e), scope, m, c, boxes)
      else if !e.Call? then
        ChildSizes(e);
        TouchArgs(Children(e), scope, m, c, boxes)
      else if !m.calls then boxes
      else if IsIf(e) then
        AsIfSize(e);
        Touch(AsIf(e), scope, m, c, boxes)
      else
        var once := TouchArgs(e.args, scope, m, c, boxes);
        if !Reads(e) then once
        else
          // the arguments of a read are visited a second time
          var twice := TouchArgs(e.args, scope, m, c, once);
          if m.Wants(e.name) then MergeInto(c, twice, e.name, ArgBox(Some(ConstTrue()), e.args, scope, c)) else twice
    case Provide(name, values, args) =>
      var b := if m.stores && m.Wants(name) then MergeInto(c, boxes, name, ArgBox(None, args, scope, c)) else boxes;
      if m.calls then TouchArgs(values, scope, m, c, TouchArgs(args, scope, m, c, b)) else b
    case For(name, min, extent, body) =>
      var b := if m.calls then Touch(Evaluate(extent), scope, m, c, Touch(Evaluate(min), scope, m, c, boxes)) else boxes;
      Touch(body, scope[name := LoopInterval(name, min, extent, scope, c)], m, c, b)
    case LetStmt(name, value, body) =>
      var b := if m.calls then Touch(Evaluate(value), scope, m, c, boxes) else boxes;
      var i := LetBounds(c, value, scope);
      BindBoxes(Touch(body, scope[name := LetEntry(i, TypeOf(value), name)], m, c, b), i, name)
    case IfThenElse(cond, thenCase, elseCase) =>
      var b := Touch(Evaluate(cond), scope, m, c, boxes);
      if UsesVars(cond, scope.Keys) then
        if IsNoOp(elseCase) then Touch(thenCase, TrimScope(cond, scope, c), m, c, b)
        else Touch(elseCase.value, scope, m, c, Touch(thenCase, scope, m, c, b))
      else
        var thens := Touch(thenCase, scope, m, c, map[]);
        var elses := if elseCase.Some? then Touch(elseCase.value, scope, m, c, map[]) else map[];
        Fork(c, cond, b, thens, elses)
    case Block(first, rest) => Touch(rest, scope, m, c, Touch(first, scope, m, c, boxes))
  }

  function TouchArgs(es: seq<Expr>, scope: Scope, m: Mode, c: Tools, boxes: BoxMap): BoxMap
    decreases Sizes(es)
  {
    if es == [] then boxes
    else TouchArgs(es[1..], scope, m, c, Touch(Evaluate(es[0]), scope, m, c, boxes))
  }

  /** boxes_touched: reads and writes are collected apart and then combined. */
  function BoxesTouchedBy(s: Stmt, scope: Scope, calls: bool, stores: bool, fn: string, c: Tools): BoxMap {
    var required := if calls then Touch(s, scope, Mode(true, false, fn), c, map[]) else map[];
    var provided := if stores then Touch(s, scope, Mode(false, true, fn), c, map[]) else map[];
    if !calls then provided
    else if !stores then required
    else
      map n | n in required.Keys + provided.Keys ::
        if n in provided then Merge(c, BoxOf(required, n), provided[n]) else required[n]
  }
}
