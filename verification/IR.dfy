/** The part of Halide's expression IR that the passes below read and build, with an
    evaluator that gives every expression its meaning.

    A vector expression is evaluated one lane at a time: an environment holds, for one
    lane, the value of every variable in that lane.  Scalars have the same value in every
    lane.  Types below 32 bits wrap; wider integers are mathematical integers, because
    Halide leaves their overflow undefined (a negative result of wide unsigned arithmetic
    wraps once). */
module IR {

  datatype Option<+T> = None | Some(value: T)

  type Bits = n: int | n >= 1 witness 1

  /** A Halide type: Int(bits) or UInt(bits), times a number of lanes. */
  datatype Type = Type(signed: bool, bits: Bits, lanes: nat) {
    function ElementOf(): Type { Type(signed, bits, 1) }
    function WithLanes(n: nat): Type { Type(signed, bits, n) }
    predicate IsUInt() { !signed }
    predicate IsInt() { signed }
    predicate Narrow() { bits < 32 }

    /** Type::can_represent(Type) */
    predicate CanRepresent(other: Type) {
      lanes == other.lanes &&
      if signed then other.bits < bits || (other.signed && other.bits == bits)
      else !other.signed && other.bits <= bits
    }
  }

  function Int(bits: Bits): Type { Type(true, bits, 1) }
  function UInt(bits: Bits): Type { Type(false, bits, 1) }
  function Bool(lanes: nat): Type { Type(false, 1, lanes) }

  datatype BinOp =
    | Add | Sub | Mul | Div | Mod | Min | Max
    | EQ | NE | LT | LE | GT | GE | And | Or

  /** How a Call node is to be read.  Halide calls read a stage, Image calls an input
      image, Extern and PureExtern foreign code; the others are intrinsics. */
  datatype CallKind = Halide | Image | Extern | PureExtern | Abs | Likely | IfThenElse

  datatype Expr =
    | Imm(t: Type, v: int)
    | Var(t: Type, name: string)
    | Cast(t: Type, value: Expr)
    | Bin(op: BinOp, t: Type, a: Expr, b: Expr)
    | Not(a: Expr)
    | Select(cond: Expr, tv: Expr, fv: Expr)
    | Load(t: Type, name: string, index: Expr)
    | Ramp(base: Expr, stride: Expr, lanes: nat)
    | Broadcast(value: Expr, lanes: nat)
    | Call(kind: CallKind, t: Type, name: string, valueIndex: nat, args: seq<Expr>)
    | Let(name: string, value: Expr, body: Expr)

  function TypeOf(e: Expr): Type {
    match e
    case Imm(t, _) => t
    case Var(t, _) => t
    case Cast(t, _) => t
    case Bin(_, t, _, _) => t
    case Not(a) => TypeOf(a)
    case Select(_, tv, _) => TypeOf(tv)
    case Load(t, _, _) => t
    case Ramp(base, _, lanes) => TypeOf(base).WithLanes(lanes)
    case Broadcast(value, lanes) => TypeOf(value).WithLanes(lanes)
    case Call(_, t, _, _, _) => t
    case Let(_, _, body) => TypeOf(body)
  }

  function ConstTrue(): Expr { Imm(Bool(1), 1) }

  /** is_const: an immediate, also seen through casts, ramps and broadcasts. */
  predicate IsConst(e: Expr) {
    match e
    case Imm(_, _) => true
    case Cast(_, value) => IsConst(value)
    case Ramp(base, stride, _) => IsConst(base) && IsConst(stride)
    case Broadcast(value, _) => IsConst(value)
    case _ => false
  }

  // ---------- arithmetic of a type ----------

  function Pow2(n: nat): (p: nat)
    ensures p >= 1
  {
    if n == 0 then 1 else 2 * Pow2(n - 1)
  }

  function MinOf(t: Type): int { if t.signed then 0 - Pow2(t.bits - 1) else 0 }

  function MaxOf(t: Type): int { (if t.signed then Pow2(t.bits - 1) else Pow2(t.bits)) - 1 }

  /** A value a variable of this type can hold.  Wide signed types hold any integer, wide
      unsigned types any natural number. */
  predicate InRange(t: Type, v: int) {
    if t.Narrow() then MinOf(t) <= v <= MaxOf(t) else t.signed || v >= 0
  }

  /** How many values the type has. */
  function Modulus(t: Type): int { MaxOf(t) - MinOf(t) + 1 }

  /** Two's complement: the value of the type that differs from v by a multiple of
      2^bits. */
  function Wrap(t: Type, v: int): (r: int)
    ensures InRange(t, r)
    ensures InRange(t, v) ==> r == v
  {
    if InRange(t, v) then v
    else if t.Narrow() then (v - MinOf(t)) % Modulus(t) + MinOf(t)
    else v % Pow2(t.bits)
  }

  function B2I(b: bool): int { if b then 1 else 0 }

  /** Halide's / and % are Euclidean, as Dafny's are.  Division by zero,
      which is undefined, gives zero so that evaluation is total. */
  function Apply(op: BinOp, t: Type, x: int, y: int): int {
    match op
    case Add => Wrap(t, x + y)
    case Sub => Wrap(t, x - y)
    case Mul => Wrap(t, x * y)
    case Div => Wrap(t, if y == 0 then 0 else x / y)
    case Mod => Wrap(t, if y == 0 then 0 else x % y)
    case Min => if x <= y then x else y
    case Max => if x >= y then x else y
    case EQ => B2I(x == y)
    case NE => B2I(x != y)
    case LT => B2I(x < y)
    case LE => B2I(x <= y)
    case GT => B2I(x > y)
    case GE => B2I(x >= y)
    case And => B2I(x != 0 && y != 0)
    case Or => B2I(x != 0 || y != 0)
  }

  // ---------- meaning ----------

  /** What an expression can read besides its variables: memory and the values of
      functions, images and foreign calls. */
  datatype World = World(
    load: (string, int) -> int,
    call: (CallKind, string, nat, seq<int>) -> int)

  /** The values of the variables in one lane. */
  datatype Env = Env(vars: map<string, int>, lane: int) {
    function Get(n: string): int { if n in vars then vars[n] else 0 }
    function Set(n: string, v: int): Env { Env(vars[n := v], lane) }
  }

  function AbsInt(v: int): int { if v < 0 then -v else v }

  function CallValue(kind: CallKind, t: Type, name: string, idx: nat, vs: seq<int>, w: World): int {
    if kind.Abs? && |vs| == 1 then Wrap(t, AbsInt(vs[0]))
    else if kind.Likely? && |vs| == 1 then vs[0]
    else if kind.IfThenElse? && |vs| == 3 then (if vs[0] != 0 then vs[1] else vs[2])
    else Wrap(t, w.call(kind, name, idx, vs))
  }

  function RampValue(t: Type, base: int, lane: int, stride: int): (r: int)
    ensures InRange(t, r)
  {
    Wrap(t, base + Wrap(t, lane * stride))
  }

  function Eval(e: Expr, w: World, env: Env): int {
    match e
    case Imm(_, v) => v
    case Var(t, name) => Wrap(t, env.Get(name))
    case Cast(t, value) => Wrap(t, Eval(value, w, env))
    case Bin(op, t, a, b) => Apply(op, t, Eval(a, w, env), Eval(b, w, env))
    case Not(a) => B2I(Eval(a, w, env) == 0)
    case Select(c, tv, fv) => if Eval(c, w, env) != 0 then Eval(tv, w, env) else Eval(fv, w, env)
    case Load(t, name, index) => Wrap(t, w.load(name, Eval(index, w, env)))
    case Ramp(base, stride, _) =>
      RampValue(TypeOf(base), Eval(base, w, env), env.lane, Eval(stride, w, env))
    case Broadcast(value, _) => Eval(value, w, env)
    case Call(kind, t, name, idx, args) => CallValue(kind, t, name, idx, EvalArgs(args, w, env), w)
    case Let(name, value, body) => Eval(body, w, env.Set(name, Eval(value, w, env)))
  }

  function EvalArgs(es: seq<Expr>, w: World, env: Env): (vs: seq<int>)
    ensures |vs| == |es|
    ensures forall i :: 0 <= i < |es| ==> vs[i] == Eval(es[i], w, env)
  {
    if es == [] then [] else [Eval(es[0], w, env)] + EvalArgs(es[1..], w, env)
  }

  lemma EvalOne(e: Expr, w: World, env: Env)
    ensures EvalArgs([e], w, env) == [Eval(e, w, env)]
  {
    var es := [e];
    assert es[1..] == [];
  }

  /** An immediate under casts and broadcasts. */
  predicate PlainConst(e: Expr) {
    match e
    case Imm(_, _) => true
    case Cast(_, value) => PlainConst(value)
    case Broadcast(value, _) => PlainConst(value)
    case _ => false
  }

  /** Its value, wrapped by every cast on the way. */
  function ConstOf(e: Expr): int {
    match e
    case Imm(_, v) => v
    case Cast(t, value) => Wrap(t, ConstOf(value))
    case Broadcast(value, _) => ConstOf(value)
    case _ => 0
  }

  lemma {:induction false} ConstOfIs(e: Expr, w: World, env: Env)
    requires PlainConst(e)
    ensures Eval(e, w, env) == ConstOf(e)
  {
    match e
    case Imm(_, _) =>
    case Cast(_, value) => ConstOfIs(value, w, env);
    case Broadcast(value, _) => ConstOfIs(value, w, env);
  }

  // ---------- variables ----------

  /** The free variables of an expression. */
  function FV(e: Expr): set<string> {
    match e
    case Imm(_, _) => {}
    case Var(_, name) => {name}
    case Cast(_, value) => FV(value)
    case Bin(_, _, a, b) => FV(a) + FV(b)
    case Not(a) => FV(a)
    case Select(c, tv, fv) => FV(c) + FV(tv) + FV(fv)
    case Load(_, _, index) => FV(index)
    case Ramp(base, stride, _) => FV(base) + FV(stride)
    case Broadcast(value, _) => FV(value)
    case Call(_, _, _, _, args) => FVs(args)
    case Let(name, value, body) => FV(value) + (FV(body) - {name})
  }

  function FVs(es: seq<Expr>): set<string> {
    if es == [] then {} else FV(es[0]) + FVs(es[1..])
  }

  lemma FVsMember(es: seq<Expr>, i: nat)
    requires i < |es|
    ensures FV(es[i]) <= FVs(es)
  {
    if i > 0 { FVsMember(es[1..], i - 1); }
  }

  /** The names of the lets in an expression. */
  function LetNames(e: Expr): set<string> {
    match e
    case Imm(_, _) => {}
    case Var(_, _) => {}
    case Cast(_, value) => LetNames(value)
    case Bin(_, _, a, b) => LetNames(a) + LetNames(b)
    case Not(a) => LetNames(a)
    case Select(c, tv, fv) => LetNames(c) + LetNames(tv) + LetNames(fv)
    case Load(_, _, index) => LetNames(index)
    case Ramp(base, stride, _) => LetNames(base) + LetNames(stride)
    case Broadcast(value, _) => LetNames(value)
    case Call(_, _, _, _, args) => LetNamesOf(args)
    case Let(name, value, body) => {name} + LetNames(value) + LetNames(body)
  }

  function LetNamesOf(es: seq<Expr>): set<string> {
    if es == [] then {} else LetNames(es[0]) + LetNamesOf(es[1..])
  }

  /** expr_uses_vars: some Variable node carries one of the names, bound or not. */
  predicate UsesVars(e: Expr, names: set<string>) {
    match e
    case Imm(_, _) => false
    case Var(_, name) => name in names
    case Cast(_, value) => UsesVars(value, names)
    case Bin(_, _, a, b) => UsesVars(a, names) || UsesVars(b, names)
    case Not(a) => UsesVars(a, names)
    case Select(c, tv, fv) => UsesVars(c, names) || UsesVars(tv, names) || UsesVars(fv, names)
    case Load(_, _, index) => UsesVars(index, names)
    case Ramp(base, stride, _) => UsesVars(base, names) || UsesVars(stride, names)
    case Broadcast(value, _) => UsesVars(value, names)
    case Call(_, _, _, _, args) => ArgsUseVars(args, names)
    case Let(_, value, body) => UsesVars(value, names) || UsesVars(body, names)
  }

  predicate ArgsUseVars(es: seq<Expr>, names: set<string>) {
    es != [] && (UsesVars(es[0], names) || ArgsUseVars(es[1..], names))
  }

  lemma {:induction false} UnusedIsNotFree(e: Expr, names: set<string>)
    requires !UsesVars(e, names)
    ensures FV(e) !! names
  {
    match e
    case Imm(_, _) =>
    case Var(_, _) =>
    case Cast(_, value) => UnusedIsNotFree(value, names);
    case Bin(_, _, a, b) => UnusedIsNotFree(a, names); UnusedIsNotFree(b, names);
    case Not(a) => UnusedIsNotFree(a, names);
    case Select(c, tv, fv) =>
      UnusedIsNotFree(c, names); UnusedIsNotFree(tv, names); UnusedIsNotFree(fv, names);
    case Load(_, _, index) => UnusedIsNotFree(index, names);
    case Ramp(base, stride, _) => UnusedIsNotFree(base, names); UnusedIsNotFree(stride, names);
    case Broadcast(value, _) => UnusedIsNotFree(value, names);
    case Call(_, _, _, _, args) => UnusedArgsAreNotFree(args, names);
    case Let(_, value, body) => UnusedIsNotFree(value, names); UnusedIsNotFree(body, names);
  }

  lemma {:induction false} UnusedArgsAreNotFree(es: seq<Expr>, names: set<string>)
    requires !ArgsUseVars(es, names)
    ensures FVs(es) !! names
  {
    if es != [] {
      UnusedIsNotFree(es[0], names);
      UnusedArgsAreNotFree(es[1..], names);
    }
  }

  /** The functions that an expression calls. */
  function Calls(e: Expr): set<string> {
    match e
    case Imm(_, _) => {}
    case Var(_, _) => {}
    case Cast(_, value) => Calls(value)
    case Bin(_, _, a, b) => Calls(a) + Calls(b)
    case Not(a) => Calls(a)
    case Select(c, tv, fv) => Calls(c) + Calls(tv) + Calls(fv)
    case Load(_, _, index) => Calls(index)
    case Ramp(base, stride, _) => Calls(base) + Calls(stride)
    case Broadcast(value, _) => Calls(value)
    case Call(kind, _, name, _, args) => CallsOf(args) + if kind.Halide? then {name} else {}
    case Let(_, value, body) => Calls(value) + Calls(body)
  }

  function CallsOf(es: seq<Expr>): set<string> {
    if es == [] then {} else Calls(es[0]) + CallsOf(es[1..])
  }

  /** No Ramp anywhere, so the value does not depend on the lane. */
  predicate Scalar(e: Expr) {
    match e
    case Imm(t, _) => t.lanes == 1
    case Var(t, _) => t.lanes == 1
    case Cast(t, value) => t.lanes == 1 && Scalar(value)
    case Bin(_, t, a, b) => t.lanes == 1 && Scalar(a) && Scalar(b)
    case Not(a) => Scalar(a)
    case Select(c, tv, fv) => Scalar(c) && Scalar(tv) && Scalar(fv)
    case Load(t, _, index) => t.lanes == 1 && Scalar(index)
    case Ramp(_, _, _) => false
    case Broadcast(_, _) => false
    case Call(_, t, _, _, args) => t.lanes == 1 && ScalarArgs(args)
    case Let(_, value, body) => Scalar(value) && Scalar(body)
  }

  predicate ScalarArgs(es: seq<Expr>) {
    es == [] || (Scalar(es[0]) && ScalarArgs(es[1..]))
  }

  /** Only the free variables matter, and the lane only to vectors. */
  lemma {:induction false} EvalAgree(e: Expr, w: World, env: Env, env': Env)
    requires forall n :: n in FV(e) ==> env.Get(n) == env'.Get(n)
    requires env.lane == env'.lane || Scalar(e)
    ensures Eval(e, w, env) == Eval(e, w, env')
  {
    match e
    case Imm(_, _) =>
    case Var(_, name) =>
    case Cast(_, value) => EvalAgree(value, w, env, env');
    case Bin(_, _, a, b) => EvalAgree(a, w, env, env'); EvalAgree(b, w, env, env');
    case Not(a) => EvalAgree(a, w, env, env');
    case Select(c, tv, fv) =>
      EvalAgree(c, w, env, env'); EvalAgree(tv, w, env, env'); EvalAgree(fv, w, env, env');
    case Load(_, _, index) => EvalAgree(index, w, env, env');
    case Ramp(base, stride, _) => EvalAgree(base, w, env, env'); EvalAgree(stride, w, env, env');
    case Broadcast(value, _) => EvalAgree(value, w, env, env');
    case Call(_, _, _, _, args) => EvalArgsAgree(args, w, env, env');
    case Let(name, value, body) =>
      EvalAgree(value, w, env, env');
      var inner, inner' := env.Set(name, Eval(value, w, env)), env'.Set(name, Eval(value, w, env'));
      forall n | n in FV(body) ensures inner.Get(n) == inner'.Get(n) {
        assert n == name || n in FV(e);
      }
      EvalAgree(body, w, inner, inner');
  }

  lemma {:induction false} EvalArgsAgree(es: seq<Expr>, w: World, env: Env, env': Env)
    requires forall n :: n in FVs(es) ==> env.Get(n) == env'.Get(n)
    requires env.lane == env'.lane || ScalarArgs(es)
    ensures EvalArgs(es, w, env) == EvalArgs(es, w, env')
  {
    if es != [] {
      EvalAgree(es[0], w, env, env');
      EvalArgsAgree(es[1..], w, env, env');
    }
  }

  // ---------- types ----------

  predicate IsArith(op: BinOp) {
    op.Add? || op.Sub? || op.Mul? || op.Div? || op.Mod? || op.Min? || op.Max?
  }

  /** The types of variables, and of the values of functions. */
  datatype Context = Context(vars: map<string, Type>, funcs: map<(string, nat), Type>) {
    function Bind(n: string, t: Type): Context { Context(vars[n := t], funcs) }
  }

  predicate ScalarOr(t: Type, lanes: nat) { t.lanes == 1 || t.lanes == lanes }

  /** The IR's own typing rules.  The context gives every variable one type. */
  predicate WellTyped(e: Expr, g: Context) {
    match e
    case Imm(t, v) => t.lanes == 1 && InRange(t, v)
    case Var(t, name) => name in g.vars && g.vars[name] == t && t.lanes >= 1
    case Cast(t, value) => WellTyped(value, g) && TypeOf(value).lanes == t.lanes
    case Bin(op, t, a, b) =>
      && WellTyped(a, g) && WellTyped(b, g)
      && TypeOf(a) == TypeOf(b)
      && (if IsArith(op) then t == TypeOf(a) else t == Bool(TypeOf(a).lanes))
      && (op.And? || op.Or? ==> TypeOf(a) == t)
    case Not(a) => WellTyped(a, g) && TypeOf(a) == Bool(TypeOf(a).lanes)
    case Select(c, tv, fv) =>
      && WellTyped(c, g) && WellTyped(tv, g) && WellTyped(fv, g)
      && TypeOf(tv) == TypeOf(fv)
      && TypeOf(c).ElementOf() == Bool(1) && ScalarOr(TypeOf(c), TypeOf(tv).lanes)
    case Load(t, _, index) => WellTyped(index, g) && TypeOf(index) == Int(32).WithLanes(t.lanes)
    case Ramp(base, stride, lanes) =>
      && WellTyped(base, g) && WellTyped(stride, g)
      && TypeOf(base) == TypeOf(stride) && TypeOf(base).lanes == 1
      && lanes > 1 && InRange(TypeOf(base), lanes - 1)
    case Broadcast(value, lanes) => WellTyped(value, g) && TypeOf(value).lanes == 1 && lanes > 1
    case Call(kind, t, name, idx, args) =>
      && WellTypedArgs(args, g, t.lanes)
      && (kind.Halide? && (name, idx) in g.funcs ==> t.ElementOf() == g.funcs[(name, idx)])
      && (kind.Abs? ==> |args| == 1 && t.bits == TypeOf(args[0]).bits && t.IsUInt())
      && (kind.Likely? ==> |args| == 1 && t == TypeOf(args[0]))
      && (kind.IfThenElse? ==>
            |args| == 3 && TypeOf(args[0]).ElementOf() == Bool(1) && t == TypeOf(args[1]) == TypeOf(args[2]))
    case Let(name, value, body) =>
      && WellTyped(value, g) && WellTyped(body, g.Bind(name, TypeOf(value)))
      && ScalarOr(TypeOf(value), TypeOf(body).lanes)
  }

  predicate WellTypedArgs(es: seq<Expr>, g: Context, lanes: nat) {
    es == [] || (WellTyped(es[0], g) && TypeOf(es[0]).lanes == lanes && WellTypedArgs(es[1..], g, lanes))
  }

  lemma WellTypedArg(es: seq<Expr>, g: Context, lanes: nat, i: nat)
    requires WellTypedArgs(es, g, lanes) && i < |es|
    ensures WellTyped(es[i], g) && TypeOf(es[i]).lanes == lanes
  {
    if i > 0 { WellTypedArg(es[1..], g, lanes, i - 1); }
  }

  /** A well-typed expression has a value of its type, and its variables are typed. */
  lemma {:induction false} TypeSound(e: Expr, g: Context, w: World, env: Env)
    requires WellTyped(e, g)
    ensures InRange(TypeOf(e), Eval(e, w, env))
    ensures FV(e) <= g.vars.Keys
  {
    match e
    case Imm(_, _) =>
    case Var(_, name) =>
    case Cast(_, value) => TypeSound(value, g, w, env);
    case Bin(op, t, a, b) =>
      TypeSound(a, g, w, env);
      TypeSound(b, g, w, env);
      BoolRange(t.lanes);
    case Not(a) => TypeSound(a, g, w, env); BoolRange(TypeOf(a).lanes);
    case Select(c, tv, fv) =>
      TypeSound(c, g, w, env); TypeSound(tv, g, w, env); TypeSound(fv, g, w, env);
    case Load(_, _, index) => TypeSound(index, g, w, env);
    case Ramp(base, stride, _) => TypeSound(base, g, w, env); TypeSound(stride, g, w, env);
    case Broadcast(value, _) => TypeSound(value, g, w, env);
    case Call(kind, t, _, _, args) => ArgsTypeSound(args, g, t.lanes, w, env);
    case Let(name, value, body) =>
      TypeSound(value, g, w, env);
      TypeSound(body, g.Bind(name, TypeOf(value)), w, env.Set(name, Eval(value, w, env)));
  }

  lemma {:induction false} ArgsTypeSound(es: seq<Expr>, g: Context, lanes: nat, w: World, env: Env)
    requires WellTypedArgs(es, g, lanes)
    ensures forall i :: 0 <= i < |es| ==> InRange(TypeOf(es[i]), Eval(es[i], w, env))
    ensures FVs(es) <= g.vars.Keys
  {
    if es != [] {
      TypeSound(es[0], g, w, env);
      ArgsTypeSound(es[1..], g, lanes, w, env);
    }
  }

  lemma BoolRange(lanes: nat)
    ensures MinOf(Bool(lanes)) == 0 && MaxOf(Bool(lanes)) == 1
  {
    assert Pow2(1) == 2 * Pow2(0) == 2;
  }

  /** A well-typed expression of scalar type reads no vector at all. */
  lemma {:induction false} ScalarTypeIsScalar(e: Expr, g: Context)
    requires WellTyped(e, g) && TypeOf(e).lanes == 1
    ensures Scalar(e)
  {
    match e
    case Imm(_, _) =>
    case Var(_, _) =>
    case Cast(_, value) => ScalarTypeIsScalar(value, g);
    case Bin(_, _, a, b) => ScalarTypeIsScalar(a, g); ScalarTypeIsScalar(b, g);
    case Not(a) => ScalarTypeIsScalar(a, g);
    case Select(c, tv, fv) =>
      ScalarTypeIsScalar(c, g); ScalarTypeIsScalar(tv, g); ScalarTypeIsScalar(fv, g);
    case Load(_, _, index) => ScalarTypeIsScalar(index, g);
    case Ramp(_, _, _) =>
    case Broadcast(_, _) =>
    case Call(_, _, _, _, args) => ScalarArgsAreScalar(args, g);
    case Let(name, value, body) =>
      ScalarTypeIsScalar(value, g);
      ScalarTypeIsScalar(body, g.Bind(name, TypeOf(value)));
  }

  lemma {:induction false} ScalarArgsAreScalar(es: seq<Expr>, g: Context)
    requires WellTypedArgs(es, g, 1)
    ensures ScalarArgs(es)
  {
    if es != [] {
      ScalarTypeIsScalar(es[0], g);
      ScalarArgsAreScalar(es[1..], g);
    }
  }
}
