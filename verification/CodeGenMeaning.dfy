/** What the emitted C does, and what the statements it came from do. */
module CodeGenMeaning {
  import opened IR
  import opened TwosComplement
  import opened CodeGenC

  /** The value held at each index of each buffer. */
  type Memory = (string, int) -> int

  function Update(m: Memory, name: string, i: int, v: int): Memory {
    (n: string, j: int) => if n == name && j == i then v else m(n, j)
  }

  /** What an assignment to a variable of the type stores.  One-bit types are printed as
      bool, to which C converts by comparing with zero; others wrap. */
  function Convert(t: Type, v: int): int { if t.bits == 1 then B2I(v != 0) else Wrap(t, v) }

  /** The values that C stores as the type would wrap them. */
  predicate Stored(t: Type, v: int) { t.bits == 1 ==> v == 0 || (!t.signed && v % 2 == 1) }

  /** C stores the wrapped value if and only if the type has more than one bit, or the value
      is zero, or the type is unsigned and the value odd. */
  lemma StoredIsWrapped(t: Type, v: int)
    ensures Convert(t, v) == Wrap(t, v) <==> Stored(t, v)
  {
    BoolWraps(v);
    if t.bits == 1 && t.signed { SignedBitWraps(v); }
    if t.bits == 1 { assert Wrap(t, v) == Wrap(Type(t.signed, 1, 1), v) by { assert MinOf(t) == MinOf(Type(t.signed, 1, 1)); } }
  }

  lemma BoolWraps(v: int)
    ensures Wrap(Bool(1), v) == v % 2
  {
    BoolRange(1);
    assert Pow2(1) == 2;
  }

  lemma SignedBitWraps(v: int)
    ensures Wrap(Int(1), v) == -(v % 2)
  {
    assert Pow2(0) == 1 && MinOf(Int(1)) == -1 && Modulus(Int(1)) == 2;
  }

  /** The types whose every value C can hold: it has no signed type of one bit. */
  predicate CType(t: Type) { t.bits == 1 ==> !t.signed }

  lemma RangeIsStored(t: Type, v: int)
    requires CType(t) && InRange(t, v)
    ensures Stored(t, v) && Convert(t, v) == v
  {
    if t.bits == 1 { assert Pow2(1) == 2; }
    StoredIsWrapped(t, v);
  }

  lemma ConvertedInRange(t: Type, v: int)
    requires CType(t)
    ensures InRange(t, Convert(t, v))
  {
    if t.bits == 1 { assert Pow2(1) == 2; }
  }

  /** The declared variables and their values. */
  datatype Frame = Frame(decl: map<string, Type>, vals: map<string, int>) {
    function Define(id: string, t: Type, v: int): Frame { Frame(decl[id := t], vals[id := Convert(t, v)]) }
    function Get(id: string): int { if id in vals then vals[id] else 0 }
    function TypeFor(id: string): Type { if id in decl then decl[id] else Int(32) }
    /** What is left of the frame when the scope opened on `outer` is closed. */
    function Leave(outer: Frame): Frame {
      Frame(outer.decl, map id | id in outer.vals :: Get(id))
    }
  }

  /** The functions the emitted code can call. */
  type Functions = (CallKind, string, nat, seq<int>) -> int

  function AtomValue(a: Atom, f: Frame): int { if a.Lit? then a.v else f.Get(a.name) }
  function AtomType(a: Atom, f: Frame): Type { if a.Lit? then Int(32) else f.TypeFor(a.name) }

  function AtomValues(args: seq<Atom>, f: Frame): (vs: seq<int>)
    ensures |vs| == |args| && forall i :: 0 <= i < |args| ==> vs[i] == AtomValue(args[i], f)
  {
    if args == [] then [] else [AtomValue(args[0], f)] + AtomValues(args[1..], f)
  }

  /** The type of a right-hand side, from the types of what it mentions: variables, arrays
      (by the names they are printed under) and functions. */
  function RhsType(rhs: Rhs, f: Frame, arrays: map<string, Type>, protos: map<string, Type>): Type {
    match rhs
    case Copy(a) => AtomType(a, f)
    case CastTo(t, _) => t
    case Infix(op, a, _) => if op.Compare? || op.Logic? then Bool(1) else AtomType(a, f)
    case BNot(a) => AtomType(a, f)
    case LNot(_) => Bool(1)
    case Ternary(t, _, _, _) => t
    case Index(cast, name, _) => if cast.Some? then cast.value else if name in arrays then arrays[name] else Int(32)
    case Apply1(name, args) =>
      if (name == "min" || name == "max") && |args| == 2 then AtomType(args[0], f)
      else if name in protos then protos[name] else Int(32)
  }

  function InfixValue(op: Operator, t: Type, x: int, y: int): int {
    match op
    case Plus => x + y
    case Minus => x - y
    case Times => x * y
    case Quot => if y == 0 then 0 else TruncDiv(x, y)
    case Rem => if y == 0 then 0 else TruncMod(x, y)
    case Shr => if y < 0 then 0 else ShiftRight(x, y)
    case BAnd => BitAnd(t.bits, x, y)
    case Compare(c) => Apply(c, Bool(1), x, y)
    case Logic(c) => Apply(c, Bool(1), x, y)
  }

  /** The value computed before it is converted to the type of the variable assigned. */
  function RhsValue(rhs: Rhs, t: Type, f: Frame, m: Memory, call: Functions): int {
    match rhs
    case Copy(a) => AtomValue(a, f)
    case CastTo(_, a) => AtomValue(a, f)
    case Infix(op, a, b) => InfixValue(op, t, AtomValue(a, f), AtomValue(b, f))
    case BNot(a) => BitNot(AtomValue(a, f))
    case LNot(a) => B2I(AtomValue(a, f) == 0)
    case Ternary(_, c, x, y) => if AtomValue(c, f) != 0 then AtomValue(x, f) else AtomValue(y, f)
    case Index(_, name, a) => m(name, AtomValue(a, f))
    case Apply1(name, args) =>
      var vs := AtomValues(args, f);
      if name == "min" && |vs| == 2 then Apply(Min, t, vs[0], vs[1])
      else if name == "max" && |vs| == 2 then Apply(Max, t, vs[0], vs[1])
      else call(PureExtern, name, 0, vs)
  }

  /** Running emitted code. */
  function Exec(cs: seq<Code>, f: Frame, m: Memory, call: Functions): (Frame, Memory)
    decreases cs, 0
  {
    if cs == [] then (f, m)
    else
      var (f', m') := ExecOne(cs[0], f, m, call);
      Exec(cs[1..], f', m', call)
  }

  function ExecOne(c: Code, f: Frame, m: Memory, call: Functions): (Frame, Memory)
    decreases c, 0
  {
    match c
    case Define(t, id, rhs) => (f.Define(id, t, RhsValue(rhs, t, f, m, call)), m)
    case Declare(t, id) => (f.Define(id, t, 0), m)
    case Assign(id, a) => (f.Define(id, f.TypeFor(id), AtomValue(a, f)), m)
    case Put(_, name, i, v) => (f, Update(m, name, AtomValue(i, f), AtomValue(v, f)))
    case Void(_) => (f, m)
    case If(cond, thenCode, elseCode) =>
      var (f', m') := if AtomValue(cond, f) != 0 then Exec(thenCode, f, m, call) else Exec(elseCode, f, m, call);
      (f'.Leave(f), m')
    case Loop(id, lo, n, body) =>
      ExecLoop(id, AtomValue(lo, f), AtomValue(lo, f) + AtomValue(n, f), body, f, m, call)
  }

  /** The iterations from i on.  What a body declares does not survive it. */
  function ExecLoop(id: string, i: int, end: int, body: seq<Code>, f: Frame, m: Memory,
      call: Functions): (Frame, Memory)
    decreases body, if i < end then end - i else 0
  {
    if i >= end then (f, m)
    else
      var (f', m') := Exec(body, f.Define(id, Int(32), i), m, call);
      ExecLoop(id, i + 1, end, body, f'.Leave(f), m', call)
  }

  /** Running a statement. */
  function Run(s: Stmt, env: Env, m: Memory, call: Functions): Memory
    decreases s, 0
  {
    match s
    case Store(name, value, index) =>
      Update(m, name, Eval(index, World(m, call), env), Eval(value, World(m, call), env))
    case For(name, min, extent, body) =>
      var lo := Eval(min, World(m, call), env);
      RunLoop(name, lo, lo + Eval(extent, World(m, call), env), body, env, m, call)
    case LetStmt(name, value, body) => Run(body, env.Set(name, Eval(value, World(m, call), env)), m, call)
    case IfThenElse(cond, thenCase, elseCase) =>
      if Eval(cond, World(m, call), env) != 0 then Run(thenCase, env, m, call)
      else if elseCase.Some? then Run(elseCase.value, env, m, call) else m
    case Block(first, rest) => Run(rest, env, Run(first, env, m, call), call)
    case Evaluate(_) => m
  }

  function RunLoop(name: string, i: int, end: int, body: Stmt, env: Env, m: Memory, call: Functions): Memory
    decreases body, if i < end then end - i else 0
  {
    if i >= end then m else RunLoop(name, i + 1, end, body, env, Run(body, env.Set(name, i), m, call), call)
  }
}
