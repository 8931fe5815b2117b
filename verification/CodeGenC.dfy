/** C code generation: expressions become single assignments whose right-hand sides are
    remembered, so that a repeated one is not assigned again. */
module CodeGenC {
  import opened IR
  import opened Trees
  import opened Text
  import opened TwosComplement

  // ---------- names ----------

  predicate IsAlpha(c: char) { 'a' <= c <= 'z' || 'A' <= c <= 'Z' }

  function MangleChar(c: char): string {
    if c == '.' then "_" else if c == '$' then "__"
    else if c != '_' && !IsAlpha(c) && !IsDigit(c) then "___" else [c]
  }

  function MangleChars(s: string): string {
    if s == [] then [] else MangleChar(s[0]) + MangleChars(s[1..])
  }

  /** print_name: an underscore in front of a letter, and no character C does not allow. */
  function PrintName(name: string): string {
    (if name != [] && IsAlpha(name[0]) then "_" else "") + MangleChars(name)
  }

  function Generated(k: nat): string { "_" + Digits(k) }

  // ---------- the emitted code ----------

  /** The text of an expression that needs no computation: a literal or an identifier. */
  datatype Atom = Lit(v: int) | Id(name: string)

  function AtomText(a: Atom): string {
    match a
    case Lit(v) => if v >= 0 then Digits(v) else "-" + Digits(-v)
    case Id(name) => name
  }

  /** What C reads where the name of a variable is printed. */
  function ReadName(s: string): Atom { if IsNumeral(s) then Lit(Parse(s)) else Id(s) }

  datatype Operator = Plus | Minus | Times | Quot | Rem | Shr | BAnd | Compare(op: BinOp) | Logic(op: BinOp)

  /** A right-hand side. */
  datatype Rhs =
    | Copy(a: Atom)
    | CastTo(t: Type, a: Atom)
    | Infix(op: Operator, a: Atom, b: Atom)
    | BNot(a: Atom)
    | LNot(a: Atom)
    | Ternary(t: Type, c: Atom, x: Atom, y: Atom)
    | Index(cast: Option<Type>, name: string, a: Atom)
    | Apply1(name: string, args: seq<Atom>)

  datatype Code =
    | Define(t: Type, id: string, rhs: Rhs)
    | Declare(t: Type, id: string)
    | Assign(id: string, a: Atom)
    | Put(cast: Option<Type>, name: string, index: Atom, value: Atom)
    | Void(a: Atom)
    | If(cond: Atom, thenCode: seq<Code>, elseCode: seq<Code>)
    | Loop(id: string, min: Atom, extent: Atom, body: seq<Code>)

  type Cache = map<Rhs, string>

  /** What printing leaves: the text of the value, the cache, the counter for fresh names,
      and the code emitted on the way. */
  datatype Printed = Printed(atom: Atom, cache: Cache, next: nat, code: seq<Code>)

  // ---------- expressions ----------

  /** print_assignment */
  function PrintAssignment(t: Type, rhs: Rhs, cache: Cache, next: nat): Printed {
    if rhs in cache then Printed(Id(cache[rhs]), cache, next, [])
    else Printed(Id(Generated(next)), cache[rhs := Generated(next)], next + 1, [Define(t, Generated(next), rhs)])
  }

  /** The code of both, and what the second leaves. */
  function Then(p: Printed, q: Printed): Printed { q.(code := p.code + q.code) }

  function Step(p: Printed, t: Type, rhs: Rhs): Printed { Then(p, PrintAssignment(t, rhs, p.cache, p.next)) }

  /** is_const_power_of_two_integer: the exponent. */
  function PowerOfTwo(e: Expr): Option<nat> {
    match e
    case Imm(_, v) => if v > 0 then Log2(v) else None
    case Cast(_, value) => PowerOfTwo(value)
    case Broadcast(value, _) => PowerOfTwo(value)
    case _ => None
  }

  function Log2(v: int): Option<nat>
    requires v > 0
  {
    if v == 1 then Some(0)
    else if v % 2 == 1 then None
    else
      var k := Log2(v / 2);
      if k.Some? then Some(k.value + 1) else None
  }

  /** What (1 << k) - 1 may be in a C int: from 31 on the shift is undefined. */
  predicate IsIntMask(k: nat, m: int) { if k < 31 then m == Pow2(k) - 1 else Fits(31, m) }

  /** The mask that is printed; 0 stands for whatever an undefined shift leaves. */
  function IntMask(k: nat): (m: int)
    ensures IsIntMask(k, m)
  {
    if k < 31 then Pow2(k) - 1 else ZeroFits(); 0
  }

  lemma ZeroFits()
    ensures Fits(31, 0)
  {}

  function OperatorOf(op: BinOp): Operator {
    match op
    case Add => Plus
    case Sub => Minus
    case Mul => Times
    case Div => Quot
    case Mod => Rem
    case And => Logic(And)
    case Or => Logic(Or)
    case _ => Compare(op)
  }

  /** cast(t, select(a > 0, a, -a)) */
  function AbsExpr(t: Type, a: Expr): Expr {
    var zero := Imm(TypeOf(a), 0);
    Cast(t, Select(Bin(GT, Bool(1), a, zero), a, Bin(Sub, TypeOf(a), zero, a)))
  }

  /** select(r < 0, r + abs(b), r), where r has been printed. */
  function ModExpr(t: Type, r: Atom, b: Expr): Expr {
    var rem := Var(t, AtomText(r));
    var unsigned := Type(false, t.bits, t.lanes);
    Select(Bin(LT, Bool(1), rem, Imm(t, 0)), Bin(Add, t, rem, Cast(t, Call(Abs, unsigned, "abs", 0, [b]))), rem)
  }

  /** How much there is to print. */
  function Weight(e: Expr): nat {
    match e
    case Imm(_, _) => 1
    case Var(_, _) => 1
    case Cast(_, value) => 1 + Weight(value)
    case Bin(op, _, a, b) => 1 + Weight(a) + Weight(b) + if op.Mod? then 4 * Weight(b) + 30 else 0
    case Not(a) => 1 + Weight(a)
    case Select(c, tv, fv) => 1 + Weight(c) + Weight(tv) + Weight(fv)
    case Load(_, _, index) => 1 + Weight(index)
    case Ramp(base, stride, _) => 1 + Weight(base) + Weight(stride)
    case Broadcast(value, _) => 1 + Weight(value)
    case Call(kind, _, _, _, args) => 1 + Weights(args) + if kind.Abs? then 2 * Weights(args) + 10 else 0
    case Let(_, value, body) => 1 + Weight(value) + Weight(body)
  }

  function Weights(es: seq<Expr>): nat {
    if es == [] then 0 else Weight(es[0]) + Weights(es[1..])
  }

  lemma {:induction false} WeightAt(es: seq<Expr>, i: nat)
    requires i < |es|
    ensures Weight(es[i]) <= Weights(es)
  {
    if i > 0 { WeightAt(es[1..], i - 1); }
  }

  lemma WeightOne(e: Expr)
    ensures Weights([e]) == Weight(e)
  {
    var es := [e];
    assert es[1..] == [];
  }

  /** substitute: hidden under a let of the same name. */
  function Substitute(name: string, repl: Expr, e: Expr): Expr
    decreases e
  {
    match e
    case Imm(_, _) => e
    case Var(_, n) => if n == name then repl else e
    case Cast(t, value) => Cast(t, Substitute(name, repl, value))
    case Bin(op, t, a, b) => Bin(op, t, Substitute(name, repl, a), Substitute(name, repl, b))
    case Not(a) => Not(Substitute(name, repl, a))
    case Select(c, tv, fv) => Select(Substitute(name, repl, c), Substitute(name, repl, tv), Substitute(name, repl, fv))
    case Load(t, n, index) => Load(t, n, Substitute(name, repl, index))
    case Ramp(base, stride, lanes) => Ramp(Substitute(name, repl, base), Substitute(name, repl, stride), lanes)
    case Broadcast(value, lanes) => Broadcast(Substitute(name, repl, value), lanes)
    case Call(kind, t, n, idx, args) => Call(kind, t, n, idx, SubstituteAll(name, repl, args))
    case Let(n, value, body) => Let(n, Substitute(name, repl, value), if n == name then body else Substitute(name, repl, body))
  }

  function SubstituteAll(name: string, repl: Expr, es: seq<Expr>): (rs: seq<Expr>)
    ensures |rs| == |es|
    decreases es
  {
    if es == [] then [] else [Substitute(name, repl, es[0])] + SubstituteAll(name, repl, es[1..])
  }

  lemma {:induction false} SubstituteWeight(name: string, repl: Expr, e: Expr)
    requires repl.Var?
    ensures Weight(Substitute(name, repl, e)) == Weight(e)
    decreases e
  {
    match e
    case Imm(_, _) =>
    case Var(_, n) =>
    case Cast(t, value) => SubstituteWeight(name, repl, value);
    case Bin(op, t, a, b) => SubstituteWeight(name, repl, a); SubstituteWeight(name, repl, b);
    case Not(a) => SubstituteWeight(name, repl, a);
    case Select(c, tv, fv) =>
      SubstituteWeight(name, repl, c); SubstituteWeight(name, repl, tv); SubstituteWeight(name, repl, fv);
    case Load(t, n, index) => SubstituteWeight(name, repl, index);
    case Ramp(base, stride, lanes) => SubstituteWeight(name, repl, base); SubstituteWeight(name, repl, stride);
    case Broadcast(value, lanes) => SubstituteWeight(name, repl, value);
    case Call(kind, t, n, idx, args) => SubstituteWeights(name, repl, args);
    case Let(n, value, body) => SubstituteWeight(name, repl, value); SubstituteWeight(name, repl, body);
  }

  lemma {:induction false} SubstituteWeights(name: string, repl: Expr, es: seq<Expr>)
    requires repl.Var?
    ensures Weights(SubstituteAll(name, repl, es)) == Weights(es)
    decreases es
  {
    if es != [] {
      SubstituteWeight(name, repl, es[0]);
      SubstituteWeights(name, repl, es[1..]);
      assert SubstituteAll(name, repl, es)[1..] == SubstituteAll(name, repl, es[1..]);
    }
  }

  lemma AbsWeight(t: Type, a: Expr)
    ensures Weight(AbsExpr(t, a)) < Weight(Call(Abs, t, "abs", 0, [a]))
  {
    WeightOne(a);
    var zero := Imm(TypeOf(a), 0);
    assert Weight(Bin(GT, Bool(1), a, zero)) == 2 + Weight(a);
    assert Weight(Bin(Sub, TypeOf(a), zero, a)) == 2 + Weight(a);
  }

  lemma ModWeight(t: Type, r: Atom, a: Expr, b: Expr)
    ensures Weight(ModExpr(t, r, b)) < Weight(Bin(Mod, t, a, b))
  {
    var rem := Var(t, AtomText(r));
    var abs := Call(Abs, Type(false, t.bits, t.lanes), "abs", 0, [b]);
    WeightOne(b);
    assert Weight(abs) == 11 + 3 * Weight(b);
    assert Weight(Cast(t, abs)) == 12 + 3 * Weight(b);
    assert Weight(Bin(Add, t, rem, Cast(t, abs))) == 14 + 3 * Weight(b);
    assert Weight(Bin(LT, Bool(1), rem, Imm(t, 0))) == 3;
  }

  /** The types under which buffers are known; a view of another type needs a cast. */
  type Allocations = map<string, Type>

  function ViewOf(allocs: Allocations, name: string, t: Type): Option<Type> {
    if name in allocs && allocs[name] == t then None else Some(t)
  }

  /** A literal of type Int(32) is its own text. */
  function PrintImm(t: Type, v: int, cache: Cache, next: nat): Printed {
    if t == Int(32) then Printed(Lit(v), cache, next, []) else PrintAssignment(t, CastTo(t, Lit(v)), cache, next)
  }

  /** One assignment of a straight-line program: over the texts printed so far, counted from
      the operands; `Width` is the literal bits - 1. */
  datatype Instr = Infix2(op: Operator, x: nat, y: nat) | Invert(x: nat) | Width

  /** The lowered Euclidean quotient of 0 by 1:
      q - (rs & bs) + (rs & ~bs), for the sign masks rs of the remainder and bs of the
      divisor. */
  const DIVISION: seq<Instr> := [
    Infix2(Quot, 0, 1),   // 2: q
    Infix2(Times, 2, 1),  // 3
    Infix2(Minus, 0, 3),  // 4: the remainder
    Width,                // 5
    Infix2(Shr, 4, 5),    // 6: rs
    Infix2(Shr, 1, 5),    // 7: bs
    Infix2(BAnd, 6, 7),   // 8
    Infix2(Minus, 2, 8),  // 9
    Invert(7),            // 10
    Infix2(BAnd, 6, 10),  // 11
    Infix2(Plus, 9, 11)]  // 12

  predicate InstrIn(i: Instr, n: nat) {
    match i
    case Infix2(_, x, y) => x < n && y < n
    case Invert(x) => x < n
    case Width => true
  }

  predicate ProgramIn(prog: seq<Instr>, n: nat) { forall k :: 0 <= k < |prog| ==> InstrIn(prog[k], n + k) }

  lemma RestOfProgram(prog: seq<Instr>, n: nat)
    requires ProgramIn(prog, n) && prog != []
    ensures InstrIn(prog[0], n) && ProgramIn(prog[1..], n + 1)
  {
    assert InstrIn(prog[0], n + 0);
    assert forall k :: 0 <= k < |prog[1..]| ==> prog[1..][k] == prog[k + 1];
  }

  function PrintInstr(i: Instr, p: Printed, t: Type, temps: seq<Atom>): Printed
    requires InstrIn(i, |temps|)
  {
    match i
    case Infix2(op, x, y) => Step(p, t, Infix(op, temps[x], temps[y]))
    case Invert(x) => Step(p, t, BNot(temps[x]))
    case Width => Then(p, PrintImm(t, t.bits - 1, p.cache, p.next))
  }

  function PrintProgram(prog: seq<Instr>, p: Printed, t: Type, temps: seq<Atom>): Printed
    requires ProgramIn(prog, |temps|)
  {
    if prog == [] then p
    else
      RestOfProgram(prog, |temps|);
      var q := PrintInstr(prog[0], p, t, temps);
      PrintProgram(prog[1..], q, t, temps + [q.atom])
  }

  lemma DivisionIn()
    ensures ProgramIn(DIVISION, 2)
  {}

  function PrintDiv(p: Printed, t: Type, a: Atom, b: Atom): Printed {
    DivisionIn();
    PrintProgram(DIVISION, p, t, [a, b])
  }

  function Print(e: Expr, allocs: Allocations, cache: Cache, next: nat): Printed
    decreases Weight(e), 0
  {
    match e
    case Imm(t, v) => PrintImm(t, v, cache, next)
    case Var(_, name) => Printed(ReadName(PrintName(name)), cache, next, [])
    case Cast(t, value) =>
      var p := Print(value, allocs, cache, next);
      Step(p, t, CastTo(t, p.atom))
    case Bin(op, t, a, b) =>
      var p := Print(a, allocs, cache, next);
      if IsDivision(op) && PowerOfTwo(b).Some? then
        var k := PowerOfTwo(b).value;
        Step(p, t, if op.Div? then Infix(Shr, p.atom, Lit(k)) else Infix(BAnd, p.atom, Lit(IntMask(k))))
      else
        var q := Then(p, Print(b, allocs, p.cache, p.next));
        if op.Min? then Step(q, t, Apply1("min", [p.atom, q.atom]))
        else if op.Max? then Step(q, t, Apply1("max", [p.atom, q.atom]))
        else if op.Div? && t.IsInt() then PrintDiv(q, t, p.atom, q.atom)
        else
          var r := Step(q, t, Infix(OperatorOf(op), p.atom, q.atom));
          if op.Mod? && t.IsInt() then
            ModWeight(t, r.atom, a, b);
            Then(r, Print(ModExpr(t, r.atom, b), allocs, r.cache, r.next))
          else r
    case Not(a) =>
      var p := Print(a, allocs, cache, next);
      Step(p, TypeOf(e), LNot(p.atom))
    case Select(c, tv, fv) =>
      var x := Print(tv, allocs, cache, next);
      var y := Then(x, Print(fv, allocs, x.cache, x.next));
      var k := Then(y, Print(c, allocs, y.cache, y.next));
      Step(k, TypeOf(e), Ternary(TypeOf(e), k.atom, x.atom, y.atom))
    case Load(t, name, index) =>
      var p := Print(index, allocs, cache, next);
      Step(p, t, Index(ViewOf(allocs, name, t), PrintName(name), p.atom))
    case Call(kind, t, name, _, args) =>
      if kind.Abs? && |args| == 1 then
        AbsWeight(t, args[0]);
        assert args == [args[0]];
        var p := Print(AbsExpr(t, args[0]), allocs, cache, next);
        Step(p, t, Copy(p.atom))
      else if kind.IfThenElse? && |args| == 3 then
        WeightAt(args, 0);
        WeightAt(args, 1);
        WeightAt(args, 2);
        PrintIf(e, args[0], args[1], args[2], allocs, cache, next)
      else
        var (atoms, p) := PrintArgs(args, allocs, cache, next);
        Step(p, t, Apply1(name, atoms))
    case Let(name, value, body) =>
      var p := Print(value, allocs, cache, next);
      var repl := Var(TypeOf(value), AtomText(p.atom));
      SubstituteWeight(name, repl, body);
      Then(p, Print(Substitute(name, repl, body), allocs, p.cache, p.next))
    // vectors are not emitted as C
    case Ramp(_, _, _) => Printed(Lit(0), cache, next, [])
    case Broadcast(_, _) => Printed(Lit(0), cache, next, [])
  }

  predicate IsDivision(op: BinOp) { op.Div? || op.Mod? }

  /** The if_then_else intrinsic: a variable set in either branch.  Each branch is a scope. */
  function PrintIf(e: Expr, c: Expr, tv: Expr, fv: Expr, allocs: Allocations, cache: Cache, next: nat): Printed
    requires Weight(c) < Weight(e) && Weight(tv) < Weight(e) && Weight(fv) < Weight(e)
    decreases Weight(e), 0, 0
  {
    var result, t := Generated(next), TypeOf(tv);
    var k := Print(c, allocs, cache, next + 1);
    var x := Print(tv, allocs, map[], k.next);
    var y := Print(fv, allocs, map[], x.next);
    var branch := If(k.atom, x.code + [Assign(result, x.atom)], y.code + [Assign(result, y.atom)]);
    Step(Printed(Id(result), map[], y.next, [Declare(t, result)] + k.code + [branch]), TypeOf(e), Copy(Id(result)))
  }

  function PrintArgs(es: seq<Expr>, allocs: Allocations, cache: Cache, next: nat): (r: (seq<Atom>, Printed))
    ensures |r.0| == |es|
    decreases Weights(es), |es|
  {
    if es == [] then ([], Printed(Lit(0), cache, next, []))
    else
      var p := Print(es[0], allocs, cache, next);
      var (atoms, q) := PrintArgs(es[1..], allocs, p.cache, p.next);
      ([p.atom] + atoms, Then(p, q))
  }

  // ---------- statements ----------

  /** Statements once storage is flat. */
  datatype Stmt =
    | Store(name: string, value: Expr, index: Expr)
    | For(name: string, min: Expr, extent: Expr, body: Stmt)
    | LetStmt(name: string, value: Expr, body: Stmt)
    | IfThenElse(cond: Expr, thenCase: Stmt, elseCase: Option<Stmt>)
    | Block(first: Stmt, rest: Stmt)
    | Evaluate(value: Expr)

  function StmtSize(s: Stmt): nat {
    match s
    case Store(_, _, _) => 1
    case For(_, _, _, body) => 1 + StmtSize(body)
    case LetStmt(_, _, body) => 1 + StmtSize(body)
    case IfThenElse(_, t, e) => 1 + StmtSize(t) + if e.Some? then StmtSize(e.value) else 0
    case Block(first, rest) => 1 + StmtSize(first) + StmtSize(rest)
    case Evaluate(_) => 1
  }

  function SubstituteStmt(name: string, repl: Expr, s: Stmt): (r: Stmt)
    ensures StmtSize(r) == StmtSize(s)
  {
    match s
    case Store(n, value, index) => Store(n, Substitute(name, repl, value), Substitute(name, repl, index))
    case For(n, min, extent, body) =>
      For(n, Substitute(name, repl, min), Substitute(name, repl, extent), if n == name then body else SubstituteStmt(name, repl, body))
    case LetStmt(n, value, body) =>
      LetStmt(n, Substitute(name, repl, value), if n == name then body else SubstituteStmt(name, repl, body))
    case IfThenElse(cond, t, e) =>
      Stmt.IfThenElse(Substitute(name, repl, cond), SubstituteStmt(name, repl, t),
          if e.Some? then Some(SubstituteStmt(name, repl, e.value)) else None)
    case Block(first, rest) => Block(SubstituteStmt(name, repl, first), SubstituteStmt(name, repl, rest))
    case Evaluate(value) => Evaluate(Substitute(name, repl, value))
  }

  /** Scopes and stores empty the cache: names declared in a scope are gone after it, and a
      store may change what a load reads. */
  function PrintStmt(s: Stmt, allocs: Allocations, cache: Cache, next: nat): Printed
    decreases StmtSize(s)
  {
    match s
    case Store(name, value, index) =>
      var i := Print(index, allocs, cache, next);
      var v := Print(value, allocs, i.cache, i.next);
      Printed(v.atom, map[], v.next, i.code + v.code + [Put(ViewOf(allocs, name, TypeOf(value)), PrintName(name), i.atom, v.atom)])
    case For(name, min, extent, body) =>
      var lo := Print(min, allocs, cache, next);
      var n := Print(extent, allocs, lo.cache, lo.next);
      var p := PrintStmt(body, allocs, map[], n.next);
      Printed(p.atom, map[], p.next, lo.code + n.code + [Loop(PrintName(name), lo.atom, n.atom, p.code)])
    case LetStmt(name, value, body) =>
      var p := Print(value, allocs, cache, next);
      Then(p, PrintStmt(SubstituteStmt(name, Var(TypeOf(value), AtomText(p.atom)), body), allocs, p.cache, p.next))
    case IfThenElse(cond, thenCase, elseCase) =>
      var k := Print(cond, allocs, cache, next);
      var t := PrintStmt(thenCase, allocs, map[], k.next);
      if elseCase.None? then Printed(t.atom, map[], t.next, k.code + [If(k.atom, t.code, [])])
      else
        var e := PrintStmt(elseCase.value, allocs, map[], t.next);
        Printed(e.atom, map[], e.next, k.code + [If(k.atom, t.code, e.code)])
    case Block(first, rest) =>
      var p := PrintStmt(first, allocs, cache, next);
      Then(p, PrintStmt(rest, allocs, p.cache, p.next))
    case Evaluate(value) =>
      if IsConst(value) then Printed(Lit(0), cache, next, [])
      else
        var p := Print(value, allocs, cache, next);
        p.(code := p.code + [Void(p.atom)])
  }
}
