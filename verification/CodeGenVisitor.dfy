/** Code generation as the visitor it is: every visit sets `id`, fills the cache, draws on
    the counter for fresh names and appends to the stream.  The cache is keyed by text. */
module CodeGenVisitor {
  import opened IR
  import opened Trees
  import opened Text
  import opened CodeGenC
  import opened CodeGenText
  import opened CodeGenMeaning
  import opened CodeGenSim
  import opened CodeGenTheorem
  import opened CodeGenStmts

  lemma Regroup(start: seq<Code>, a: seq<Code>, b: seq<Code>)
    ensures start + a + b == start + (a + b)
  {}

  predicate RestIn(i: nat) { i <= |DIVISION| && ProgramIn(DIVISION[i..], 2 + i) }

  lemma DivisionAt(i: nat)
    requires i < |DIVISION| && RestIn(i)
    ensures RestIn(i + 1) && InstrIn(DIVISION[i], 2 + i) && (DIVISION[i].Infix2? ==> OperatorKnown(DIVISION[i].op))
    ensures DIVISION[i..] != [] && DIVISION[i..][0] == DIVISION[i] && DIVISION[i..][1..] == DIVISION[i + 1..]
  {
    RestOfProgram(DIVISION[i..], 2 + i);
  }

  predicate AllNamed(atoms: seq<Atom>) { atoms == [] || (AtomNamed(atoms[0]) && AllNamed(atoms[1..])) }

  lemma {:induction false} NamedAt(atoms: seq<Atom>, i: nat)
    requires AllNamed(atoms) && i < |atoms|
    ensures AtomNamed(atoms[i])
  {
    if i > 0 { NamedAt(atoms[1..], i - 1); }
  }

  lemma {:induction false} NamedMore(atoms: seq<Atom>, a: Atom)
    requires AllNamed(atoms) && AtomNamed(a)
    ensures AllNamed(atoms + [a])
  {
    var more := atoms + [a];
    if atoms == [] {
      assert more[1..] == [];
    } else {
      NamedMore(atoms[1..], a);
      assert more[1..] == atoms[1..] + [a];
    }
  }

  lemma CallWritable(name: string, atoms: seq<Atom>)
    requires IsName(name) && AllNamed(atoms)
    ensures Writable(Apply1(name, atoms))
  {
    forall i | 0 <= i < |atoms| ensures AtomNamed(atoms[i]) { NamedAt(atoms, i); }
  }

  class CodeGen {
    var id: Atom
    var cache: map<string, string>
    /** The same cache by right-hand side. */
    ghost var known: Cache
    var counter: nat
    var stream: seq<Code>
    const allocs: Allocations

    constructor (a: Allocations)
      ensures Valid() && known == map[] && counter == 0 && stream == [] && allocs == a
    {
      id := Lit(0);
      cache, known := map[], map[];
      counter := 0;
      stream := [];
      allocs := a;
    }

    ghost predicate Valid()
      reads this
    {
      ByText(cache, known)
    }

    /** The visitor now stands where the printed code p leaves it, having started from this
        stream. */
    ghost predicate At(p: Printed, start: seq<Code>)
      reads this
    {
      && Valid() && AtomNamed(id)
      && id == p.atom && known == p.cache && counter == p.next && stream == start + p.code
    }

    /** print_assignment: what is looked up is the text. */
    method EmitAssignment(t: Type, rhs: Rhs)
      requires Valid() && Writable(rhs)
      modifies this
      ensures At(PrintAssignment(t, rhs, old(known), old(counter)), old(stream))
    {
      var text := RhsText(rhs);
      TextFinds(rhs, cache, known);
      if text in cache {
        id := Id(cache[text]);
      } else {
        var unused := Generated(counter);
        GeneratedIsName(counter);
        TextAdds(rhs, unused, cache, known);
        counter := counter + 1;
        id := Id(unused);
        stream := stream + [Define(t, unused, rhs)];
        cache, known := cache[text := unused], known[rhs := unused];
      }
    }

    /** One more assignment after what was printed. */
    method EmitStep(ghost p: Printed, ghost start: seq<Code>, t: Type, rhs: Rhs)
      requires At(p, start) && Writable(rhs)
      modifies this
      ensures At(Step(p, t, rhs), start)
    {
      EmitAssignment(t, rhs);
      Regroup(start, p.code, PrintAssignment(t, rhs, p.cache, p.next).code);
    }

    method EmitImm(t: Type, v: int)
      requires Valid() && CScalar(t)
      modifies this
      ensures At(PrintImm(t, v, old(known), old(counter)), old(stream))
    {
      if t == Int(32) { id := Lit(v); } else { EmitAssignment(t, CastTo(t, Lit(v))); }
    }

    /** The lowered Euclidean quotient, assignment by assignment. */
    method EmitDiv(ghost p: Printed, ghost start: seq<Code>, t: Type, a: Atom, b: Atom)
      requires At(p, start) && CScalar(t) && AtomNamed(a) && AtomNamed(b)
      modifies this
      ensures At(PrintDiv(p, t, a, b), start)
    {
      DivisionIn();
      var temps := [a, b];
      ghost var q := p;
      var i := 0;
      while i < |DIVISION|
        invariant 0 <= i <= |DIVISION| && |temps| == 2 + i && At(q, start) && RestIn(i)
        invariant AllNamed(temps)
        invariant PrintProgram(DIVISION[i..], q, t, temps) == PrintDiv(p, t, a, b)
      {
        DivisionAt(i);
        var instr := DIVISION[i];
        ghost var r := PrintInstr(instr, q, t, temps);
        EmitInstr(instr, q, start, t, temps);
        NamedMore(temps, id);
        temps := temps + [id];
        q := r;
        i := i + 1;
      }
    }

    method EmitInstr(i: Instr, ghost p: Printed, ghost start: seq<Code>, t: Type, temps: seq<Atom>)
      requires At(p, start) && InstrIn(i, |temps|) && CScalar(t)
      requires (i.Infix2? ==> OperatorKnown(i.op)) && AllNamed(temps)
      modifies this
      ensures At(PrintInstr(i, p, t, temps), start)
    {
      ghost var r := PrintInstr(i, p, t, temps);
      match i
      case Infix2(op, x, y) =>
        NamedAt(temps, x);
        NamedAt(temps, y);
        EmitInfix(p, start, t, op, temps[x], temps[y]);
        assert At(r, start);
      case Invert(x) =>
        NamedAt(temps, x);
        EmitInverted(p, start, t, temps[x]);
        assert At(r, start);
      case Width =>
        EmitWidth(p, start, t);
        assert At(r, start);
    }

    method EmitInfix(ghost p: Printed, ghost start: seq<Code>, t: Type, op: Operator, a: Atom, b: Atom)
      requires At(p, start) && OperatorKnown(op) && AtomNamed(a) && AtomNamed(b)
      modifies this
      ensures At(Step(p, t, Infix(op, a, b)), start)
    {
      EmitStep(p, start, t, Infix(op, a, b));
    }

    method EmitInverted(ghost p: Printed, ghost start: seq<Code>, t: Type, a: Atom)
      requires At(p, start) && AtomNamed(a)
      modifies this
      ensures At(Step(p, t, BNot(a)), start)
    {
      EmitStep(p, start, t, BNot(a));
    }

    method EmitWidth(ghost p: Printed, ghost start: seq<Code>, t: Type)
      requires At(p, start) && CScalar(t)
      modifies this
      ensures At(Then(p, PrintImm(t, t.bits - 1, p.cache, p.next)), start)
    {
      EmitImm(t, t.bits - 1);
      Regroup(start, p.code, PrintImm(t, t.bits - 1, p.cache, p.next).code);
    }

    /** Print after what was printed. */
    method EmitAfter(ghost p: Printed, ghost start: seq<Code>, e: Expr)
      requires At(p, start) && Writes(e)
      modifies this
      ensures At(Then(p, Print(e, allocs, p.cache, p.next)), start)
      decreases Weight(e), 1
    {
      Emit(e);
      Regroup(start, p.code, Print(e, allocs, p.cache, p.next).code);
    }

    method Emit(e: Expr)
      requires Valid() && Writes(e)
      modifies this
      ensures At(Print(e, allocs, old(known), old(counter)), old(stream))
      decreases Weight(e), 0
    {
      ghost var start, c0, n0 := stream, known, counter;
      match e
      case Imm(t, v) => EmitImm(t, v);
      case Var(_, name) =>
        PrintedIsName(name);
        id := ReadName(PrintName(name));
      case Cast(t, value) =>
        Emit(value);
        EmitStep(Print(value, allocs, c0, n0), start, t, CastTo(t, id));
      case Bin(_, _, _, _) => EmitBin(e);
      case Not(a) =>
        Emit(a);
        EmitStep(Print(a, allocs, c0, n0), start, TypeOf(e), LNot(id));
      case Select(c, tv, fv) =>
        Emit(tv);
        var x := id;
        ghost var p := Print(tv, allocs, c0, n0);
        EmitAfter(p, start, fv);
        var y := id;
        ghost var q := Then(p, Print(fv, allocs, p.cache, p.next));
        EmitAfter(q, start, c);
        EmitStep(Then(q, Print(c, allocs, q.cache, q.next)), start, TypeOf(e), Ternary(TypeOf(e), id, x, y));
      case Load(t, name, index) =>
        PrintedIsName(name);
        Emit(index);
        EmitStep(Print(index, allocs, c0, n0), start, t, Index(ViewOf(allocs, name, t), PrintName(name), id));
      case Call(_, _, _, _, _) => EmitCall(e);
      case Let(name, value, body) =>
        Emit(value);
        var repl := Var(TypeOf(value), AtomText(id));
        SubstituteWeight(name, repl, body);
        TextWrites(TypeOf(value), id);
        SubstituteWrites(name, repl, body);
        EmitAfter(Print(value, allocs, c0, n0), start, Substitute(name, repl, body));
    }

    method EmitBin(e: Expr)
      requires e.Bin? && Valid() && Writes(e)
      modifies this
      ensures At(Print(e, allocs, old(known), old(counter)), old(stream))
      decreases Weight(e), 0, 0
    {
      ghost var start, c0, n0 := stream, known, counter;
      var op, t, b := e.op, e.t, e.b;
      Emit(e.a);
      var x := id;
      ghost var p := Print(e.a, allocs, c0, n0);
      if IsDivision(op) && PowerOfTwo(b).Some? {
        var k := PowerOfTwo(b).value;
        EmitStep(p, start, t, if op.Div? then Infix(Shr, x, Lit(k)) else Infix(BAnd, x, Lit(IntMask(k))));
        return;
      }
      EmitAfter(p, start, b);
      var y := id;
      ghost var q := Then(p, Print(b, allocs, p.cache, p.next));
      if op.Min? {
        EmitStep(q, start, t, Apply1("min", [x, y]));
      } else if op.Max? {
        EmitStep(q, start, t, Apply1("max", [x, y]));
      } else if op.Div? && t.IsInt() {
        EmitDiv(q, start, t, x, y);
      } else {
        EmitStep(q, start, t, Infix(OperatorOf(op), x, y));
        if op.Mod? && t.IsInt() {
          ModWeight(t, id, e.a, b);
          ModWrites(t, id, b);
          EmitAfter(Step(q, t, Infix(OperatorOf(op), x, y)), start, ModExpr(t, id, b));
        }
      }
    }

    method EmitCall(e: Expr)
      requires e.Call? && Valid() && Writes(e)
      modifies this
      ensures At(Print(e, allocs, old(known), old(counter)), old(stream))
      decreases Weight(e), 0, 0
    {
      ghost var start, c0, n0 := stream, known, counter;
      var args := e.args;
      if e.kind.Abs? && |args| == 1 {
        assert args == [args[0]];
        AbsWeight(e.t, args[0]);
        AbsWrites(e.t, args[0]);
        assert Weight(e) == Weight(Call(Abs, e.t, "abs", 0, [args[0]]));
        Emit(AbsExpr(e.t, args[0]));
        EmitStep(Print(AbsExpr(e.t, args[0]), allocs, c0, n0), start, e.t, Copy(id));
      } else if e.kind.IfThenElse? && |args| == 3 {
        EmitIf(e);
      } else {
        var atoms := EmitArgs(args);
        CallWritable(e.name, atoms);
        EmitStep(PrintArgs(args, allocs, c0, n0).1, start, e.t, Apply1(e.name, atoms));
      }
    }

    /** A variable for the result, set in the scope of either branch. */
    method EmitIf(e: Expr)
      requires e.Call? && e.kind.IfThenElse? && |e.args| == 3 && Valid() && Writes(e)
      modifies this
      ensures At(Print(e, allocs, old(known), old(counter)), old(stream))
      decreases Weight(e), 0, 0, 0
    {
      ghost var start, c0, n0 := stream, known, counter;
      EmitBranch(e);
      EmitStep(IfAfter(e, allocs, Print(e.args[0], allocs, c0, n0 + 1), Generated(n0)), start, e.t, Copy(id));
      PrintIfIs(e, allocs, c0, n0);
    }

    method EmitBranch(e: Expr)
      requires e.Call? && |e.args| == 3 && Valid() && Writes(e)
      modifies this
      ensures var k := Print(e.args[0], allocs, old(known), old(counter) + 1);
              At(IfAfter(e, allocs, k, Generated(old(counter))), old(stream))
      decreases Weight(e), 0, 0, 0, 1
    {
      ghost var start, k := stream, Print(e.args[0], allocs, known, counter + 1);
      var result := Generated(counter);
      GeneratedIsName(counter);
      EmitCondition(TypeOf(e.args[1]), result, e);
      EmitTaken(e, result, k, start);
    }

    /** The if, after its condition has been printed. */
    method EmitTaken(e: Expr, result: string, ghost k: Printed, ghost start: seq<Code>)
      requires e.Call? && |e.args| == 3 && Writes(e) && IsIdentifier(result)
      requires id == k.atom && counter == k.next && stream == start + ([Declare(TypeOf(e.args[1]), result)] + k.code)
      modifies this
      ensures At(IfAfter(e, allocs, k, result), start)
      decreases Weight(e), 0, 0, 0, 0
    {
      var cond := id;
      var thenCode, elseCode := EmitArms(e, result);
      EmitCode(If(cond, thenCode, elseCode), start, [Declare(TypeOf(e.args[1]), result)] + k.code);
      id := Id(result);
    }

    method EmitCode(code: Code, ghost start: seq<Code>, ghost before: seq<Code>)
      requires stream == start + before
      modifies this`stream
      ensures stream == start + (before + [code])
    {
      stream := stream + [code];
    }

    /** Declare the result and print the condition. */
    method EmitCondition(t: Type, result: string, e: Expr)
      requires e.Call? && |e.args| == 3 && Valid() && Writes(e)
      modifies this
      ensures var k := Print(e.args[0], allocs, old(known), old(counter) + 1);
              id == k.atom && counter == k.next && stream == old(stream) + ([Declare(t, result)] + k.code)
      decreases Weight(e), 0, 0, 0, 0
    {
      WeightAt(e.args, 0);
      WritesAt(e.args, 0);
      var cond := e.args[0];
      ghost var start, k := stream, Print(cond, allocs, known, counter + 1);
      counter := counter + 1;
      stream := stream + [Declare(t, result)];
      Emit(cond);
      Regroup(start, [Declare(t, result)], k.code);
    }

    /** One branch, in a scope of its own. */
    method EmitArm(e: Expr, result: string) returns (code: seq<Code>)
      requires Writes(e)
      modifies this
      ensures Valid()
      ensures var p := Print(e, allocs, map[], old(counter));
              code == p.code + [Assign(result, p.atom)] && counter == p.next && known == map[] && stream == old(stream)
      decreases Weight(e), 1
    {
      var outer := stream;
      cache, known, stream := map[], map[], [];
      Emit(e);
      code := stream + [Assign(result, id)];
      cache, known, stream := map[], map[], outer;
    }

    /** Both branches. */
    method EmitArms(e: Expr, result: string) returns (x: seq<Code>, y: seq<Code>)
      requires e.Call? && |e.args| == 3 && Writes(e)
      modifies this
      ensures Valid()
      ensures var p := Print(e.args[1], allocs, map[], old(counter));
              var q := Print(e.args[2], allocs, map[], p.next);
              && x == p.code + [Assign(result, p.atom)] && y == q.code + [Assign(result, q.atom)]
              && counter == q.next && known == map[] && stream == old(stream)
      decreases Weight(e), 0, 0, 0, 0, 0
    {
      WeightAt(e.args, 1);
      WeightAt(e.args, 2);
      WritesAt(e.args, 1);
      WritesAt(e.args, 2);
      x := EmitArm(e.args[1], result);
      y := EmitArm(e.args[2], result);
    }

    method EmitArgs(es: seq<Expr>) returns (atoms: seq<Atom>)
      requires Valid() && WritesAll(es)
      modifies this
      ensures Valid() && AtomNamed(id) && AllNamed(atoms)
      ensures var (texts, p) := PrintArgs(es, allocs, old(known), old(counter));
              atoms == texts && known == p.cache && counter == p.next && stream == old(stream) + p.code && id == p.atom
      decreases Weights(es), 2 + |es|
    {
      ghost var start, c0, n0 := stream, known, counter;
      if es == [] {
        id := Lit(0);
        return [];
      }
      Emit(es[0]);
      var first := id;
      ghost var p := Print(es[0], allocs, c0, n0);
      atoms := EmitArgs(es[1..]);
      ghost var q := PrintArgs(es[1..], allocs, p.cache, p.next).1;
      Regroup(start, p.code, q.code);
      atoms := [first] + atoms;
    }

    /** Opening and closing a scope both empty the cache. */
    method EmitScope(c: Stmt) returns (code: seq<Code>)
      requires WritesStmt(c)
      modifies this
      ensures Valid() && AtomNamed(id)
      ensures var p := PrintStmt(c, allocs, map[], old(counter));
              code == p.code && counter == p.next && known == map[] && stream == old(stream) && id == p.atom
      decreases StmtSize(c), 1
    {
      var outer := stream;
      cache, known, stream := map[], map[], [];
      EmitStmt(c);
      code := stream;
      cache, known, stream := map[], map[], outer;
    }

    method EmitStore(c: Stmt)
      requires c.Store? && Valid() && WritesStmt(c)
      modifies this
      ensures At(PrintStmt(c, allocs, old(known), old(counter)), old(stream))
    {
      ghost var start, c0, n0 := stream, known, counter;
      Emit(c.index);
      var i := id;
      ghost var p := Print(c.index, allocs, c0, n0);
      EmitAfter(p, start, c.value);
      stream := stream + [Put(ViewOf(allocs, c.name, TypeOf(c.value)), PrintName(c.name), i, id)];
      cache, known := map[], map[];
    }

    method EmitFor(c: Stmt)
      requires c.For? && Valid() && WritesStmt(c)
      modifies this
      ensures At(PrintStmt(c, allocs, old(known), old(counter)), old(stream))
      decreases StmtSize(c), 0, 0
    {
      ghost var start, c0, n0 := stream, known, counter;
      Emit(c.min);
      var lo := id;
      ghost var p := Print(c.min, allocs, c0, n0);
      EmitAfter(p, start, c.extent);
      var n := id;
      var code := EmitScope(c.body);
      stream := stream + [Loop(PrintName(c.name), lo, n, code)];
    }

    method EmitLet(c: Stmt)
      requires c.LetStmt? && Valid() && WritesStmt(c)
      modifies this
      ensures At(PrintStmt(c, allocs, old(known), old(counter)), old(stream))
      decreases StmtSize(c), 0, 0
    {
      ghost var start, p := stream, Print(c.value, allocs, known, counter);
      Emit(c.value);
      var repl := Var(TypeOf(c.value), AtomText(id));
      TextWrites(TypeOf(c.value), id);
      SubstituteWritesStmt(c.name, repl, c.body);
      EmitStmt(SubstituteStmt(c.name, repl, c.body));
      Regroup(start, p.code, PrintStmt(SubstituteStmt(c.name, repl, c.body), allocs, p.cache, p.next).code);
    }

    method EmitBranches(c: Stmt)
      requires c.IfThenElse? && Valid() && WritesStmt(c)
      modifies this
      ensures At(PrintStmt(c, allocs, old(known), old(counter)), old(stream))
      decreases StmtSize(c), 0, 0
    {
      Emit(c.cond);
      var k := id;
      var thenCode := EmitScope(c.thenCase);
      var elseCode: seq<Code> := [];
      if c.elseCase.Some? { elseCode := EmitScope(c.elseCase.value); }
      stream := stream + [If(k, thenCode, elseCode)];
    }

    method EmitStmt(c: Stmt)
      requires Valid() && WritesStmt(c)
      modifies this
      ensures At(PrintStmt(c, allocs, old(known), old(counter)), old(stream))
      decreases StmtSize(c), 0
    {
      ghost var start, c0, n0 := stream, known, counter;
      match c
      case Store(_, _, _) => EmitStore(c);
      case For(_, _, _, _) => EmitFor(c);
      case LetStmt(_, _, _) => EmitLet(c);
      case IfThenElse(_, _, _) => EmitBranches(c);
      case Block(first, rest) =>
        EmitStmt(first);
        EmitStmt(rest);
      case Evaluate(value) =>
        if IsConst(value) {
          id := Lit(0);
        } else {
          Emit(value);
          stream := stream + [Void(id)];
        }
    }
  }

  /** A run of the program in a frame that knows its parameters. */
  ghost predicate Begins(c: Stmt, g: Context, env: Env, f: Frame, m: Memory, cm: Memory, s: Setup) {
    && StmtSafe(c, env, m, s.call) && Known(g, env, f) && FrameOk(0, f) && NamesFree(c, f) && MemOk(s.bufs, m, cm)
  }

  /** The code leaves the memory that the statement leaves. */
  ghost predicate Computes(code: seq<Code>, c: Stmt, env: Env, f: Frame, m: Memory, cm: Memory, s: Setup) {
    MemOk(s.bufs, Run(c, env, m, s.call), Exec(code, f, cm, s.call).1)
  }

  /** What a fresh visitor emits for a statement, and what every run of that computes. */
  method Compile(c: Stmt, allocs: Allocations, ghost g: Context, ghost s: Setup) returns (code: seq<Code>)
    requires StmtOk(c, g, s) && Named(g, s) && allocs == s.allocs
    ensures code == PrintStmt(c, allocs, map[], 0).code
    ensures forall env, f, m, cm :: Begins(c, g, env, f, m, cm, s) ==> Computes(code, c, env, f, m, cm, s)
  {
    StmtWrites(c, g, s);
    var gen := new CodeGen(allocs);
    gen.EmitStmt(c);
    code := gen.stream;
    assert code == PrintStmt(c, s.allocs, map[], 0).code;
    forall env, f, m: Memory, cm: Memory | Begins(c, g, env, f, m, cm, s) ensures Computes(code, c, env, f, m, cm, s) {
      ProgramIsRight(c, g, env, f, m, cm, s);
    }
  }

  lemma GeneratedIsName(k: nat)
    ensures IsIdentifier(Generated(k))
  {
    GeneratedIsPlain(k);
  }

  lemma PrintedIsName(s: string)
    requires s != []
    ensures IsName(PrintName(s)) && AtomNamed(ReadName(PrintName(s)))
  {
    MangledIsPlain(s);
    PrintedIsPlain(s);
  }

  /** The intrinsic if_then_else after its condition has been printed as k. */
  function IfAfter(e: Expr, allocs: Allocations, k: Printed, result: string): Printed
    requires e.Call? && |e.args| == 3
  {
    var x := Print(e.args[1], allocs, map[], k.next);
    var y := Print(e.args[2], allocs, map[], x.next);
    var branch := If(k.atom, x.code + [Assign(result, x.atom)], y.code + [Assign(result, y.atom)]);
    Printed(Id(result), map[], y.next, [Declare(TypeOf(e.args[1]), result)] + k.code + [branch])
  }

  lemma PrintIfIs(e: Expr, allocs: Allocations, cache: Cache, next: nat)
    requires e.Call? && e.kind.IfThenElse? && |e.args| == 3
    ensures var k, result := Print(e.args[0], allocs, cache, next + 1), Generated(next);
            Print(e, allocs, cache, next) == Step(IfAfter(e, allocs, k, result), e.t, Copy(Id(result)))
  {}
}
