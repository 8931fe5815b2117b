/** C code generation preserves meaning: running the emitted code computes what the
    expression, or the statement, means. */
module CodeGenTheorem {
  import opened IR
  import opened Trees
  import opened Text
  import opened TwosComplement
  import opened CodeGenC
  import opened CodeGenMeaning
  import opened CodeGenSim
  import opened CodeGenSubst

  // ---------- what the frame knows ----------

  /** Every variable in sight prints as something that holds its value. */
  ghost predicate Known(g: Context, env: Env, f: Frame) {
    forall x :: x in g.vars ==> Knows(f, x, g.vars[x], env.Get(x))
  }

  predicate Knows(f: Frame, x: string, t: Type, v: int) {
    Has(f, ReadName(PrintName(x)), t, v) && InRange(t, v) && t.lanes == 1
  }

  /** C's memory holds, under the printed names of the buffers, what the buffers hold. */
  ghost predicate MemOk(bufs: set<string>, m: Memory, cm: Memory) {
    && (forall a, b :: a in bufs && b in bufs && PrintName(a) == PrintName(b) ==> a == b)
    && forall n, i :: n in bufs ==> m(n, i) == cm(PrintName(n), i)
  }

  /** Everything that printing and running an expression starts from. */
  ghost predicate Ready(e: Expr, g: Context, env: Env, cache: Cache, next: nat, f: Frame, m: Memory, cm: Memory,
      s: Setup) {
    && WellTyped(e, g) && TypeOf(e).lanes == 1 && Printable(e, s) && Safe(e, World(m, s.call), env)
    && Surroundings(g, env, cache, next, f, m, cm, s)
  }

  ghost predicate Surroundings(g: Context, env: Env, cache: Cache, next: nat, f: Frame, m: Memory, cm: Memory,
      s: Setup) {
    Known(g, env, f) && State(cache, next, f, cm, s) && MemOk(s.bufs, m, cm)
  }

  lemma KnownLater(g: Context, env: Env, f: Frame, f1: Frame)
    requires Known(g, env, f) && Later(f, f1)
    ensures Known(g, env, f1)
  {
    forall x | x in g.vars ensures Knows(f1, x, g.vars[x], env.Get(x)) { assert Knows(f, x, g.vars[x], env.Get(x)); }
  }

  lemma Onward(p: Printed, t: Type, v: int, g: Context, env: Env, cache: Cache, next: nat, f: Frame, f1: Frame,
      m: Memory, cm: Memory, s: Setup)
    requires Surroundings(g, env, cache, next, f, m, cm, s) && Yields(p, t, v, next, f, f1, cm, s)
    ensures Surroundings(g, env, p.cache, p.next, f1, m, cm, s) && Surroundings(g, env, map[], p.next, f1, m, cm, s)
  {
    KnownLater(g, env, f, f1);
  }

  /** An identifier in the frame reads back; so an atom does unless it is a negative literal. */
  lemma AtomReadsBack(a: Atom, t: Type, v: int, next: nat, f: Frame)
    requires FrameOk(next, f) && Has(f, a, t, v)
    ensures a.Id? ==> ReadsBack(a)
  {
    if a.Id? { IdsReadBack(a.name); }
  }

  // ---------- values of nodes ----------

  lemma BoolValue(b: bool)
    ensures Wrap(Bool(1), B2I(b)) == B2I(b) && InRange(Bool(1), B2I(b))
  {
    BoolRange(1);
  }

  lemma CompareIsBool(op: BinOp, x: int, y: int)
    requires !IsArith(op)
    ensures Wrap(Bool(1), Apply(op, Bool(1), x, y)) == Apply(op, Bool(1), x, y)
  {
    BoolRange(1);
  }

  lemma UnsignedDivision(x: int, y: int)
    requires x >= 0 && y > 0
    ensures TruncDiv(x, y) == x / y && TruncMod(x, y) == x % y
  {}

  /** An infix right-hand side computes what the node means, apart from signed division. */
  lemma InfixMeans(op: BinOp, t: Type, x: int, y: int)
    requires !IsExtremum(op) && (IsArith(op) ==> InRange(t, x) && InRange(t, y))
    requires IsDivision(op) ==> !t.signed
    requires !IsArith(op) ==> t == Bool(1)
    requires CType(t) && (op.Add? ==> Stored(t, x + y))
    ensures Wrap(t, InfixValue(OperatorOf(op), t, x, y)) == Apply(op, t, x, y)
    ensures Stored(t, InfixValue(OperatorOf(op), t, x, y))
  {
    if t.bits == 1 && IsArith(op) { BoolInfix(op, t, x, y); }
    match op
    case Div =>
      if y != 0 { UnsignedDivision(x, y); }
      assert InfixValue(Quot, t, x, y) == if y == 0 then 0 else x / y;
    case Mod =>
      if y != 0 { UnsignedDivision(x, y); }
      assert InfixValue(Rem, t, x, y) == if y == 0 then 0 else x % y;
    case Add =>
    case Sub =>
    case Mul =>
    case _ => CompareIsBool(op, x, y);
  }

  lemma BoolInfix(op: BinOp, t: Type, x: int, y: int)
    requires !IsExtremum(op) && IsArith(op) && t.bits == 1 && !t.signed && InRange(t, x) && InRange(t, y)
    requires op.Add? ==> Stored(t, x + y)
    ensures Stored(t, InfixValue(OperatorOf(op), t, x, y))
  {
    assert Pow2(1) == 2 && 0 <= x <= 1 && 0 <= y <= 1;
    if y == 1 && (op.Div? || op.Mod?) {
      UnsignedDivision(x, y);
      DivModIs(x, 1, x, 0);
    }
  }

  predicate IsExtremum(op: BinOp) { op.Min? || op.Max? }

  lemma {:induction false} Log2Is(v: int)
    requires v > 0 && Log2(v).Some?
    ensures v == Pow2(Log2(v).value)
  {
    if v > 1 { Log2Is(v / 2); }
  }

  lemma {:induction false} PowerIsConst(e: Expr)
    requires PowerOfTwo(e).Some?
    ensures PlainConst(e)
  {
    match e
    case Imm(_, _) =>
    case Cast(_, value) => PowerIsConst(value);
    case Broadcast(value, _) => PowerIsConst(value);
  }

  lemma ModNegated(x: int, n: int)
    requires n > 0
    ensures x % (-n) == x % n
  {
    assert x == (-n) * (-(x / n)) + x % n;
    DivModIs(x, -n, -(x / n), x % n);
  }

  /** Shifting and masking are division by a power of two, rounding down, and remainder by a
      power of two or its opposite. */
  lemma PowerMeans(op: BinOp, t: Type, x: int, k: nat, v: int)
    requires IsDivision(op) && k <= t.bits && (op.Div? ==> v == Pow2(k)) && (op.Mod? ==> AbsInt(v) == Pow2(k) && k < 31)
    ensures Op(t, PowerOperator(op), x, PowerOperand(op, k)) == Apply(op, t, x, v)
  {
    if op.Mod? {
      MaskIsMod(t.bits, x, k);
      if v < 0 { ModNegated(x, Pow2(k)); }
    }
  }

  /** A bool stays one when shifted or masked. */
  lemma PowerStored(op: BinOp, t: Type, x: int, k: nat)
    requires IsDivision(op) && k <= t.bits && CType(t) && InRange(t, x) && (op.Mod? ==> k < 31)
    ensures Stored(t, InfixValue(PowerOperator(op), t, x, PowerOperand(op, k)))
  {
    if t.bits == 1 {
      assert Pow2(1) == 2 && 0 <= x <= 1;
      var n: int := Pow2(k);
      DivModIs(0, n, 0, 0);
      if n == 1 { DivModIs(x, 1, x, 0); } else { DivModIs(x, n, 0, x); }
      if op.Mod? { MaskIsMod(t.bits, x, k); }
    }
  }

  // ---------- expressions ----------

  /** Printing the expression and running what is printed gives its value. */
  lemma {:induction false} PrintSim(e: Expr, g: Context, env: Env, cache: Cache, next: nat, f: Frame, m: Memory,
      cm: Memory, s: Setup) returns (f1: Frame)
    requires Ready(e, g, env, cache, next, f, m, cm, s)
    ensures Yields(Print(e, s.allocs, cache, next), TypeOf(e), Eval(e, World(m, s.call), env), next, f, f1, cm, s)
    decreases Weight(e), 3
  {
    match e
    case Imm(t, v) => f1 := ImmYields(t, v, cache, next, f, cm, s);
    case Var(t, name) =>
      f1 := f;
      assert Knows(f, name, t, env.Get(name));
      NothingYields(ReadName(PrintName(name)), t, env.Get(name), cache, next, f, cm, s);
    case Cast(_, _) => f1 := UnarySim(e, g, env, cache, next, f, m, cm, s);
    case Not(_) => f1 := UnarySim(e, g, env, cache, next, f, m, cm, s);
    case Load(_, _, _) => f1 := UnarySim(e, g, env, cache, next, f, m, cm, s);
    case Bin(_, _, _, _) => f1 := BinSim(e, g, env, cache, next, f, m, cm, s);
    case Select(_, _, _) => f1 := SelectSim(e, g, env, cache, next, f, m, cm, s);
    case Call(_, _, _, _, _) => f1 := CallSim(e, g, env, cache, next, f, m, cm, s);
    case Let(_, _, _) => f1 := LetSim(e, g, env, cache, next, f, m, cm, s);
  }

  lemma {:induction false} UnarySim(e: Expr, g: Context, env: Env, cache: Cache, next: nat, f: Frame, m: Memory,
      cm: Memory, s: Setup) returns (f1: Frame)
    requires (e.Cast? || e.Not? || e.Load?) && Ready(e, g, env, cache, next, f, m, cm, s)
    ensures Yields(Print(e, s.allocs, cache, next), TypeOf(e), Eval(e, World(m, s.call), env), next, f, f1, cm, s)
    decreases Weight(e), 2
  {
    var w := World(m, s.call);
    var a := if e.Cast? then e.value else if e.Not? then e.a else e.index;
    var q := Print(a, s.allocs, cache, next);
    var fa := PrintSim(a, g, env, cache, next, f, m, cm, s);
    if e.Cast? {
      StoredIsWrapped(e.t, Eval(a, w, env));
      f1 := StepYields(q, e.t, CastTo(e.t, q.atom), Eval(e, w, env), next, f, fa, cm, s);
    } else if e.Not? {
      assert TypeOf(e) == Bool(1);
      BoolValue(Eval(a, w, env) == 0);
      RangeIsStored(Bool(1), B2I(Eval(a, w, env) == 0));
      f1 := StepYields(q, TypeOf(e), LNot(q.atom), Eval(e, w, env), next, f, fa, cm, s);
    } else {
      assert m(e.name, Eval(a, w, env)) == cm(PrintName(e.name), Eval(a, w, env));
      StoredIsWrapped(e.t, w.load(e.name, Eval(a, w, env)));
      f1 := StepYields(q, e.t, Index(ViewOf(s.allocs, e.name, e.t), PrintName(e.name), q.atom), Eval(e, w, env), next,
          f, fa, cm, s);
    }
  }

  // ---------- texts ----------

  /** Whatever is computed is held by an identifier. */
  lemma {:induction false} NotALiteral(e: Expr, cache: Cache, next: nat, s: Setup)
    requires !e.Imm? && !e.Var? && !e.Let? && !e.Ramp? && !e.Broadcast?
    ensures Print(e, s.allocs, cache, next).atom.Id?
    decreases Weight(e)
  {
    if e.Bin? && e.op.Mod? && e.t.IsInt() && PowerOfTwo(e.b).None? {
      var p := Print(e.a, s.allocs, cache, next);
      var q := Then(p, Print(e.b, s.allocs, p.cache, p.next));
      var r := Step(q, e.t, Infix(Rem, p.atom, q.atom));
      ModWeight(e.t, r.atom, e.a, e.b);
      PrintIsMod(e, cache, next, s);
      NotALiteral(ModExpr(e.t, r.atom, e.b), r.cache, r.next, s);
    } else if e.Bin? {
      BinIsHeld(e, cache, next, s);
    }
  }

  lemma BinIsHeld(e: Expr, cache: Cache, next: nat, s: Setup)
    requires e.Bin? && !(e.op.Mod? && e.t.signed && PowerOfTwo(e.b).None?)
    ensures Print(e, s.allocs, cache, next).atom.Id?
  {
    if !(IsDivision(e.op) && PowerOfTwo(e.b).Some?) {
      PrintIsOperation(e, cache, next, s);
      var p := Print(e.a, s.allocs, cache, next);
      var q := Then(p, Print(e.b, s.allocs, p.cache, p.next));
      if e.op.Div? && e.t.IsInt() { DivIsHeld(q, e.t, p.atom, q.atom); }
    }
  }

  lemma {:induction false} ProgramIsHeld(prog: seq<Instr>, p: Printed, t: Type, temps: seq<Atom>)
    requires ProgramIn(prog, |temps|) && prog != [] && !prog[|prog| - 1].Width?
    ensures PrintProgram(prog, p, t, temps).atom.Id?
  {
    RestOfProgram(prog, |temps|);
    var q := PrintInstr(prog[0], p, t, temps);
    if |prog| > 1 {
      ProgramIsHeld(prog[1..], q, t, temps + [q.atom]);
    } else {
      assert prog[1..] == [];
    }
  }

  lemma DivIsHeld(p: Printed, t: Type, a: Atom, b: Atom)
    ensures PrintDiv(p, t, a, b).atom.Id?
  {
    DivisionIn();
    ProgramIsHeld(DIVISION, p, t, [a, b]);
  }

  /** A literal among the texts reads back, unless the expression is a negative one. */
  lemma {:induction false} LiteralsBack(e: Expr, cache: Cache, next: nat, s: Setup)
    requires Printable(e, s) && !PrintsNegative(e)
    ensures var a := Print(e, s.allocs, cache, next).atom; a.Lit? ==> ReadsBack(a)
    decreases Weight(e)
  {
    match e
    case Imm(t, v) => if t == Int(32) { LiteralsReadBack(v); }
    case Var(_, name) => VariablesReadBack(name);
    case Let(name, value, body) =>
      var p := Print(value, s.allocs, cache, next);
      var repl := Var(TypeOf(value), AtomText(p.atom));
      SubstituteWeight(name, repl, body);
      PrintableType(value, s);
      SubstitutePrintable(name, repl, body, s);
      LiteralsBack(Substitute(name, repl, body), p.cache, p.next, s);
    case _ => NotALiteral(e, cache, next, s);
  }

  /** The text of a printed value can stand for a variable: it reads back, and is no name
      that the front end makes. */
  lemma TextStands(e: Expr, cache: Cache, next: nat, t: Type, v: int, f1: Frame, s: Setup)
    requires Printable(e, s) && !PrintsNegative(e)
    requires var p := Print(e, s.allocs, cache, next); FrameOk(p.next, f1) && Has(f1, p.atom, t, v)
    ensures var a := Print(e, s.allocs, cache, next).atom;
            ReadsBack(a) && PrintName(AtomText(a)) == AtomText(a)
  {
    var a := Print(e, s.allocs, cache, next).atom;
    LiteralsBack(e, cache, next, s);
    if a.Id? {
      IdsReadBack(a.name);
    } else {
      LiteralsReadBack(a.v);
      DigitsParse(a.v);
      PlainPrints(Digits(a.v));
    }
  }

  /** A variable named after a printed value may join what is known, even if it is known
      already. */
  lemma KnownWith(g: Context, env: Env, f: Frame, a: Atom, t: Type, v: int)
    requires Known(g, env, f) && Has(f, a, t, v) && ReadsBack(a) && InRange(t, v) && t.lanes == 1
    ensures Known(g.Bind(AtomText(a), t), env.Set(AtomText(a), v), f)
    ensures Weaker(g, g.Bind(AtomText(a), t)) && SameOn(g, env, env.Set(AtomText(a), v))
  {
    var n := AtomText(a);
    if n in g.vars { assert Knows(f, n, g.vars[n], env.Get(n)); }
    var g', env' := g.Bind(n, t), env.Set(n, v);
    forall x | x in g'.vars ensures Knows(f, x, g'.vars[x], env'.Get(x)) {
      if x != n { assert Knows(f, x, g.vars[x], env.Get(x)); }
    }
  }

  // ---------- operators ----------

  lemma {:induction false} PairSim(e: Expr, a: Expr, b: Expr, g: Context, env: Env, cache: Cache, next: nat, f: Frame,
      m: Memory, cm: Memory, s: Setup) returns (fa: Frame, fb: Frame)
    requires Weight(a) < Weight(e) && Weight(b) < Weight(e)
    requires Ready(a, g, env, cache, next, f, m, cm, s) && WellTyped(b, g) && TypeOf(b).lanes == 1 && Printable(b, s)
    requires Safe(b, World(m, s.call), env)
    ensures var w := World(m, s.call);
            var p := Print(a, s.allocs, cache, next);
            var q := Then(p, Print(b, s.allocs, p.cache, p.next));
            && Yields(p, TypeOf(a), Eval(a, w, env), next, f, fa, cm, s)
            && Yields(q, TypeOf(b), Eval(b, w, env), next, f, fb, cm, s) && Later(fa, fb)
            && Surroundings(g, env, q.cache, q.next, fb, m, cm, s)
    decreases Weight(e), 0
  {
    var w := World(m, s.call);
    var p := Print(a, s.allocs, cache, next);
    fa := PrintSim(a, g, env, cache, next, f, m, cm, s);
    Onward(p, TypeOf(a), Eval(a, w, env), g, env, cache, next, f, fa, m, cm, s);
    var r := Print(b, s.allocs, p.cache, p.next);
    fb := PrintSim(b, g, env, p.cache, p.next, fa, m, cm, s);
    ThenYields(p, r, TypeOf(b), Eval(b, w, env), next, f, fa, fb, cm, s);
    Onward(r, TypeOf(b), Eval(b, w, env), g, env, p.cache, p.next, fa, fb, m, cm, s);
  }

  lemma {:induction false} BinSim(e: Expr, g: Context, env: Env, cache: Cache, next: nat, f: Frame, m: Memory,
      cm: Memory, s: Setup) returns (f1: Frame)
    requires e.Bin? && Ready(e, g, env, cache, next, f, m, cm, s)
    ensures Yields(Print(e, s.allocs, cache, next), TypeOf(e), Eval(e, World(m, s.call), env), next, f, f1, cm, s)
    decreases Weight(e), 2
  {
    if IsDivision(e.op) && PowerOfTwo(e.b).Some? {
      f1 := PowerSim(e, g, env, cache, next, f, m, cm, s);
    } else {
      f1 := TwoSim(e, g, env, cache, next, f, m, cm, s);
    }
  }

  lemma {:induction false} PowerSim(e: Expr, g: Context, env: Env, cache: Cache, next: nat, f: Frame, m: Memory,
      cm: Memory, s: Setup) returns (f1: Frame)
    requires e.Bin? && IsDivision(e.op) && PowerOfTwo(e.b).Some? && Ready(e, g, env, cache, next, f, m, cm, s)
    ensures Yields(Print(e, s.allocs, cache, next), TypeOf(e), Eval(e, World(m, s.call), env), next, f, f1, cm, s)
    decreases Weight(e), 1
  {
    var w, t := World(m, s.call), e.t;
    var p := Print(e.a, s.allocs, cache, next);
    var x := Eval(e.a, w, env);
    var fa := PrintSim(e.a, g, env, cache, next, f, m, cm, s);
    var op, lit := PowerOperator(e.op), PowerOperand(e.op, PowerOfTwo(e.b).value);
    TypeSound(e.a, g, w, env);
    PowerStored(e.op, t, x, PowerOfTwo(e.b).value);
    f1 := InfixYields(p, t, op, p.atom, Lit(lit), x, lit, Int(32), next, f, fa, cm, s);
    PowerValue(e, w, env);
  }

  function PowerOperator(op: BinOp): Operator { if op.Div? then Shr else BAnd }

  function PowerOperand(op: BinOp, k: nat): int { if op.Div? then k else IntMask(k) }

  lemma PowerValue(e: Expr, w: World, env: Env)
    requires e.Bin? && IsDivision(e.op) && PowerOfTwo(e.b).Some? && PowerIsRight(e.op, e.t, e.b)
    ensures Op(e.t, PowerOperator(e.op), Eval(e.a, w, env), PowerOperand(e.op, PowerOfTwo(e.b).value)) == Eval(e, w, env)
  {
    PowerIsConst(e.b);
    ConstOfIs(e.b, w, env);
    PowerMeans(e.op, e.t, Eval(e.a, w, env), PowerOfTwo(e.b).value, ConstOf(e.b));
  }

  lemma {:induction false} TwoSim(e: Expr, g: Context, env: Env, cache: Cache, next: nat, f: Frame, m: Memory,
      cm: Memory, s: Setup) returns (f1: Frame)
    requires e.Bin? && !(IsDivision(e.op) && PowerOfTwo(e.b).Some?) && Ready(e, g, env, cache, next, f, m, cm, s)
    ensures Yields(Print(e, s.allocs, cache, next), TypeOf(e), Eval(e, World(m, s.call), env), next, f, f1, cm, s)
    decreases Weight(e), 1
  {
    var w := World(m, s.call);
    var p := Print(e.a, s.allocs, cache, next);
    var q := Then(p, Print(e.b, s.allocs, p.cache, p.next));
    var fa, fb := PairSim(e, e.a, e.b, g, env, cache, next, f, m, cm, s);
    if e.op.Mod? && e.t.signed {
      PrintIsMod(e, cache, next, s);
      f1 := ModSim(e, q, p.atom, g, env, next, f, fb, m, cm, s);
    } else {
      PrintIsOperation(e, cache, next, s);
      f1 := OperationSim(e, q, p.atom, g, env, next, f, fb, m, cm, s);
    }
  }

  lemma PrintIsMod(e: Expr, cache: Cache, next: nat, s: Setup)
    requires e.Bin? && e.op.Mod? && e.t.signed && PowerOfTwo(e.b).None?
    ensures var p := Print(e.a, s.allocs, cache, next);
            var q := Then(p, Print(e.b, s.allocs, p.cache, p.next));
            var r := Step(q, e.t, Infix(Rem, p.atom, q.atom));
            Print(e, s.allocs, cache, next) == Then(r, Print(ModExpr(e.t, r.atom, e.b), s.allocs, r.cache, r.next))
  {
    ModUnfolds(e, s.allocs, cache, next);
  }

  lemma PrintIsOperation(e: Expr, cache: Cache, next: nat, s: Setup)
    requires e.Bin? && !(IsDivision(e.op) && PowerOfTwo(e.b).Some?) && !(e.op.Mod? && e.t.signed)
    ensures var p := Print(e.a, s.allocs, cache, next);
            var q := Then(p, Print(e.b, s.allocs, p.cache, p.next));
            Print(e, s.allocs, cache, next) == Operation(e.op, e.t, q, p.atom)
  {}

  /** What is emitted once both operands are, apart from signed remainders. */
  function Operation(op: BinOp, t: Type, q: Printed, a: Atom): Printed {
    if op.Min? then Step(q, t, Apply1("min", [a, q.atom]))
    else if op.Max? then Step(q, t, Apply1("max", [a, q.atom]))
    else if op.Div? && t.IsInt() then PrintDiv(q, t, a, q.atom)
    else Step(q, t, Infix(OperatorOf(op), a, q.atom))
  }

  lemma OperationSim(e: Expr, q: Printed, a: Atom, g: Context, env: Env, next: nat, f: Frame, fb: Frame, m: Memory,
      cm: Memory, s: Setup) returns (f1: Frame)
    requires e.Bin? && !(IsDivision(e.op) && PowerOfTwo(e.b).Some?) && !(e.op.Mod? && e.t.signed)
    requires WellTyped(e, g) && e.t.lanes == 1 && CType(e.t) && Safe(e, World(m, s.call), env)
    requires f.decl.Keys == f.vals.Keys
    requires var w := World(m, s.call);
             Yields(q, TypeOf(e.b), Eval(e.b, w, env), next, f, fb, cm, s) && Has(fb, a, TypeOf(e.a), Eval(e.a, w, env))
    ensures Yields(Operation(e.op, e.t, q, a), e.t, Eval(e, World(m, s.call), env), next, f, f1, cm, s)
  {
    var w := World(m, s.call);
    var x, y := Eval(e.a, w, env), Eval(e.b, w, env);
    TypeSound(e.a, g, w, env);
    TypeSound(e.b, g, w, env);
    BinValue(e, w, env);
    SafeOperands(e, w, env);
    f1 := OperationYields(q, e.op, e.t, TypeOf(e.a), a, x, y, next, f, fb, cm, s);
  }

  /** What is asked of the operands. */
  predicate OperandsOk(op: BinOp, t: Type, x: int, y: int) {
    && (op.Add? ==> Stored(t, x + y))
    && (IsDivision(op) && t.signed ==> y != 0 && Fits(t.bits - 1, x) && Fits(t.bits - 1, y))
  }

  lemma SafeOperands(e: Expr, w: World, env: Env)
    requires e.Bin? && !(IsDivision(e.op) && PowerOfTwo(e.b).Some?) && Safe(e, w, env)
    ensures OperandsOk(e.op, e.t, Eval(e.a, w, env), Eval(e.b, w, env))
  {}

  lemma OperationYields(q: Printed, op: BinOp, t: Type, ta: Type, a: Atom, x: int, y: int, next: nat, f: Frame,
      fb: Frame, m: Memory, s: Setup) returns (f1: Frame)
    requires !(op.Mod? && t.signed) && OperandsOk(op, t, x, y) && t == (if IsArith(op) then ta else Bool(1))
    requires t.lanes == 1 && CType(t) && f.decl.Keys == f.vals.Keys && InRange(ta, x) && InRange(ta, y)
    requires Yields(q, ta, y, next, f, fb, m, s) && Has(fb, a, ta, x)
    ensures Yields(Operation(op, t, q, a), t, Apply(op, t, x, y), next, f, f1, m, s)
  {
    if IsExtremum(op) {
      f1 := ExtremumYields(q, op, t, a, q.atom, x, y, next, f, fb, m, s);
    } else if op.Div? && t.signed {
      f1 := QuotientYields(q, t, a, q.atom, x, y, next, f, fb, m, s);
    } else {
      InfixMeans(op, t, x, y);
      f1 := PlainYields(q, op, t, ta, a, q.atom, x, y, next, f, fb, m, s);
    }
  }

  lemma BinValue(e: Expr, w: World, env: Env)
    requires e.Bin?
    ensures Eval(e, w, env) == Apply(e.op, e.t, Eval(e.a, w, env), Eval(e.b, w, env))
  {}

  lemma QuotientYields(q: Printed, t: Type, a: Atom, b: Atom, x: int, y: int, next: nat, f: Frame, fb: Frame,
      m: Memory, s: Setup) returns (f1: Frame)
    requires Reaches(q, next, f, fb, m, s) && f.decl.Keys == f.vals.Keys && Has(fb, a, t, x) && Has(fb, b, t, y)
    requires q.atom == b && t.signed && t.lanes == 1 && CType(t) && InType(t, x) && InType(t, y) && y != 0
    ensures Yields(PrintDiv(q, t, a, b), t, Apply(Div, t, x, y), next, f, f1, m, s)
  {
    QuotientApplies(t, x, y);
    f1 := DivYields(q, t, a, b, x, y, next, f, fb, m, s);
  }

  lemma QuotientApplies(t: Type, x: int, y: int)
    requires y != 0
    ensures Apply(Div, t, x, y) == Wrap(t, x / y)
  {}

  lemma ExtremumYields(q: Printed, op: BinOp, t: Type, a: Atom, b: Atom, x: int, y: int, next: nat, f: Frame,
      fb: Frame, m: Memory, s: Setup) returns (f1: Frame)
    requires IsExtremum(op) && Reaches(q, next, f, fb, m, s) && f.decl.Keys == f.vals.Keys && Has(fb, a, t, x)
    requires Has(fb, b, t, y)
    requires InRange(t, x) && InRange(t, y) && CType(t)
    ensures Yields(Step(q, t, Apply1(if op.Min? then "min" else "max", [a, b])), t, Apply(op, t, x, y), next, f, f1, m, s)
  {
    var rhs := Apply1(if op.Min? then "min" else "max", [a, b]);
    TwoValues(a, b, fb);
    RangeIsStored(t, Apply(op, t, x, y));
    f1 := StepYields(q, t, rhs, Apply(op, t, x, y), next, f, fb, m, s);
  }

  lemma TwoValues(a: Atom, b: Atom, f: Frame)
    ensures AtomValues([a, b], f) == [AtomValue(a, f), AtomValue(b, f)]
  {
    var rest := [a, b][1..];
    assert rest == [b] && rest[1..] == [];
  }

  lemma PlainYields(q: Printed, op: BinOp, t: Type, ta: Type, a: Atom, b: Atom, x: int, y: int, next: nat, f: Frame,
      fb: Frame, m: Memory, s: Setup) returns (f1: Frame)
    requires Reaches(q, next, f, fb, m, s) && f.decl.Keys == f.vals.Keys && Has(fb, a, ta, x) && Has(fb, b, ta, y)
    requires t == (if IsArith(op) then ta else Bool(1)) && !IsExtremum(op)
    requires Wrap(t, InfixValue(OperatorOf(op), t, x, y)) == Apply(op, t, x, y)
    requires CType(t) && Stored(t, InfixValue(OperatorOf(op), t, x, y))
    ensures Yields(Step(q, t, Infix(OperatorOf(op), a, b)), t, Apply(op, t, x, y), next, f, f1, m, s)
  {
    StoredIsWrapped(t, InfixValue(OperatorOf(op), t, x, y));
    f1 := StepYields(q, t, Infix(OperatorOf(op), a, b), Apply(op, t, x, y), next, f, fb, m, s);
  }

  // ---------- remainders ----------

  lemma RemainderWraps(t: Type, x: int, y: int)
    requires t.signed && Fits(t.bits - 1, x) && Fits(t.bits - 1, y) && y != 0 && InRange(t, x) && InRange(t, y)
    ensures Op(t, Rem, x, y) == TruncMod(x, y)
  {
    TruncRemainder(x, y);
    BetweenFits(t, x, TruncMod(x, y));
  }

  /** r + |b| is right even when |b| does not fit the signed type: it wraps twice. */
  lemma AddAbs(t: Type, r: int, y: int)
    requires t.signed && InRange(t, y) && InRange(t, r) && -AbsInt(y) < r < 0
    ensures var u := Type(false, t.bits, t.lanes);
            Wrap(t, r + Wrap(t, Wrap(u, AbsInt(y)))) == r + AbsInt(y)
  {
    var u := Type(false, t.bits, t.lanes);
    var a := AbsInt(y);
    assert Pow2(t.bits) == 2 * Pow2(t.bits - 1);
    assert InRange(u, a);
    if t.Narrow() && a > MaxOf(t) {
      var p: int := Pow2(t.bits - 1);
      assert a == p && Modulus(t) == 2 * p && MinOf(t) == -p;
      DivModIs(2 * p, 2 * p, 1, 0);
      assert Wrap(t, a) == -p;
      DivModIs(r, 2 * p, -1, r + 2 * p);
    }
  }

  lemma ModExprMeans(t: Type, n: Atom, b: Expr, w: World, env: Env, x: int, y: int)
    requires t.signed && Fits(t.bits - 1, x) && Fits(t.bits - 1, y) && y != 0 && InRange(t, x) && InRange(t, y)
    requires Eval(b, w, env) == y && env.Get(AtomText(n)) == Op(t, Rem, x, y)
    ensures Eval(ModExpr(t, n, b), w, env) == Wrap(t, x % y)
  {
    var r := TruncMod(x, y);
    RemainderWraps(t, x, y);
    TruncRemainder(x, y);
    BetweenFits(t, x, r);
    ModExprValue(t, n, b, w, env, r, y);
    if r < 0 { AddAbs(t, r, y); }
    LoweringIsEuclidean(t.bits - 1, x, y);
    ModInRange(t, x, y);
  }

  lemma ModExprValue(t: Type, n: Atom, b: Expr, w: World, env: Env, r: int, y: int)
    requires Eval(b, w, env) == y && env.Get(AtomText(n)) == r && InRange(t, r)
    ensures Eval(ModExpr(t, n, b), w, env) == if r < 0 then Wrap(t, r + Wrap(t, Wrap(Type(false, t.bits, t.lanes), AbsInt(y)))) else r
  {
    var u := Type(false, t.bits, t.lanes);
    var rem := Var(t, AtomText(n));
    var abs := Call(Abs, u, "abs", 0, [b]);
    assert Eval(rem, w, env) == r;
    EvalOne(b, w, env);
    assert Eval(abs, w, env) == Wrap(u, AbsInt(y));
    assert Eval(Cast(t, abs), w, env) == Wrap(t, Eval(abs, w, env));
    assert Eval(Bin(LT, Bool(1), rem, Imm(t, 0)), w, env) == B2I(r < 0);
  }

  lemma ModInRange(t: Type, x: int, y: int)
    requires t.signed && y != 0 && InRange(t, x) && InRange(t, y)
    ensures InRange(t, x % y)
  {
    assert 0 <= x % y < AbsInt(y);
  }

  lemma ModExprTyped(t: Type, n: Atom, b: Expr, g: Context, s: Setup)
    requires t.signed && t.lanes == 1 && CType(t) && WellTyped(b, g) && TypeOf(b) == t && Printable(b, s)
    requires AtomText(n) in g.vars && g.vars[AtomText(n)] == t
    ensures WellTyped(ModExpr(t, n, b), g) && TypeOf(ModExpr(t, n, b)) == t && Printable(ModExpr(t, n, b), s)
  {
    var u := Type(false, t.bits, t.lanes);
    var rem, bs := Var(t, AtomText(n)), [b];
    assert bs[1..] == [];
    var abs := Call(Abs, u, "abs", 0, bs);
    SmallInRange(t);
    assert WellTypedArgs(bs, g, 1) && PrintableArgs(bs, s);
    assert WellTyped(abs, g) && Printable(abs, s);
    assert WellTyped(Cast(t, abs), g);
    assert TypeOf(rem) == t && WellTyped(rem, g) && WellTyped(Imm(t, 0), g);
    assert IsArith(Add) && WellTyped(Bin(Add, t, rem, Cast(t, abs)), g);
    assert WellTyped(Bin(LT, Bool(1), rem, Imm(t, 0)), g);
  }

  lemma ModExprSafe(t: Type, n: Atom, b: Expr, w: World, env: Env)
    requires Safe(b, w, env) && t.signed && CType(t)
    ensures Safe(ModExpr(t, n, b), w, env)
  {
    var bs := [b];
    var rem := Var(t, AtomText(n));
    var abs := Call(Abs, Type(false, t.bits, t.lanes), "abs", 0, bs);
    assert bs[1..] == [];
    assert SafeArgs(bs, w, env) && Safe(abs, w, env);
    assert Safe(Cast(t, abs), w, env) && Safe(rem, w, env);
    assert !IsDivision(Add) && Safe(Bin(Add, t, rem, Cast(t, abs)), w, env);
    assert Safe(Bin(LT, Bool(1), rem, Imm(t, 0)), w, env);
  }

  /** The remainder is emitted first, then the correction, which reads it by name. */
  lemma {:induction false} ModSim(e: Expr, q: Printed, a: Atom, g: Context, env: Env, next: nat, f: Frame, fb: Frame,
      m: Memory, cm: Memory, s: Setup) returns (f1: Frame)
    requires e.Bin? && e.op.Mod? && e.t.signed && PowerOfTwo(e.b).None?
    requires WellTyped(e, g) && e.t.lanes == 1 && Printable(e, s) && Safe(e, World(m, s.call), env)
    requires var w := World(m, s.call);
             && Yields(q, e.t, Eval(e.b, w, env), next, f, fb, cm, s) && Has(fb, a, e.t, Eval(e.a, w, env))
             && f.decl.Keys == f.vals.Keys && Surroundings(g, env, q.cache, q.next, fb, m, cm, s)
    ensures var r := Step(q, e.t, Infix(Rem, a, q.atom));
            Yields(Then(r, Print(ModExpr(e.t, r.atom, e.b), s.allocs, r.cache, r.next)), e.t, Eval(e, World(m, s.call), env), next, f, f1, cm, s)
    decreases Weight(e), 0
  {
    var w, t := World(m, s.call), e.t;
    var x, y := Eval(e.a, w, env), Eval(e.b, w, env);
    var r := Step(q, t, Infix(Rem, a, q.atom));
    var vr := Op(t, Rem, x, y);
    var fr := InfixYields(q, t, Rem, a, q.atom, x, y, t, next, f, fb, cm, s);
    KnownLater(g, env, fb, fr);
    AtomReadsBack(r.atom, t, vr, r.next, fr);
    var n := AtomText(r.atom);
    ModReady(e, r.atom, x, y, g, env, r.cache, r.next, fr, m, cm, s);
    ModWeight(t, r.atom, e.a, e.b);
    f1 := PrintSim(ModExpr(t, r.atom, e.b), g.Bind(n, t), env.Set(n, vr), r.cache, r.next, fr, m, cm, s);
    ThenYields(r, Print(ModExpr(t, r.atom, e.b), s.allocs, r.cache, r.next), t, Eval(e, w, env), next, f, fr, f1, cm,
        s);
  }

  lemma ModReady(e: Expr, r: Atom, x: int, y: int, g: Context, env: Env, cache: Cache, next: nat, fr: Frame,
      m: Memory, cm: Memory, s: Setup)
    requires e.Bin? && e.op.Mod? && e.t.signed && PowerOfTwo(e.b).None?
    requires WellTyped(e, g) && e.t.lanes == 1 && Printable(e, s) && Safe(e, World(m, s.call), env)
    requires x == Eval(e.a, World(m, s.call), env) && y == Eval(e.b, World(m, s.call), env)
    requires Surroundings(g, env, cache, next, fr, m, cm, s) && Has(fr, r, e.t, Op(e.t, Rem, x, y)) && ReadsBack(r)
    ensures var n, vr := AtomText(r), Op(e.t, Rem, x, y);
            var corrected := ModExpr(e.t, r, e.b);
            && Ready(corrected, g.Bind(n, e.t), env.Set(n, vr), cache, next, fr, m, cm, s)
            && TypeOf(corrected) == e.t
            && Eval(corrected, World(m, s.call), env.Set(n, vr)) == Eval(e, World(m, s.call), env)
  {
    var w := World(m, s.call);
    TypeSound(e.a, g, w, env);
    TypeSound(e.b, g, w, env);
    KnownWith(g, env, fr, r, e.t, Op(e.t, Rem, x, y));
    ModExprReady(e, r, x, y, g, env, w, s);
  }

  lemma ModExprReady(e: Expr, r: Atom, x: int, y: int, g: Context, env: Env, w: World, s: Setup)
    requires e.Bin? && e.op.Mod? && e.t.signed && PowerOfTwo(e.b).None?
    requires WellTyped(e, g) && e.t.lanes == 1 && Printable(e, s) && Safe(e, w, env)
    requires x == Eval(e.a, w, env) && y == Eval(e.b, w, env) && InRange(e.t, x) && InRange(e.t, y)
    requires Weaker(g, g.Bind(AtomText(r), e.t)) && SameOn(g, env, env.Set(AtomText(r), Op(e.t, Rem, x, y)))
    ensures var g', env' := g.Bind(AtomText(r), e.t), env.Set(AtomText(r), Op(e.t, Rem, x, y));
            var corrected := ModExpr(e.t, r, e.b);
            && WellTyped(corrected, g') && TypeOf(corrected) == e.t && Printable(corrected, s) && Safe(corrected, w, env')
            && Eval(corrected, w, env') == Eval(e, w, env)
  {
    var t := e.t;
    var g', env' := g.Bind(AtomText(r), t), env.Set(AtomText(r), Op(t, Rem, x, y));
    Weaken(e.b, g, g');
    SafeAgrees(e.b, g, w, env, env');
    SameValueOn(e.b, g, w, env, env');
    ModExprTyped(t, r, e.b, g', s);
    ModExprSafe(t, r, e.b, w, env');
    ModExprMeans(t, r, e.b, w, env', x, y);
    BinValue(e, w, env);
    RemainderApplies(t, x, y);
  }

  lemma RemainderApplies(t: Type, x: int, y: int)
    requires y != 0
    ensures Apply(Mod, t, x, y) == Wrap(t, x % y)
  {}

  // ---------- select, calls, lets ----------

  lemma {:induction false} SelectSim(e: Expr, g: Context, env: Env, cache: Cache, next: nat, f: Frame, m: Memory,
      cm: Memory, s: Setup) returns (f1: Frame)
    requires e.Select? && Ready(e, g, env, cache, next, f, m, cm, s)
    ensures Yields(Print(e, s.allocs, cache, next), TypeOf(e), Eval(e, World(m, s.call), env), next, f, f1, cm, s)
    decreases Weight(e), 2
  {
    var w, t := World(m, s.call), TypeOf(e);
    var fx, fy := PairSim(e, e.tv, e.fv, g, env, cache, next, f, m, cm, s);
    var x := Print(e.tv, s.allocs, cache, next);
    var y := Then(x, Print(e.fv, s.allocs, x.cache, x.next));
    var k := Print(e.cond, s.allocs, y.cache, y.next);
    var fk := PrintSim(e.cond, g, env, y.cache, y.next, fy, m, cm, s);
    ThenYields(y, k, TypeOf(e.cond), Eval(e.cond, w, env), next, f, fy, fk, cm, s);
    TypeSound(e, g, w, env);
    PrintableType(e, s);
    f1 := TernaryYields(Then(y, k), t, k.atom, x.atom, y.atom, Eval(e.cond, w, env), Eval(e.tv, w, env),
        Eval(e.fv, w, env), TypeOf(e.cond), next, f, fk, cm, s);
  }

  lemma TernaryYields(q: Printed, t: Type, k: Atom, a: Atom, b: Atom, c: int, x: int, y: int, tk: Type, next: nat,
      f: Frame, fq: Frame, m: Memory, s: Setup) returns (f1: Frame)
    requires Reaches(q, next, f, fq, m, s) && f.decl.Keys == f.vals.Keys && Has(fq, k, tk, c) && Has(fq, a, t, x)
    requires Has(fq, b, t, y)
    requires InRange(t, if c != 0 then x else y) && CType(t)
    ensures Yields(Step(q, t, Ternary(t, k, a, b)), t, if c != 0 then x else y, next, f, f1, m, s)
  {
    RangeIsStored(t, if c != 0 then x else y);
    f1 := StepYields(q, t, Ternary(t, k, a, b), if c != 0 then x else y, next, f, fq, m, s);
  }

  lemma {:induction false} CallSim(e: Expr, g: Context, env: Env, cache: Cache, next: nat, f: Frame, m: Memory,
      cm: Memory, s: Setup) returns (f1: Frame)
    requires e.Call? && Ready(e, g, env, cache, next, f, m, cm, s)
    ensures Yields(Print(e, s.allocs, cache, next), TypeOf(e), Eval(e, World(m, s.call), env), next, f, f1, cm, s)
    decreases Weight(e), 2
  {
    if e.kind.Abs? && |e.args| == 1 {
      f1 := AbsSim(e, g, env, cache, next, f, m, cm, s);
    } else if e.kind.IfThenElse? && |e.args| == 3 {
      f1 := IfSim(e, g, env, cache, next, f, m, cm, s);
    } else {
      f1 := ExternSim(e, g, env, cache, next, f, m, cm, s);
    }
  }

  /** cast(t, select(a > 0, a, -a)) is the magnitude, also of the smallest number. */
  lemma AbsExprMeans(t: Type, a: Expr, w: World, env: Env)
    requires !t.signed && t.bits == TypeOf(a).bits && InRange(TypeOf(a), Eval(a, w, env))
    ensures Eval(AbsExpr(t, a), w, env) == Wrap(t, AbsInt(Eval(a, w, env)))
  {
    var x, ta := Eval(a, w, env), TypeOf(a);
    var zero := Imm(ta, 0);
    var neg := Bin(Sub, ta, zero, a);
    assert Eval(neg, w, env) == Wrap(ta, -x);
    assert Eval(Bin(GT, Bool(1), a, zero), w, env) == B2I(x > 0);
    if x <= 0 { NegationWraps(t, ta, x); }
  }

  lemma NegationWraps(t: Type, ta: Type, x: int)
    requires !t.signed && t.bits == ta.bits && InRange(ta, x) && x <= 0
    ensures Wrap(t, Wrap(ta, -x)) == Wrap(t, -x)
  {
    if !InRange(ta, -x) {
      var p: int := Pow2(ta.bits - 1);
      assert Pow2(ta.bits) == 2 * p;
      assert -x == p && Modulus(ta) == 2 * p && MinOf(ta) == -p;
      DivModIs(2 * p, 2 * p, 1, 0);
      assert Wrap(ta, p) == -p;
      DivModIs(-p, 2 * p, -1, p);
    }
  }

  lemma AbsExprReady(t: Type, a: Expr, g: Context, w: World, env: Env, s: Setup)
    requires WellTyped(a, g) && TypeOf(a).lanes == 1 && t.lanes == 1 && !t.signed && t.bits == TypeOf(a).bits
    requires Printable(a, s) && Safe(a, w, env)
    ensures WellTyped(AbsExpr(t, a), g) && TypeOf(AbsExpr(t, a)) == t && Printable(AbsExpr(t, a), s)
    ensures Safe(AbsExpr(t, a), w, env)
  {
    var ta := TypeOf(a);
    var zero := Imm(ta, 0);
    assert InRange(ta, 0);
    PrintableType(a, s);
    assert WellTyped(zero, g) && Printable(zero, s) && Safe(zero, w, env);
    var positive, negated := Bin(GT, Bool(1), a, zero), Bin(Sub, ta, zero, a);
    assert WellTyped(positive, g) && Printable(positive, s) && Safe(positive, w, env);
    assert WellTyped(negated, g) && Printable(negated, s) && Safe(negated, w, env);
    var chosen := Select(positive, a, negated);
    assert WellTyped(chosen, g) && Printable(chosen, s) && Safe(chosen, w, env);
    TypeSound(chosen, g, w, env);
    RangeIsStored(ta, Eval(chosen, w, env));
  }

  lemma {:induction false} AbsSim(e: Expr, g: Context, env: Env, cache: Cache, next: nat, f: Frame, m: Memory,
      cm: Memory, s: Setup) returns (f1: Frame)
    requires e.Call? && e.kind.Abs? && |e.args| == 1 && Ready(e, g, env, cache, next, f, m, cm, s)
    ensures Yields(Print(e, s.allocs, cache, next), TypeOf(e), Eval(e, World(m, s.call), env), next, f, f1, cm, s)
    decreases Weight(e), 1
  {
    var w, t, a := World(m, s.call), e.t, e.args[0];
    assert e.args == [a] && SafeArgs(e.args, w, env);
    AbsWeight(t, a);
    WellTypedArg(e.args, g, t.lanes, 0);
    PrintableAt(e.args, s, 0);
    TypeSound(a, g, w, env);
    AbsExprReady(t, a, g, w, env, s);
    AbsExprMeans(t, a, w, env);
    EvalOne(a, w, env);
    assert Weight(e) == Weight(Call(Abs, t, "abs", 0, [a]));
    var p := Print(AbsExpr(t, a), s.allocs, cache, next);
    var fp := PrintSim(AbsExpr(t, a), g, env, cache, next, f, m, cm, s);
    f1 := CopyYields(p, t, p.atom, Eval(e, w, env), next, f, fp, cm, s);
  }

  lemma CopyYields(p: Printed, t: Type, a: Atom, v: int, next: nat, f: Frame, fp: Frame, m: Memory,
      s: Setup) returns (f1: Frame)
    requires Reaches(p, next, f, fp, m, s) && f.decl.Keys == f.vals.Keys && Has(fp, a, t, v) && InRange(t, v)
    requires CType(t)
    ensures Yields(Step(p, t, Copy(a)), t, v, next, f, f1, m, s)
  {
    RangeIsStored(t, v);
    f1 := StepYields(p, t, Copy(a), v, next, f, fp, m, s);
  }

  /** The atoms of arguments printed one after the other all hold their values at the end. */
  lemma {:induction false} ArgsSim(es: seq<Expr>, g: Context, env: Env, cache: Cache, next: nat, f: Frame, m: Memory,
      cm: Memory, s: Setup) returns (f1: Frame)
    requires WellTypedArgs(es, g, 1) && PrintableArgs(es, s) && SafeArgs(es, World(m, s.call), env)
    requires Surroundings(g, env, cache, next, f, m, cm, s)
    ensures var (atoms, p) := PrintArgs(es, s.allocs, cache, next);
            && Reaches(p, next, f, f1, cm, s) && Later(f, f1)
            && AtomValues(atoms, f1) == EvalArgs(es, World(m, s.call), env)
            && forall i :: 0 <= i < |atoms| ==> AtomIn(atoms[i], f1)
    decreases Weights(es), 4 + |es|
  {
    if es == [] {
      f1 := f;
    } else {
      var w := World(m, s.call);
      var p := Print(es[0], s.allocs, cache, next);
      var fp := PrintSim(es[0], g, env, cache, next, f, m, cm, s);
      Onward(p, TypeOf(es[0]), Eval(es[0], w, env), g, env, cache, next, f, fp, m, cm, s);
      f1 := ArgsSim(es[1..], g, env, p.cache, p.next, fp, m, cm, s);
      var (atoms, q) := PrintArgs(es[1..], s.allocs, p.cache, p.next);
      ThenReaches(p, q, next, f, fp, f1, cm, s);
      assert Has(f1, p.atom, TypeOf(es[0]), Eval(es[0], w, env));
      assert ([p.atom] + atoms)[1..] == atoms;
    }
  }

  lemma ThenReaches(p: Printed, q: Printed, next: nat, f: Frame, f1: Frame, f2: Frame, m: Memory, s: Setup)
    requires Reaches(p, next, f, f1, m, s) && Reaches(q, p.next, f1, f2, m, s) && f.decl.Keys == f.vals.Keys
    ensures Reaches(Then(p, q), next, f, f2, m, s) && Later(f, f2)
  {
    ExecSum(p.code, q.code, f, m, s.call);
    ExtendsTrans(f, f1, f2);
    ExtendsIsLater(f, f2);
  }

  lemma {:induction false} ExternSim(e: Expr, g: Context, env: Env, cache: Cache, next: nat, f: Frame, m: Memory,
      cm: Memory, s: Setup) returns (f1: Frame)
    requires e.Call? && e.kind.PureExtern? && Ready(e, g, env, cache, next, f, m, cm, s)
    ensures Yields(Print(e, s.allocs, cache, next), TypeOf(e), Eval(e, World(m, s.call), env), next, f, f1, cm, s)
    decreases Weight(e), 1
  {
    var w := World(m, s.call);
    var (atoms, p) := PrintArgs(e.args, s.allocs, cache, next);
    var fp := ArgsSim(e.args, g, env, cache, next, f, m, cm, s);
    StoredIsWrapped(e.t, w.call(e.kind, e.name, e.valueIndex, EvalArgs(e.args, w, env)));
    f1 := StepYields(p, e.t, Apply1(e.name, atoms), Eval(e, World(m, s.call), env), next, f, fp, cm, s);
  }

  /** The body is printed with the text of the value in place of the variable. */
  lemma {:induction false} LetSim(e: Expr, g: Context, env: Env, cache: Cache, next: nat, f: Frame, m: Memory,
      cm: Memory, s: Setup) returns (f1: Frame)
    requires e.Let? && Ready(e, g, env, cache, next, f, m, cm, s)
    ensures Yields(Print(e, s.allocs, cache, next), TypeOf(e), Eval(e, World(m, s.call), env), next, f, f1, cm, s)
    decreases Weight(e), 2
  {
    var w, t := World(m, s.call), TypeOf(e.value);
    var v := Eval(e.value, w, env);
    var p := Print(e.value, s.allocs, cache, next);
    var fp := PrintSim(e.value, g, env, cache, next, f, m, cm, s);
    TypeSound(e.value, g, w, env);
    TextStands(e.value, cache, next, t, v, fp, s);
    var n := AtomText(p.atom);
    var body := Renamed(e.name, n, t, e.body);
    SubstituteWeight(e.name, Var(t, n), e.body);
    PrintableSource(e.body, s);
    Onward(p, t, v, g, env, cache, next, f, fp, m, cm, s);
    KnownWith(g, env, fp, p.atom, t, v);
    LetBodyReady(e, n, v, g, env, w, s);
    f1 := PrintSim(body, g.Bind(n, t), env.Set(n, v), p.cache, p.next, fp, m, cm, s);
    ThenYields(p, Print(body, s.allocs, p.cache, p.next), TypeOf(e), Eval(e, w, env), next, f, fp, f1, cm, s);
  }

  lemma LetBodyReady(e: Expr, n: string, v: int, g: Context, env: Env, w: World, s: Setup)
    requires e.Let? && WellTyped(e, g) && Printable(e, s) && Safe(e, w, env) && v == Eval(e.value, w, env)
    requires PrintName(n) == n && TypeOf(e.value).lanes == 1
    requires Weaker(g, g.Bind(n, TypeOf(e.value))) && SameOn(g, env, env.Set(n, v))
    ensures var body := Renamed(e.name, n, TypeOf(e.value), e.body);
            && WellTyped(body, g.Bind(n, TypeOf(e.value))) && TypeOf(body) == TypeOf(e) && Printable(body, s)
            && Safe(body, w, env.Set(n, v)) && Eval(body, w, env.Set(n, v)) == Eval(e, w, env)
  {
    var t := TypeOf(e.value);
    PrintableSource(e.body, s);
    PrintableType(e.value, s);
    var g1, g', env1, env' := g.Bind(e.name, t), g.Bind(n, t), env.Set(e.name, v), env.Set(n, v);
    assert Renames(e.name, n, t, g1, g', env1, env');
    SubstituteTyped(e.name, n, t, e.body, g1, g', env1, env');
    SubstituteMeans(e.name, n, t, e.body, g1, g', w, env1, env');
    SubstitutePrintable(e.name, Var(t, n), e.body, s);
  }

  // ---------- the if_then_else intrinsic ----------

  lemma {:induction false} ProgramNext(prog: seq<Instr>, p: Printed, t: Type, temps: seq<Atom>)
    requires ProgramIn(prog, |temps|)
    ensures PrintProgram(prog, p, t, temps).next >= p.next
  {
    if prog != [] {
      RestOfProgram(prog, |temps|);
      var q := PrintInstr(prog[0], p, t, temps);
      ProgramNext(prog[1..], q, t, temps + [q.atom]);
    }
  }

  lemma DivNext(p: Printed, t: Type, a: Atom, b: Atom)
    ensures PrintDiv(p, t, a, b).next >= p.next
  {
    DivisionIn();
    ProgramNext(DIVISION, p, t, [a, b]);
  }

  /** Fresh names are never given back. */
  lemma {:induction false} NextGrows(e: Expr, allocs: Allocations, cache: Cache, next: nat)
    ensures Print(e, allocs, cache, next).next >= next
    decreases Weight(e), 1
  {
    match e
    case Imm(_, _) =>
    case Var(_, _) =>
    case Cast(_, value) => NextGrows(value, allocs, cache, next);
    case Bin(_, _, _, _) => BinNext(e, allocs, cache, next);
    case Not(a) => NextGrows(a, allocs, cache, next);
    case Select(c, tv, fv) =>
      var x := Print(tv, allocs, cache, next);
      var y := Then(x, Print(fv, allocs, x.cache, x.next));
      NextGrows(tv, allocs, cache, next);
      NextGrows(fv, allocs, x.cache, x.next);
      NextGrows(c, allocs, y.cache, y.next);
    case Load(_, _, index) => NextGrows(index, allocs, cache, next);
    case Call(_, _, _, _, _) => CallNext(e, allocs, cache, next);
    case Let(name, value, body) =>
      var p := Print(value, allocs, cache, next);
      var repl := Var(TypeOf(value), AtomText(p.atom));
      SubstituteWeight(name, repl, body);
      NextGrows(value, allocs, cache, next);
      NextGrows(Substitute(name, repl, body), allocs, p.cache, p.next);
    case Ramp(_, _, _) =>
    case Broadcast(_, _) =>
  }

  lemma {:induction false} BinNext(e: Expr, allocs: Allocations, cache: Cache, next: nat)
    requires e.Bin?
    ensures Print(e, allocs, cache, next).next >= next
    decreases Weight(e), 0
  {
    var op, t, a, b := e.op, e.t, e.a, e.b;
    var p := Print(a, allocs, cache, next);
    NextGrows(a, allocs, cache, next);
    if !(IsDivision(op) && PowerOfTwo(b).Some?) {
      var q := Then(p, Print(b, allocs, p.cache, p.next));
      NextGrows(b, allocs, p.cache, p.next);
      if op.Mod? && t.IsInt() {
        var r := Step(q, t, Infix(Rem, p.atom, q.atom));
        ModWeight(t, r.atom, a, b);
        NextGrows(ModExpr(t, r.atom, b), allocs, r.cache, r.next);
        ModNext(e, allocs, cache, next);
      } else {
        if op.Div? && t.IsInt() { DivNext(q, t, p.atom, q.atom); }
        OperationNext(e, allocs, cache, next);
      }
    }
  }

  lemma ModUnfolds(e: Expr, allocs: Allocations, cache: Cache, next: nat)
    requires e.Bin? && e.op.Mod? && e.t.signed && PowerOfTwo(e.b).None?
    ensures var p := Print(e.a, allocs, cache, next);
            var q := Then(p, Print(e.b, allocs, p.cache, p.next));
            var r := Step(q, e.t, Infix(Rem, p.atom, q.atom));
            Print(e, allocs, cache, next) == Then(r, Print(ModExpr(e.t, r.atom, e.b), allocs, r.cache, r.next))
  {}

  lemma StepNext(q: Printed, t: Type, rhs: Rhs)
    ensures Step(q, t, rhs).next >= q.next
  {}

  lemma ModNext(e: Expr, allocs: Allocations, cache: Cache, next: nat)
    requires e.Bin? && e.op.Mod? && e.t.signed && PowerOfTwo(e.b).None?
    ensures var p := Print(e.a, allocs, cache, next);
            var q := Then(p, Print(e.b, allocs, p.cache, p.next));
            var r := Step(q, e.t, Infix(Rem, p.atom, q.atom));
            Print(e, allocs, cache, next).next == Print(ModExpr(e.t, r.atom, e.b), allocs, r.cache, r.next).next && r.next >= q.next
  {
    ModUnfolds(e, allocs, cache, next);
    var p := Print(e.a, allocs, cache, next);
    var q := Then(p, Print(e.b, allocs, p.cache, p.next));
    StepNext(q, e.t, Infix(Rem, p.atom, q.atom));
  }

  lemma OperationNext(e: Expr, allocs: Allocations, cache: Cache, next: nat)
    requires e.Bin? && !(IsDivision(e.op) && PowerOfTwo(e.b).Some?) && !(e.op.Mod? && e.t.signed)
    ensures var p := Print(e.a, allocs, cache, next);
            var q := Then(p, Print(e.b, allocs, p.cache, p.next));
            (e.op.Div? && e.t.IsInt() ==> Print(e, allocs, cache, next) == PrintDiv(q, e.t, p.atom, q.atom))
            && (!(e.op.Div? && e.t.IsInt()) ==> Print(e, allocs, cache, next).next >= q.next)
  {}

  lemma {:induction false} CallNext(e: Expr, allocs: Allocations, cache: Cache, next: nat)
    requires e.Call?
    ensures Print(e, allocs, cache, next).next >= next
    decreases Weight(e), 0
  {
    if e.kind.Abs? && |e.args| == 1 {
      assert e.args == [e.args[0]];
      AbsWeight(e.t, e.args[0]);
      assert Weight(e) == Weight(Call(Abs, e.t, "abs", 0, [e.args[0]]));
      NextGrows(AbsExpr(e.t, e.args[0]), allocs, cache, next);
    } else if e.kind.IfThenElse? && |e.args| == 3 {
      WeightAt(e.args, 0);
      WeightAt(e.args, 1);
      WeightAt(e.args, 2);
      var k := Print(e.args[0], allocs, cache, next + 1);
      var x := Print(e.args[1], allocs, map[], k.next);
      NextGrows(e.args[0], allocs, cache, next + 1);
      NextGrows(e.args[1], allocs, map[], k.next);
      NextGrows(e.args[2], allocs, map[], x.next);
    } else {
      ArgsNext(e.args, allocs, cache, next);
    }
  }

  lemma {:induction false} ArgsNext(es: seq<Expr>, allocs: Allocations, cache: Cache, next: nat)
    ensures PrintArgs(es, allocs, cache, next).1.next >= next
    decreases Weights(es), 2 + |es|
  {
    if es != [] {
      var p := Print(es[0], allocs, cache, next);
      NextGrows(es[0], allocs, cache, next);
      ArgsNext(es[1..], allocs, p.cache, p.next);
    }
  }

  /** Declaring the result variable disturbs nothing. */
  lemma Declared(t: Type, g: Context, env: Env, cache: Cache, next: nat, f: Frame, m: Memory, cm: Memory, s: Setup)
    requires Surroundings(g, env, cache, next, f, m, cm, s) && CType(t)
    ensures var f0 := f.Define(Generated(next), t, 0);
            Surroundings(g, env, cache, next + 1, f0, m, cm, s) && Extends(f, f0)
  {
    var f0 := f.Define(Generated(next), t, 0);
    FrameGrows(next, f, t, 0);
    CacheKept(cache, f, f0, cm, s);
    ExtendsIsLater(f, f0);
    KnownLater(g, env, f, f0);
  }

  /** A branch sets the result variable; all else that it declares is gone when it is left. */
  lemma BranchRuns(arm: Printed, result: string, t: Type, v: int, next: nat, fk: Frame, fa: Frame, m: Memory, s: Setup)
    requires Yields(arm, t, v, next, fk, fa, m, s) && result in fk.decl && fk.decl[result] == t && InRange(t, v)
    requires FrameOk(next, fk) && CType(t)
    ensures var (f', m') := Exec(arm.code + [Assign(result, arm.atom)], fk, m, s.call);
            m' == m && f'.Leave(fk) == Frame(fk.decl, fk.vals[result := v])
  {
    ExecSum(arm.code, [Assign(result, arm.atom)], fk, m, s.call);
    ExecSingle(Assign(result, arm.atom), fa, m, s.call);
    AssignLeaves(arm.atom, result, t, v, fk, fa);
  }

  lemma AssignLeaves(a: Atom, result: string, t: Type, v: int, fk: Frame, fa: Frame)
    requires Extends(fk, fa) && Has(fa, a, t, v) && InRange(t, v) && CType(t) && fk.decl.Keys == fk.vals.Keys
    requires result in fk.decl && fk.decl[result] == t
    ensures fa.Define(result, fa.TypeFor(result), AtomValue(a, fa)).Leave(fk) == Frame(fk.decl, fk.vals[result := v])
  {
    RangeIsStored(t, v);
    assert fa.Define(result, t, v).Leave(fk).vals == fk.vals[result := v];
  }

  /** After the if the result holds the value, and the frame is otherwise that of before. */
  lemma ResultFrame(result: string, t: Type, v: int, next: nat, last: nat, f: Frame, fk: Frame, m: Memory, s: Setup)
    requires FrameOk(next, f) && result == Generated(next) && Extends(f, fk) && FrameOk(last, fk)
    requires result in fk.decl && fk.decl[result] == t && InRange(t, v)
    ensures var f3 := Frame(fk.decl, fk.vals[result := v]);
            Extends(f, f3) && State(map[], last, f3, m, s) && Has(f3, Id(result), t, v)
  {}

  function IfCode(e: Expr, allocs: Allocations, cache: Cache, next: nat): Printed
    requires e.Call? && |e.args| == 3
  {
    var result := Generated(next);
    var k := Print(e.args[0], allocs, cache, next + 1);
    var x := Print(e.args[1], allocs, map[], k.next);
    var y := Print(e.args[2], allocs, map[], x.next);
    Printed(Id(result), map[], y.next,
      [Declare(TypeOf(e.args[1]), result)] + k.code + [If(k.atom, x.code + [Assign(result, x.atom)], y.code + [Assign(result, y.atom)])])
  }

  lemma {:induction false} IfSim(e: Expr, g: Context, env: Env, cache: Cache, next: nat, f: Frame, m: Memory,
      cm: Memory, s: Setup) returns (f1: Frame)
    requires e.Call? && e.kind.IfThenElse? && |e.args| == 3 && Ready(e, g, env, cache, next, f, m, cm, s)
    ensures Yields(Print(e, s.allocs, cache, next), TypeOf(e), Eval(e, World(m, s.call), env), next, f, f1, cm, s)
    decreases Weight(e), 1
  {
    var w, t := World(m, s.call), e.t;
    var p := IfCode(e, s.allocs, cache, next);
    var v := Eval(e, w, env);
    TypeSound(e, g, w, env);
    var f3 := IfRuns(e, g, env, cache, next, f, m, cm, s);
    f1 := CopyYields(p, t, Id(Generated(next)), v, next, f, f3, cm, s);
  }

  lemma {:induction false} IfRuns(e: Expr, g: Context, env: Env, cache: Cache, next: nat, f: Frame, m: Memory,
      cm: Memory, s: Setup) returns (f3: Frame)
    requires e.Call? && e.kind.IfThenElse? && |e.args| == 3 && Ready(e, g, env, cache, next, f, m, cm, s)
    ensures Reaches(IfCode(e, s.allocs, cache, next), next, f, f3, cm, s)
    ensures Has(f3, Id(Generated(next)), e.t, Eval(e, World(m, s.call), env))
    decreases Weight(e), 0
  {
    var w, t, args := World(m, s.call), e.t, e.args;
    var result := Generated(next);
    var f0 := f.Define(result, t, 0);
    WeightAt(args, 0);
    WeightAt(args, 1);
    WeightAt(args, 2);
    WellTypedArg(args, g, t.lanes, 0);
    PrintableAt(args, s, 0);
    Declared(t, g, env, cache, next, f, m, cm, s);
    var k := Print(args[0], s.allocs, cache, next + 1);
    var fk := PrintSim(args[0], g, env, cache, next + 1, f0, m, cm, s);
    Onward(k, TypeOf(args[0]), Eval(args[0], w, env), g, env, cache, next + 1, f0, fk, m, cm, s);
    f3 := ArmRuns(e, k, g, env, next, f, f0, fk, m, cm, s);
    var x := Print(args[1], s.allocs, map[], k.next);
    NextGrows(args[1], s.allocs, map[], k.next);
    NextGrows(args[2], s.allocs, map[], x.next);
    var y := Print(args[2], s.allocs, map[], x.next);
    TypeSound(e, g, w, env);
    ExtendsTrans(f, f0, fk);
    ResultFrame(result, t, Eval(e, w, env), next, y.next, f, fk, cm, s);
  }

  /** The code of the intrinsic, run through the declaration, the condition and one arm. */
  lemma {:induction false} ArmRuns(e: Expr, k: Printed, g: Context, env: Env, next: nat, f: Frame, f0: Frame,
      fk: Frame, m: Memory, cm: Memory, s: Setup) returns (f3: Frame)
    requires e.Call? && e.kind.IfThenElse? && |e.args| == 3
    requires WellTyped(e, g) && e.t.lanes == 1 && Printable(e, s) && Safe(e, World(m, s.call), env)
    requires f0 == f.Define(Generated(next), e.t, 0) && Extends(f0, fk)
    requires Exec(k.code, f0, cm, s.call) == (fk, cm)
    requires Has(fk, k.atom, TypeOf(e.args[0]), Eval(e.args[0], World(m, s.call), env))
    requires Surroundings(g, env, map[], k.next, fk, m, cm, s)
    ensures var x := Print(e.args[1], s.allocs, map[], k.next);
            var y := Print(e.args[2], s.allocs, map[], x.next);
            var result := Generated(next);
            var branch := If(k.atom, x.code + [Assign(result, x.atom)], y.code + [Assign(result, y.atom)]);
            Exec([Declare(e.t, result)] + k.code + [branch], f, cm, s.call) == (f3, cm)
    ensures f3 == Frame(fk.decl, fk.vals[Generated(next) := Eval(e, World(m, s.call), env)])
    decreases Weight(e), 0, 0
  {
    var w, t, args, result := World(m, s.call), e.t, e.args, Generated(next);
    var x := Print(args[1], s.allocs, map[], k.next);
    var y := Print(args[2], s.allocs, map[], x.next);
    var branch := If(k.atom, x.code + [Assign(result, x.atom)], y.code + [Assign(result, y.atom)]);
    f3 := Frame(fk.decl, fk.vals[result := Eval(e, w, env)]);
    TakenRuns(e, k, x, y, g, env, next, fk, m, cm, s);
    ThreeParts(Declare(t, result), k.code, branch, f, f0, fk, f3, cm, s);
  }

  lemma {:induction false} TakenRuns(e: Expr, k: Printed, x: Printed, y: Printed, g: Context, env: Env, next: nat,
      fk: Frame, m: Memory, cm: Memory, s: Setup)
    requires e.Call? && e.kind.IfThenElse? && |e.args| == 3
    requires x == Print(e.args[1], s.allocs, map[], k.next) && y == Print(e.args[2], s.allocs, map[], x.next)
    requires WellTyped(e, g) && e.t.lanes == 1 && Printable(e, s) && Safe(e, World(m, s.call), env)
    requires Has(fk, k.atom, TypeOf(e.args[0]), Eval(e.args[0], World(m, s.call), env))
    requires Generated(next) in fk.decl && fk.decl[Generated(next)] == e.t
    requires Surroundings(g, env, map[], k.next, fk, m, cm, s)
    ensures var result := Generated(next);
            var branch := If(k.atom, x.code + [Assign(result, x.atom)], y.code + [Assign(result, y.atom)]);
            ExecOne(branch, fk, cm, s.call) == (Frame(fk.decl, fk.vals[result := Eval(e, World(m, s.call), env)]), cm)
    decreases Weight(e), 0, 0, 0
  {
    var w, args := World(m, s.call), e.args;
    IfValue(e, w, env);
    SafeArms(e, w, env);
    if Eval(args[0], w, env) != 0 {
      ArmSim(e, 1, k.next, g, env, next, k.next, fk, m, cm, s);
    } else {
      NextGrows(args[1], s.allocs, map[], k.next);
      ArmSim(e, 2, x.next, g, env, next, k.next, fk, m, cm, s);
    }
  }

  lemma SafeArms(e: Expr, w: World, env: Env)
    requires e.Call? && e.kind.IfThenElse? && |e.args| == 3 && Safe(e, w, env)
    ensures Safe(e.args[if Eval(e.args[0], w, env) != 0 then 1 else 2], w, env)
  {}

  /** The arm taken, printed from the name counter that its place gives it. */
  lemma {:induction false} ArmSim(e: Expr, arm: nat, start: nat, g: Context, env: Env, next: nat, knext: nat,
      fk: Frame, m: Memory, cm: Memory, s: Setup)
    requires e.Call? && e.kind.IfThenElse? && |e.args| == 3 && WellTyped(e, g) && e.t.lanes == 1 && Printable(e, s)
    requires 1 <= arm <= 2 && start >= knext && Safe(e.args[arm], World(m, s.call), env)
    requires Eval(e, World(m, s.call), env) == Eval(e.args[arm], World(m, s.call), env)
    requires Generated(next) in fk.decl && fk.decl[Generated(next)] == e.t
    requires Surroundings(g, env, map[], knext, fk, m, cm, s)
    ensures var x, result := Print(e.args[arm], s.allocs, map[], start), Generated(next);
            var (f', m') := Exec(x.code + [Assign(result, x.atom)], fk, cm, s.call);
            m' == cm && f'.Leave(fk) == Frame(fk.decl, fk.vals[result := Eval(e, World(m, s.call), env)])
    decreases Weight(e), 0, 0, 0, 0
  {
    var t, v := e.t, Eval(e, World(m, s.call), env);
    ArmTyped(e, arm, g, World(m, s.call), env, s);
    var fa := PrintSim(e.args[arm], g, env, map[], start, fk, m, cm, s);
    BranchRuns(Print(e.args[arm], s.allocs, map[], start), Generated(next), t, v, start, fk, fa, cm, s);
  }

  lemma ArmTyped(e: Expr, arm: nat, g: Context, w: World, env: Env, s: Setup)
    requires e.Call? && e.kind.IfThenElse? && |e.args| == 3 && WellTyped(e, g) && e.t.lanes == 1 && Printable(e, s)
    requires 1 <= arm <= 2
    ensures InRange(e.t, Eval(e, w, env)) && WellTyped(e.args[arm], g) && TypeOf(e.args[arm]) == e.t
    ensures Printable(e.args[arm], s) && Weight(e.args[arm]) < Weight(e)
  {
    TypeSound(e, g, w, env);
    WellTypedArg(e.args, g, e.t.lanes, arm);
    PrintableAt(e.args, s, arm);
    WeightAt(e.args, arm);
  }

  lemma IfValue(e: Expr, w: World, env: Env)
    requires e.Call? && e.kind.IfThenElse? && |e.args| == 3
    ensures Eval(e, w, env) == if Eval(e.args[0], w, env) != 0 then Eval(e.args[1], w, env) else Eval(e.args[2], w, env)
  {}

  lemma ThreeParts(first: Code, middle: seq<Code>, last: Code, f: Frame, f0: Frame, fk: Frame, f3: Frame, m: Memory,
      s: Setup)
    requires ExecOne(first, f, m, s.call) == (f0, m) && Exec(middle, f0, m, s.call) == (fk, m)
    requires ExecOne(last, fk, m, s.call) == (f3, m)
    ensures Exec([first] + middle + [last], f, m, s.call) == (f3, m)
  {
    ExecSum([first] + middle, [last], f, m, s.call);
    ExecSum([first], middle, f, m, s.call);
    ExecSingle(first, f, m, s.call);
    ExecSingle(last, fk, m, s.call);
  }
}
