/** The emitted C computes what the expressions mean, and at every point each remembered
    right-hand side still evaluates to the variable it is remembered as. */
module CodeGenSim {
  import opened IR
  import opened Trees
  import opened Text
  import opened TwosComplement
  import opened CodeGenC
  import opened CodeGenMeaning

  // ---------- names ----------

  /** A name that printing leaves as it is. */
  predicate Plainly(s: string) {
    && (s != [] ==> !IsAlpha(s[0]))
    && forall i :: 0 <= i < |s| ==> s[i] == '_' || IsAlpha(s[i]) || IsDigit(s[i])
  }

  lemma {:induction false} PlainChars(s: string)
    requires forall i :: 0 <= i < |s| ==> s[i] == '_' || IsAlpha(s[i]) || IsDigit(s[i])
    ensures MangleChars(s) == s
  {
    if s != [] { PlainChars(s[1..]); }
  }

  lemma PlainPrints(s: string)
    requires Plainly(s)
    ensures PrintName(s) == s
  {
    PlainChars(s);
  }

  lemma {:induction false} MangledIsPlain(s: string)
    ensures forall i :: 0 <= i < |MangleChars(s)| ==>
      MangleChars(s)[i] == '_' || IsAlpha(MangleChars(s)[i]) || IsDigit(MangleChars(s)[i])
    ensures s != [] && !IsAlpha(s[0]) ==> MangleChars(s) != [] && !IsAlpha(MangleChars(s)[0])
  {
    if s != [] {
      MangledIsPlain(s[1..]);
      var head, rest := MangleChar(s[0]), MangleChars(s[1..]);
      assert MangleChars(s) == head + rest;
      assert forall i :: 0 <= i < |head| ==> head[i] == '_' || IsAlpha(head[i]) || IsDigit(head[i]);
    }
  }

  /** Printing a name twice changes nothing more. */
  lemma PrintedIsPlain(s: string)
    ensures Plainly(PrintName(s)) && PrintName(PrintName(s)) == PrintName(s)
  {
    MangledIsPlain(s);
    PlainPrints(PrintName(s));
  }

  lemma GeneratedIsPlain(k: nat)
    ensures Plainly(Generated(k)) && PrintName(Generated(k)) == Generated(k) && !IsNumeral(Generated(k))
  {
    DigitsParse(k);
    PlainPrints(Generated(k));
    assert Generated(k)[0] == '_';
  }

  lemma GeneratedOnce(j: nat, k: nat)
    requires Generated(j) == Generated(k)
    ensures j == k
  {
    assert Generated(j)[1..] == Digits(j) && Generated(k)[1..] == Digits(k);
    DigitsParse(j);
    DigitsParse(k);
  }

  /** The text of an atom, read back as a variable's name, is the atom. */
  predicate ReadsBack(a: Atom) { ReadName(PrintName(AtomText(a))) == a }

  lemma IdsReadBack(s: string)
    requires Plainly(s) && !IsNumeral(s)
    ensures ReadsBack(Id(s)) && PrintName(s) == s
  {
    PlainPrints(s);
  }

  /** A literal reads back exactly when it is not negative: the minus sign is mangled away. */
  lemma LiteralsReadBack(v: int)
    ensures ReadsBack(Lit(v)) <==> v >= 0
  {
    if v >= 0 {
      DigitsParse(v);
      PlainPrints(Digits(v));
    } else {
      var s := AtomText(Lit(v));
      assert s[0] == '-' && s[1..] == Digits(-v);
      assert MangleChars(s) == "___" + MangleChars(s[1..]);
      assert PrintName(s)[0] == '_';
    }
  }

  /** What printing a variable leaves reads back. */
  lemma VariablesReadBack(name: string)
    ensures ReadsBack(ReadName(PrintName(name)))
  {
    var s := PrintName(name);
    PrintedIsPlain(name);
    if IsNumeral(s) {
      LiteralsReadBack(Parse(s));
    } else {
      IdsReadBack(s);
    }
  }

  // ---------- frames ----------

  /** What the emitted code runs against. */
  datatype Setup = Setup(allocs: Allocations, arrays: map<string, Type>, protos: map<string, Type>, bufs: set<string>, call: Functions)

  ghost predicate FrameOk(next: nat, f: Frame) {
    && f.decl.Keys == f.vals.Keys
    && (forall k :: k >= next ==> Generated(k) !in f.decl)
    && forall id :: id in f.decl ==> InRange(f.decl[id], f.vals[id]) && Plainly(id) && !IsNumeral(id)
  }

  predicate AtomIn(a: Atom, f: Frame) { a.Id? ==> a.name in f.decl }

  predicate RhsIn(rhs: Rhs, f: Frame) {
    match rhs
    case Copy(a) => AtomIn(a, f)
    case CastTo(_, a) => AtomIn(a, f)
    case Infix(_, a, b) => AtomIn(a, f) && AtomIn(b, f)
    case BNot(a) => AtomIn(a, f)
    case LNot(a) => AtomIn(a, f)
    case Ternary(_, c, x, y) => AtomIn(c, f) && AtomIn(x, f) && AtomIn(y, f)
    case Index(_, _, a) => AtomIn(a, f)
    case Apply1(_, args) => forall i :: 0 <= i < |args| ==> AtomIn(args[i], f)
  }

  /** The cached name still holds what the right-hand side evaluates to. */
  ghost predicate Holds(rhs: Rhs, id: string, f: Frame, m: Memory, s: Setup) {
    && RhsIn(rhs, f) && id in f.decl && id in f.vals
    && f.decl[id] == RhsType(rhs, f, s.arrays, s.protos)
    && f.vals[id] == Convert(f.decl[id], RhsValue(rhs, f.decl[id], f, m, s.call))
  }

  ghost predicate CacheOk(cache: Cache, f: Frame, m: Memory, s: Setup) {
    forall rhs :: rhs in cache ==> Holds(rhs, cache[rhs], f, m, s)
  }

  ghost predicate State(cache: Cache, next: nat, f: Frame, m: Memory, s: Setup) {
    FrameOk(next, f) && CacheOk(cache, f, m, s)
  }

  /** Nothing declared before has changed, and only generated names are new. */
  ghost predicate Extends(f: Frame, f': Frame) {
    && (forall id :: id in f.decl ==> id in f'.decl && f'.decl[id] == f.decl[id])
    && (forall id :: id in f.vals ==> id in f'.vals && f'.vals[id] == f.vals[id])
    && forall id :: id in f'.decl && id !in f.decl ==> IsGenerated(id)
  }

  ghost predicate IsGenerated(id: string) { exists k :: id == Generated(k) }

  lemma ExtendsTrans(f: Frame, f': Frame, f'': Frame)
    requires Extends(f, f') && Extends(f', f'')
    ensures Extends(f, f'')
  {}

  lemma AtomKept(a: Atom, f: Frame, f': Frame)
    requires Extends(f, f') && AtomIn(a, f) && f.decl.Keys == f.vals.Keys
    ensures AtomIn(a, f') && AtomValue(a, f') == AtomValue(a, f) && AtomType(a, f') == AtomType(a, f)
  {}

  lemma {:induction false} AtomsKept(args: seq<Atom>, f: Frame, f': Frame)
    requires Extends(f, f') && f.decl.Keys == f.vals.Keys && forall i :: 0 <= i < |args| ==> AtomIn(args[i], f)
    ensures AtomValues(args, f') == AtomValues(args, f)
  {
    if args != [] {
      AtomKept(args[0], f, f');
      AtomsKept(args[1..], f, f');
    }
  }

  lemma RhsKept(rhs: Rhs, t: Type, f: Frame, f': Frame, m: Memory, s: Setup)
    requires Extends(f, f') && RhsIn(rhs, f) && f.decl.Keys == f.vals.Keys
    ensures RhsIn(rhs, f') && RhsType(rhs, f', s.arrays, s.protos) == RhsType(rhs, f, s.arrays, s.protos)
    ensures RhsValue(rhs, t, f', m, s.call) == RhsValue(rhs, t, f, m, s.call)
  {
    if rhs.Apply1? { AtomsKept(rhs.args, f, f'); }
  }

  lemma CacheKept(cache: Cache, f: Frame, f': Frame, m: Memory, s: Setup)
    requires CacheOk(cache, f, m, s) && Extends(f, f') && f.decl.Keys == f.vals.Keys
    ensures CacheOk(cache, f', m, s)
  {
    forall rhs | rhs in cache ensures Holds(rhs, cache[rhs], f', m, s) {
      assert Holds(rhs, cache[rhs], f, m, s);
      RhsKept(rhs, f.decl[cache[rhs]], f, f', m, s);
    }
  }

  // ---------- emitted expressions ----------

  lemma {:induction false} ExecSum(a: seq<Code>, b: seq<Code>, f: Frame, m: Memory, call: Functions)
    ensures Exec(a + b, f, m, call) == Exec(b, Exec(a, f, m, call).0, Exec(a, f, m, call).1, call)
    decreases a
  {
    if a == [] {
      assert a + b == b;
    } else {
      assert (a + b)[1..] == a[1..] + b;
      var (f', m') := ExecOne(a[0], f, m, call);
      ExecSum(a[1..], b, f', m', call);
    }
  }

  lemma ExecSingle(c: Code, f: Frame, m: Memory, call: Functions)
    ensures Exec([c], f, m, call) == ExecOne(c, f, m, call)
  {
    assert [c][1..] == [];
  }

  /** The printed code runs from frame f to frame f1.  It leaves memory alone and declares
      only fresh names, and after it the cache is right. */
  ghost predicate Reaches(p: Printed, next: nat, f: Frame, f1: Frame, m: Memory, s: Setup) {
    && Exec(p.code, f, m, s.call) == (f1, m) && p.next >= next
    && Extends(f, f1) && State(p.cache, p.next, f1, m, s)
  }

  /** In the frame the atom has this type and value. */
  predicate Has(f: Frame, a: Atom, t: Type, v: int) { AtomIn(a, f) && AtomType(a, f) == t && AtomValue(a, f) == v }

  /** What one frame has, a later one has too. */
  ghost predicate Later(f: Frame, f1: Frame) { forall a, t, v :: Has(f, a, t, v) ==> Has(f1, a, t, v) }

  /** The printed expression has this type and value where its code ends. */
  ghost predicate Yields(p: Printed, t: Type, v: int, next: nat, f: Frame, f1: Frame, m: Memory, s: Setup) {
    Reaches(p, next, f, f1, m, s) && Has(f1, p.atom, t, v) && Later(f, f1)
  }

  lemma ExtendsIsLater(f: Frame, f1: Frame)
    requires Extends(f, f1) && f.decl.Keys == f.vals.Keys
    ensures Later(f, f1)
  {
    forall a, t, v | Has(f, a, t, v) ensures Has(f1, a, t, v) { AtomKept(a, f, f1); }
  }

  lemma ThenYields(p: Printed, q: Printed, t: Type, v: int, next: nat, f: Frame, f1: Frame, f2: Frame, m: Memory,
      s: Setup)
    requires Reaches(p, next, f, f1, m, s) && Yields(q, t, v, p.next, f1, f2, m, s) && f.decl.Keys == f.vals.Keys
    ensures Yields(Then(p, q), t, v, next, f, f2, m, s)
  {
    ExecSum(p.code, q.code, f, m, s.call);
    ExtendsTrans(f, f1, f2);
    ExtendsIsLater(f, f2);
  }

  lemma NothingYields(a: Atom, t: Type, v: int, cache: Cache, next: nat, f: Frame, m: Memory, s: Setup)
    requires State(cache, next, f, m, s) && Has(f, a, t, v)
    ensures Yields(Printed(a, cache, next, []), t, v, next, f, f, m, s)
  {}

  /** A right-hand side is assigned to a fresh variable or found in the cache; either way
      the variable holds its value. */
  lemma AssignmentYields(t: Type, rhs: Rhs, cache: Cache, next: nat, f: Frame, m: Memory, s: Setup) returns (f1: Frame)
    requires State(cache, next, f, m, s) && RhsIn(rhs, f) && RhsType(rhs, f, s.arrays, s.protos) == t && CType(t)
    ensures Yields(PrintAssignment(t, rhs, cache, next), t, Convert(t, RhsValue(rhs, t, f, m, s.call)), next, f, f1, m, s)
  {
    if rhs in cache {
      assert Holds(rhs, cache[rhs], f, m, s);
      f1 := f;
      NothingYields(Id(cache[rhs]), t, Convert(t, RhsValue(rhs, t, f, m, s.call)), cache, next, f, m, s);
    } else {
      f1 := NewAssignment(t, rhs, cache, next, f, m, s);
    }
  }

  lemma FrameGrows(next: nat, f: Frame, t: Type, v: int)
    requires FrameOk(next, f) && CType(t)
    ensures FrameOk(next + 1, f.Define(Generated(next), t, v)) && Extends(f, f.Define(Generated(next), t, v))
  {
    GeneratedIsPlain(next);
    ConvertedInRange(t, v);
    forall k | k >= next + 1 ensures Generated(k) != Generated(next) {
      if Generated(k) == Generated(next) { GeneratedOnce(k, next); }
    }
    assert IsGenerated(Generated(next));
  }

  lemma NewAssignment(t: Type, rhs: Rhs, cache: Cache, next: nat, f: Frame, m: Memory, s: Setup) returns (f1: Frame)
    requires State(cache, next, f, m, s) && RhsIn(rhs, f) && RhsType(rhs, f, s.arrays, s.protos) == t && rhs !in cache
    requires CType(t)
    ensures Yields(PrintAssignment(t, rhs, cache, next), t, Convert(t, RhsValue(rhs, t, f, m, s.call)), next, f, f1, m, s)
  {
    var id := Generated(next);
    f1 := f.Define(id, t, RhsValue(rhs, t, f, m, s.call));
    FrameGrows(next, f, t, RhsValue(rhs, t, f, m, s.call));
    ExecSingle(Define(t, id, rhs), f, m, s.call);
    CacheKept(cache, f, f1, m, s);
    RhsKept(rhs, t, f, f1, m, s);
    assert Holds(rhs, id, f1, m, s);
    ExtendsIsLater(f, f1);
  }

  /** One more assignment, over atoms already printed. */
  lemma StepYields(p: Printed, t: Type, rhs: Rhs, v: int, next: nat, f: Frame, f1: Frame, m: Memory,
      s: Setup) returns (f2: Frame)
    requires Reaches(p, next, f, f1, m, s) && f.decl.Keys == f.vals.Keys
    requires RhsIn(rhs, f1) && RhsType(rhs, f1, s.arrays, s.protos) == t && CType(t)
    requires v == Convert(t, RhsValue(rhs, t, f1, m, s.call))
    ensures Yields(Step(p, t, rhs), t, v, next, f, f2, m, s) && Later(f1, f2)
  {
    f2 := AssignmentYields(t, rhs, p.cache, p.next, f1, m, s);
    ThenYields(p, PrintAssignment(t, rhs, p.cache, p.next), t, v, next, f, f1, f2, m, s);
  }

  /** The value of an operation, converted to the type. */
  function Op(t: Type, op: Operator, x: int, y: int): int { Wrap(t, InfixValue(op, t, x, y)) }

  lemma InfixYields(p: Printed, t: Type, op: Operator, a: Atom, b: Atom, x: int, y: int, tb: Type, next: nat,
      f: Frame, f1: Frame, m: Memory, s: Setup) returns (f2: Frame)
    requires Reaches(p, next, f, f1, m, s) && f.decl.Keys == f.vals.Keys
    requires Has(f1, a, t, x) && Has(f1, b, tb, y) && !op.Compare? && !op.Logic?
    requires CType(t) && Stored(t, InfixValue(op, t, x, y))
    ensures Yields(Step(p, t, Infix(op, a, b)), t, Op(t, op, x, y), next, f, f2, m, s) && Later(f1, f2)
  {
    StoredIsWrapped(t, InfixValue(op, t, x, y));
    f2 := StepYields(p, t, Infix(op, a, b), Op(t, op, x, y), next, f, f1, m, s);
  }

  lemma ImmYields(t: Type, v: int, cache: Cache, next: nat, f: Frame, m: Memory, s: Setup) returns (f1: Frame)
    requires State(cache, next, f, m, s) && InRange(t, v) && CType(t)
    ensures Yields(PrintImm(t, v, cache, next), t, v, next, f, f1, m, s)
  {
    RangeIsStored(t, v);
    if t == Int(32) {
      f1 := f;
      NothingYields(Lit(v), t, v, cache, next, f, m, s);
    } else {
      f1 := AssignmentYields(t, CastTo(t, Lit(v)), cache, next, f, m, s);
    }
  }

  // ---------- lowered division ----------

  predicate InType(t: Type, x: int) { InRange(t, x) && Fits(t.bits - 1, x) }

  lemma WidthFits(n: nat)
    ensures n < Pow2(n)
  {
    if n > 0 { WidthFits(n - 1); }
  }

  /** The corrected quotient, with every intermediate result converted to the type. */
  function ChainFrom(t: Type, q: int, r: int, y: int): int {
    MaskedValue(t, q, Op(t, Shr, r, t.bits - 1), Op(t, Shr, y, t.bits - 1))
  }

  function MaskedValue(t: Type, q: int, rs: int, bs: int): int {
    Op(t, Plus, Op(t, Minus, q, Op(t, BAnd, rs, bs)), Op(t, BAnd, rs, Wrap(t, BitNot(bs))))
  }

  function Chain(t: Type, x: int, y: int): int {
    var q := Op(t, Quot, x, y);
    ChainFrom(t, q, Op(t, Minus, x, Op(t, Times, q, y)), y)
  }

  lemma SmallInRange(t: Type)
    requires t.signed
    ensures InRange(t, 0) && InRange(t, -1)
  {}

  lemma MasksWrap(t: Type, q: int, rs: int, bs: int)
    requires t.signed && InRange(t, q) && (rs == 0 || rs == -1) && (bs == 0 || bs == -1)
    ensures MaskedValue(t, q, rs, bs) == Wrap(t, q + if rs == 0 then 0 else if bs == -1 then 1 else -1)
  {
    SmallInRange(t);
    MaskPair(t.bits, rs, bs);
    MaskPair(t.bits, rs, BitNot(bs));
    assert Wrap(t, BitNot(bs)) == BitNot(bs);
    assert Op(t, BAnd, rs, bs) == if rs == -1 && bs == -1 then -1 else 0;
    assert Op(t, BAnd, rs, BitNot(bs)) == if rs == -1 && bs == 0 then -1 else 0;
  }

  lemma BetweenFits(t: Type, x: int, r: int)
    requires t.signed && InType(t, x) && (0 <= r <= x || x <= r <= 0)
    ensures InType(t, r)
  {}

  lemma SignWrap(t: Type, x: int)
    requires t.signed && InType(t, x)
    ensures Op(t, Shr, x, t.bits - 1) == if x < 0 then -1 else 0
  {
    SignMask(t.bits - 1, x);
    SmallInRange(t);
  }

  lemma QuotientFits(t: Type, x: int, y: int)
    requires t.signed && InType(t, x) && InType(t, y) && y != 0
    ensures InRange(t, TruncDiv(x, y)) || (t.Narrow() && x == MinOf(t) && y == -1)
  {
    var a, b := AbsInt(x), AbsInt(y);
    QuotientShrinks(a, b, a / b);
  }

  lemma QuotientShrinks(a: int, b: int, q: int)
    requires a >= 0 && b > 0 && q == a / b
    ensures 0 <= q <= a && (b >= 2 ==> 2 * q <= a)
  {
    assert a == b * q + a % b;
    ScaleUp(b, q);
  }

  lemma ScaleUp(b: int, q: int)
    requires b >= 1
    ensures q >= 0 ==> b * q >= q
    ensures q >= 0 && b >= 2 ==> b * q >= 2 * q
    ensures q < 0 ==> b * q <= q
  {}

  lemma OpIs(t: Type, op: Operator, x: int, y: int)
    ensures op.Minus? ==> Op(t, op, x, y) == Wrap(t, x - y)
    ensures op.Times? ==> Op(t, op, x, y) == Wrap(t, x * y)
    ensures op.Quot? && y != 0 ==> Op(t, op, x, y) == Wrap(t, TruncDiv(x, y))
  {}

  /** Whatever wraps on the way, the result is the Euclidean quotient in the type. */
  lemma ChainIsDiv(t: Type, x: int, y: int)
    requires t.signed && InType(t, x) && InType(t, y) && y != 0
    ensures Chain(t, x, y) == Wrap(t, x / y)
  {
    var q, r := TruncDiv(x, y), TruncMod(x, y);
    TruncRemainder(x, y);
    QuotientFits(t, x, y);
    OpIs(t, Quot, x, y);
    if InRange(t, q) {
      BetweenFits(t, x, x - r);
      BetweenFits(t, x, r);
      assert q * y == x - r;
      OpIs(t, Times, q, y);
      OpIs(t, Minus, x, x - r);
      ChainFromIs(t, q, r, y);
      EuclidFromTrunc(x, y, q, r);
    } else {
      ChainAtMin(t, x, y);
    }
  }

  lemma ChainFromIs(t: Type, q: int, r: int, y: int)
    requires t.signed && InRange(t, q) && InType(t, r) && InType(t, y)
    ensures ChainFrom(t, q, r, y) == Wrap(t, q + if r >= 0 then 0 else if y < 0 then 1 else -1)
  {
    SignWrap(t, r);
    SignWrap(t, y);
    MasksWrap(t, q, if r < 0 then -1 else 0, if y < 0 then -1 else 0);
  }

  /** The one quotient that does not fit: the smallest number divided by -1 wraps to itself. */
  lemma ChainAtMin(t: Type, x: int, y: int)
    requires t.signed && t.Narrow() && x == MinOf(t) && y == -1 && InType(t, x) && InType(t, y)
    ensures Chain(t, x, y) == Wrap(t, x / y)
  {
    var p: int := Pow2(t.bits - 1);
    assert Pow2(t.bits) == 2 * p && Modulus(t) == 2 * p && x == -p;
    DivModIs(x, y, p, 0);
    DivModIs(AbsInt(x), 1, p, 0);
    assert TruncDiv(x, y) == p;
    DivModIs(2 * p, 2 * p, 1, 0);
    assert Wrap(t, p) == x;
    assert x * y == p;
    OpIs(t, Quot, x, y);
    OpIs(t, Times, x, y);
    OpIs(t, Minus, x, x);
    SmallInRange(t);
    BetweenFits(t, x, 0);
    ChainFromIs(t, x, 0, y);
  }

  /** The value of an instruction, and those of a program, after the values so far. */
  function InstrValue(i: Instr, t: Type, vs: seq<int>): int
    requires InstrIn(i, |vs|)
  {
    match i
    case Infix2(op, x, y) => Op(t, op, vs[x], vs[y])
    case Invert(x) => Wrap(t, BitNot(vs[x]))
    case Width => t.bits - 1
  }

  function RunProgram(prog: seq<Instr>, t: Type, vs: seq<int>): (rs: seq<int>)
    requires ProgramIn(prog, |vs|)
    ensures |rs| == |vs| + |prog|
  {
    if prog == [] then vs
    else
      RestOfProgram(prog, |vs|);
      RunProgram(prog[1..], t, vs + [InstrValue(prog[0], t, vs)])
  }

  /** The first value a program adds is that of its first instruction, and it keeps it. */
  lemma {:induction false} RunKeeps(prog: seq<Instr>, t: Type, vs: seq<int>)
    requires ProgramIn(prog, |vs|)
    ensures RunProgram(prog, t, vs)[..|vs|] == vs
  {
    if prog != [] {
      RestOfProgram(prog, |vs|);
      var vs' := vs + [InstrValue(prog[0], t, vs)];
      RunKeeps(prog[1..], t, vs');
      assert RunProgram(prog, t, vs)[..|vs|] == RunProgram(prog, t, vs)[..|vs'|][..|vs|];
    }
  }

  /** Every value is that of its instruction, over the values before it. */
  lemma {:induction false} RunAt(prog: seq<Instr>, t: Type, vs: seq<int>, k: nat)
    requires ProgramIn(prog, |vs|) && k < |prog|
    ensures var rs := RunProgram(prog, t, vs);
            InstrIn(prog[k], |vs| + k) && rs[|vs| + k] == InstrValue(prog[k], t, rs[..|vs| + k])
  {
    RestOfProgram(prog, |vs|);
    assert forall j :: 0 <= j < |prog[1..]| ==> prog[1..][j] == prog[j + 1];
    var vs' := vs + [InstrValue(prog[0], t, vs)];
    if k == 0 {
      RunKeeps(prog, t, vs);
      RunKeeps(prog[1..], t, vs');
      assert RunProgram(prog, t, vs)[|vs|] == RunProgram(prog, t, vs)[..|vs'|][|vs|];
    } else {
      RunAt(prog[1..], t, vs', k - 1);
    }
  }

  /** No comparison, whose result would be of another type. */
  predicate Arithmetic(i: Instr) { i.Infix2? ==> !i.op.Compare? && !i.op.Logic? }

  predicate NoTests(prog: seq<Instr>) { forall k :: 0 <= k < |prog| ==> Arithmetic(prog[k]) }

  ghost predicate AllHave(f: Frame, temps: seq<Atom>, t: Type, vs: seq<int>) {
    |temps| == |vs| && forall k :: 0 <= k < |temps| ==> Has(f, temps[k], t, vs[k])
  }

  lemma HaveMore(f: Frame, f1: Frame, temps: seq<Atom>, t: Type, vs: seq<int>, a: Atom, v: int)
    requires AllHave(f, temps, t, vs) && Later(f, f1) && Has(f1, a, t, v)
    ensures AllHave(f1, temps + [a], t, vs + [v])
  {}

  lemma PlainRest(prog: seq<Instr>)
    requires NoTests(prog) && prog != []
    ensures Arithmetic(prog[0]) && NoTests(prog[1..])
  {
    assert forall k :: 0 <= k < |prog[1..]| ==> prog[1..][k] == prog[k + 1];
  }

  lemma DivisionPlain()
    ensures NoTests(DIVISION) && |DIVISION| == 11
  {}

  lemma InstrYields(i: Instr, p: Printed, t: Type, temps: seq<Atom>, vs: seq<int>, next: nat, f: Frame, f1: Frame,
      m: Memory, s: Setup) returns (f2: Frame)
    requires Reaches(p, next, f, f1, m, s) && f.decl.Keys == f.vals.Keys && AllHave(f1, temps, t, vs)
    requires InstrIn(i, |temps|)
    requires t.signed && t.lanes == 1 && CType(t) && Arithmetic(i)
    ensures Yields(PrintInstr(i, p, t, temps), t, InstrValue(i, t, vs), next, f, f2, m, s) && Later(f1, f2)
  {
    match i
    case Infix2(op, x, y) =>
      f2 := InfixYields(p, t, op, temps[x], temps[y], vs[x], vs[y], t, next, f, f1, m, s);
    case Invert(x) => f2 := NotYields(p, t, temps[x], vs[x], next, f, f1, m, s);
    case Width =>
      WidthInRange(t);
      f2 := ImmYields(t, t.bits - 1, p.cache, p.next, f1, m, s);
      ThenYields(p, PrintImm(t, t.bits - 1, p.cache, p.next), t, t.bits - 1, next, f, f1, f2, m, s);
  }

  /** A printed program computes the values of its instructions. */
  lemma {:induction false} ProgramYields(prog: seq<Instr>, p: Printed, t: Type, temps: seq<Atom>, vs: seq<int>,
      next: nat, f: Frame, f1: Frame, m: Memory, s: Setup) returns (f2: Frame)
    requires ProgramIn(prog, |temps|) && AllHave(f1, temps, t, vs) && t.signed && t.lanes == 1 && CType(t)
    requires NoTests(prog)
    requires Reaches(p, next, f, f1, m, s) && f.decl.Keys == f.vals.Keys && temps != [] && p.atom == temps[|temps| - 1]
    ensures var rs := RunProgram(prog, t, vs); Yields(PrintProgram(prog, p, t, temps), t, rs[|rs| - 1], next, f, f2, m, s)
  {
    if prog == [] {
      f2 := f1;
      ExtendsIsLater(f, f1);
    } else {
      RestOfProgram(prog, |temps|);
      var q, v := PrintInstr(prog[0], p, t, temps), InstrValue(prog[0], t, vs);
      var fq := InstrYields(prog[0], p, t, temps, vs, next, f, f1, m, s);
      HaveMore(f1, fq, temps, t, vs, q.atom, v);
      PlainRest(prog);
      f2 := ProgramYields(prog[1..], q, t, temps + [q.atom], vs + [v], next, f, fq, m, s);
    }
  }

  /** The lowered division is the corrected truncated one. */
  lemma DivisionValue(t: Type, x: int, y: int)
    ensures ProgramIn(DIVISION, 2)
    ensures RunProgram(DIVISION, t, [x, y])[12] == Chain(t, x, y)
  {
    DivisionIn();
    var rs := RunProgram(DIVISION, t, [x, y]);
    RunKeeps(DIVISION, t, [x, y]);
    assert rs[0] == rs[..2][0] == x && rs[1] == rs[..2][1] == y;
    RunAt(DIVISION, t, [x, y], 0);
    RunAt(DIVISION, t, [x, y], 1);
    RunAt(DIVISION, t, [x, y], 2);
    RunAt(DIVISION, t, [x, y], 3);
    RunAt(DIVISION, t, [x, y], 4);
    RunAt(DIVISION, t, [x, y], 5);
    RunAt(DIVISION, t, [x, y], 6);
    RunAt(DIVISION, t, [x, y], 7);
    RunAt(DIVISION, t, [x, y], 8);
    RunAt(DIVISION, t, [x, y], 9);
    RunAt(DIVISION, t, [x, y], 10);
  }

  lemma DivYields(p: Printed, t: Type, a: Atom, b: Atom, x: int, y: int, next: nat, f: Frame, f1: Frame, m: Memory,
      s: Setup) returns (f2: Frame)
    requires Reaches(p, next, f, f1, m, s) && f.decl.Keys == f.vals.Keys && Has(f1, a, t, x) && Has(f1, b, t, y)
    requires p.atom == b && t.signed && t.lanes == 1 && CType(t) && InType(t, x) && InType(t, y) && y != 0
    ensures Yields(PrintDiv(p, t, a, b), t, Wrap(t, x / y), next, f, f2, m, s)
  {
    f2 := DivisionYields(p, t, a, b, x, y, next, f, f1, m, s);
    ChainIsDiv(t, x, y);
  }

  lemma DivisionYields(p: Printed, t: Type, a: Atom, b: Atom, x: int, y: int, next: nat, f: Frame, f1: Frame,
      m: Memory, s: Setup) returns (f2: Frame)
    requires Reaches(p, next, f, f1, m, s) && f.decl.Keys == f.vals.Keys && Has(f1, a, t, x) && Has(f1, b, t, y)
    requires p.atom == b && t.signed && t.lanes == 1 && CType(t)
    ensures Yields(PrintDiv(p, t, a, b), t, Chain(t, x, y), next, f, f2, m, s)
  {
    DivisionIn();
    DivisionPlain();
    var temps, vs := [a, b], [x, y];
    assert AllHave(f1, temps, t, vs);
    var prog := DIVISION;
    f2 := ProgramYields(prog, p, t, temps, vs, next, f, f1, m, s);
    DivisionValue(t, x, y);
  }

  lemma NotYields(p: Printed, t: Type, a: Atom, x: int, next: nat, f: Frame, f1: Frame, m: Memory,
      s: Setup) returns (f2: Frame)
    requires Reaches(p, next, f, f1, m, s) && f.decl.Keys == f.vals.Keys && Has(f1, a, t, x) && t.signed && CType(t)
    ensures Yields(Step(p, t, BNot(a)), t, Wrap(t, BitNot(x)), next, f, f2, m, s) && Later(f1, f2)
  {
    f2 := StepYields(p, t, BNot(a), Wrap(t, BitNot(x)), next, f, f1, m, s);
  }

  /** A shift by the width less one is a literal of the type. */
  lemma WidthInRange(t: Type)
    requires t.signed
    ensures InRange(t, t.bits - 1)
  {
    if t.bits > 1 { WidthFits(t.bits - 1); }
  }
}
