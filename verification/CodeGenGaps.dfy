/** Where the emitted C is not what the program means: for each such branch exactly when it
    is, and an input where it is not. */
module CodeGenGaps {
  import opened IR
  import opened Text
  import opened TwosComplement
  import opened CodeGenC
  import opened CodeGenMeaning
  import opened CodeGenSim
  import opened CodeGenTheorem

  // ---------- masks ----------

  /** The mask gives the remainder by 2^k of every value of the type. */
  ghost predicate MaskRight(t: Type, k: nat, m: int) {
    forall x :: InRange(t, x) ==> Op(t, BAnd, x, m) == Wrap(t, x % Pow2(k))
  }

  lemma SmallMod(x: int, n: int)
    requires 0 <= x < n
    ensures x % n == x
  {
    DivModIs(x, n, 0, x);
  }

  lemma AtLeastTwo(k: nat)
    requires k > 0
    ensures Pow2(k) >= 2
  {}

  /** Whatever int the undefined shift leaves, the mask is right if and only if the shift is
      defined: the divisor is below 2^31. */
  lemma MaskMustFit(t: Type, k: nat)
    requires t.bits >= 32 && k <= t.bits
    ensures (forall m :: IsIntMask(k, m) ==> MaskRight(t, k, m)) <==> k < 31
  {
    if k < 31 {
      forall m | IsIntMask(k, m) ensures MaskRight(t, k, m) {
        forall x | InRange(t, x) ensures Op(t, BAnd, x, m) == Wrap(t, x % Pow2(k)) { MaskIsMod(t.bits, x, k); }
      }
    } else {
      ZeroFits();
      AndNothing(t.bits, 1);
      AtLeastTwo(k);
      SmallMod(1, Pow2(k));
      assert InRange(t, 1) && Op(t, BAnd, 1, 0) == 0 && Wrap(t, 1 % Pow2(k)) == 1;
      assert IsIntMask(k, 0) && !MaskRight(t, k, 0);
    }
  }

  lemma {:induction false} AndBit(n: nat, k: nat, m: int)
    requires k < n
    ensures BitAnd(n, Pow2(k), m) == if (m / Pow2(k)) % 2 == 1 then Pow2(k) else 0
  {
    if k == 0 {
      AndNothing(n - 1, m / 2);
      AndSwaps(n - 1, 0, m / 2);
      assert 1 / 2 == 0;
    } else {
      var p := Pow2(k - 1);
      AndBit(n - 1, k - 1, m / 2);
      HalfOfQuotient(m, p);
    }
  }

  lemma HalfOfQuotient(m: int, p: int)
    requires p > 0
    ensures m / (2 * p) == (m / 2) / p
  {
    var h, b := m / 2, m % 2;
    var k, r := h / p, h % p;
    assert m == 2 * (k * p + r) + b;
    assert m == (2 * p) * k + (2 * r + b) by { assert 2 * (k * p) == (2 * p) * k; }
    DivModIs(m, 2 * p, k, 2 * r + b);
  }

  /** From 2^32 on no int at all is the right mask: one of two powers of two is masked wrongly. */
  lemma NoIntMasks(t: Type, k: nat, m: int)
    requires t == Int(64) && 32 <= k < 63 && Fits(31, m)
    ensures !MaskRight(t, k, m)
  {
    MorePower(31, k);
    if m < 0 { NegativeMask(k, m); } else { SmallMask(k, m); }
    var x := if m < 0 then Pow2(k) else Pow2(31);
    assert Op(t, BAnd, x, m) != Wrap(t, x % Pow2(k));
  }

  lemma NegativeMask(k: nat, m: int)
    requires k < 63 && 0 - Pow2(k) <= m < 0
    ensures BitAnd(64, Pow2(k), m) == Pow2(k) && Pow2(k) % Pow2(k) == 0
  {
    AndBit(64, k, m);
    DivModIs(m, Pow2(k), -1, m + Pow2(k));
    DivModIs(Pow2(k), Pow2(k), 1, 0);
  }

  lemma SmallMask(k: nat, m: int)
    requires 0 <= m < Pow2(31) < Pow2(k)
    ensures BitAnd(64, Pow2(31), m) == 0 && Pow2(31) % Pow2(k) == Pow2(31)
  {
    AndBit(64, 31, m);
    DivModIs(m, Pow2(31), 0, m);
    SmallMod(Pow2(31), Pow2(k));
  }

  lemma {:induction false} MorePower(j: nat, k: nat)
    requires j < k
    ensures Pow2(j) < Pow2(k)
  {
    if j + 1 < k { MorePower(j, k - 1); }
  }

  function X(t: Type): Expr { Var(t, "x") }

  lemma XPrints(t: Type, allocs: Allocations)
    ensures Print(X(t), allocs, map[], 0) == Printed(Id("_x"), map[], 0, [])
  {
    var none := "";
    assert "x"[1..] == none && MangleChars(none) == "";
    assert MangleChars("x") == "x" && PrintName("x") == "_x";
    assert "_x"[0] == '_' && !IsNumeral("_x");
  }

  function FirstName(): string { Generated(0) }

  /** The remainder of 64 bits by 2^32 is emitted as a mask that is wrong, whatever int the
      undefined shift leaves. */
  lemma WideRemainder(allocs: Allocations, k: nat)
    requires 32 <= k < 63
    ensures Print(Bin(Mod, Int(64), X(Int(64)), Imm(Int(64), Pow2(k))), allocs, map[], 0).code
         == [Define(Int(64), FirstName(), Infix(BAnd, Id("_x"), Lit(IntMask(k))))]
    ensures forall m :: IsIntMask(k, m) ==> !MaskRight(Int(64), k, m)
  {
    Log2OfPower(k);
    XPrints(Int(64), allocs);
    var masked := [Define(Int(64), FirstName(), Infix(BAnd, Id("_x"), Lit(IntMask(k))))];
    assert [] + masked == masked;
    forall m | IsIntMask(k, m) ensures !MaskRight(Int(64), k, m) { NoIntMasks(Int(64), k, m); }
  }

  lemma {:induction false} Log2OfPower(k: nat)
    ensures Log2(Pow2(k)) == Some(k)
  {
    if k > 0 {
      Log2OfPower(k - 1);
      assert Pow2(k) % 2 == 0 && Pow2(k) / 2 == Pow2(k - 1);
    }
  }

  // ---------- powers of two behind casts ----------

  /** Shifting by k is division by the constant if and only if that is 2^k. */
  lemma ShiftIsQuotient(t: Type, k: nat, v: int)
    requires InRange(t, v) && v != 0
    ensures (forall x :: InRange(t, x) ==> ShiftRight(x, k) == x / v) <==> v == Pow2(k)
  {
    var p: int := Pow2(k);
    if v != p {
      DivModIs(v, v, 1, 0);
      if ShiftRight(v, k) == 1 {
        assert v == p + v % p;
        DivModIs(p, p, 1, 0);
        DivModIs(p, v, 0, p);
        assert InRange(t, p) && ShiftRight(p, k) != p / v;
      } else {
        assert ShiftRight(v, k) != v / v;
      }
    }
  }

  lemma NotZeroWrapped(t: Type, r: int)
    requires 0 < r < Pow2(t.bits)
    ensures Wrap(t, r) != 0
  {
    if !InRange(t, r) {
      assert t.Narrow() && t.signed && Pow2(t.bits) == 2 * Pow2(t.bits - 1);
      assert Modulus(t) == Pow2(t.bits);
      DivModIs(r - MinOf(t), Modulus(t), 1, r - MinOf(t) - Modulus(t));
    }
  }

  /** Masking is the remainder by the constant if and only if its magnitude is 2^k. */
  lemma MaskIsRemainder(t: Type, k: nat, v: int)
    requires InRange(t, v) && v != 0 && k <= t.bits && k < 31 && AbsInt(v) < Pow2(t.bits)
    ensures (forall x :: InRange(t, x) ==> Op(t, BAnd, x, IntMask(k)) == Apply(Mod, t, x, v)) <==> AbsInt(v) == Pow2(k)
  {
    var p: int := Pow2(k);
    forall x ensures Op(t, BAnd, x, IntMask(k)) == Wrap(t, x % p) { MaskIsMod(t.bits, x, k); }
    if v == -p { forall x ensures x % v == x % p { ModNegated(x, p); } }
    if AbsInt(v) != p {
      if v % p != 0 {
        DivModIs(v, v, 1, 0);
        PowersGrow(k, t.bits);
        NotZeroWrapped(t, v % p);
        assert Op(t, BAnd, v, IntMask(k)) != Apply(Mod, t, v, v);
      } else {
        Multiple(p, v);
        DivModIs(p, p, 1, 0);
        DivModIs(p, v, 0, p);
        assert InRange(t, p) && Op(t, BAnd, p, IntMask(k)) != Apply(Mod, t, p, v);
      }
    }
  }

  lemma {:induction false} PowersGrow(j: nat, k: nat)
    requires j <= k
    ensures Pow2(j) <= Pow2(k)
  {
    if j < k { MorePower(j, k); }
  }

  lemma Multiple(p: int, v: int)
    requires p > 0 && v != 0 && v % p == 0 && AbsInt(v) != p
    ensures AbsInt(v) >= 2 * p
  {
    var q := v / p;
    assert v == p * q;
    assert q != 1 && q != -1 && q != 0;
    if q >= 2 { assert p * q >= p * 2; }
    if q <= -2 { assert p * q <= p * -2; }
  }

  function Wrapped128(): Expr { Cast(Int(8), Imm(Int(32), 128)) }

  lemma PowersTo8()
    ensures Pow2(7) == 128 && Pow2(8) == 256
  {
    assert Pow2(3) == 8 && Pow2(7) == 16 * Pow2(3);
  }

  /** 128 wraps to -128 in eight bits, but is shifted by: -1 / -128 is 1, and -1 >> 7 is -1. */
  lemma WrappedPowerShifts(allocs: Allocations)
    ensures ConstOf(Wrapped128()) == -128 && PowerOfTwo(Wrapped128()) == Some(7)
    ensures Print(Bin(Div, Int(8), X(Int(8)), Wrapped128()), allocs, map[], 0).code
         == [Define(Int(8), FirstName(), Infix(Shr, Id("_x"), Lit(7)))]
    ensures Apply(Div, Int(8), -1, -128) == 1 && Op(Int(8), Shr, -1, 7) == -1
  {
    PowersTo8();
    Log2OfPower(7);
    XPrints(Int(8), allocs);
    assert Wrap(Int(8), 128) == -128;
    DivModIs(-1, -128, 1, 127);
    DivModIs(-1, 128, -1, 127);
    var shifted := [Define(Int(8), FirstName(), Infix(Shr, Id("_x"), Lit(7)))];
    assert [] + shifted == shifted;
  }

  // ---------- bools ----------

  function Holding(t: Type, v: int): Frame { Frame(map["_x" := t], map["_x" := v]) }

  /** cast<bool>(x) is 0 for x = 2, and the emitted (bool)(_x) is 1. */
  lemma BoolCastAtTwo(allocs: Allocations, m: Memory, call: Functions, env: Env)
    requires env.Get("x") == 2
    ensures var e := Cast(Bool(1), X(Int(32)));
            && Eval(e, World(m, call), env) == 0
            && Exec(Print(e, allocs, map[], 0).code, Holding(Int(32), 2), m, call).0.Get(FirstName()) == 1
  {
    XPrints(Int(32), allocs);
    BoolWraps(2);
    var code := Define(Bool(1), FirstName(), CastTo(Bool(1), Id("_x")));
    assert [] + [code] == [code];
    ExecSingle(code, Holding(Int(32), 2), m, call);
  }

  /** A sum of two true bools wraps to 0, and is stored as 1. */
  lemma BoolSumOfOnes()
    ensures Apply(Add, Bool(1), 1, 1) == 0 && Convert(Bool(1), 1 + 1) == 1
  {
    BoolWraps(2);
  }

  // ---------- lets ----------

  /** The variable put in place of a let's is read as the text of the value if and only if
      that is no negative literal. */
  lemma LetTextReads(a: Atom, t: Type, allocs: Allocations, cache: Cache, next: nat)
    requires a.Id? ==> Plainly(a.name) && !IsNumeral(a.name)
    ensures Print(Var(t, AtomText(a)), allocs, cache, next).atom == a <==> (a.Lit? ==> a.v >= 0)
  {
    if a.Lit? { LiteralsReadBack(a.v); } else { IdsReadBack(a.name); }
  }

  lemma MinusFive()
    ensures AtomText(Lit(-5)) == "-5"
    ensures PrintName("-5") == "___5" && "___5"[0] == '_' && !IsNumeral("___5")
  {
    var five := "-5";
    assert Digits(5) == "5";
    assert AtomText(Lit(-5)) == "-" + "5" == five;
    var rest, none := "5", "";
    assert five[1..] == rest && rest[1..] == none && MangleChars(none) == "";
    assert MangleChars(rest) == "5" && MangleChars(five) == "___" + "5";
  }

  function NegativeLet(): Expr { Let("x", Imm(Int(32), -5), Bin(Add, Int(32), X(Int(32)), Imm(Int(32), 1))) }

  /** let x = -5 in x + 1 reads a variable that nothing declares. */
  lemma NegativeLetReads(allocs: Allocations)
    ensures Print(NegativeLet(), allocs, map[], 0).code == [Define(Int(32), FirstName(), Infix(Plus, Id("___5"), Lit(1)))]
  {
    var five := "-5";
    MinusFive();
    var repl := Var(Int(32), five);
    assert Substitute("x", repl, Bin(Add, Int(32), X(Int(32)), Imm(Int(32), 1))) == Bin(Add, Int(32), repl, Imm(Int(32), 1));
    assert Print(repl, allocs, map[], 0) == Printed(Id("___5"), map[], 0, []);
  }
}
