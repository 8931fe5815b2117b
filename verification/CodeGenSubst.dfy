/** Substituting the printed value for a let variable changes neither type nor value. */
module CodeGenSubst {
  import opened IR
  import opened Trees
  import opened TwosComplement
  import opened CodeGenC
  import opened CodeGenMeaning
  import opened CodeGenSim

  /** A name as the front end makes them: printing changes it. */
  predicate SourceName(n: string) { PrintName(n) != n }

  /** A negative literal of type Int(32), perhaps under lets. */
  predicate PrintsNegative(e: Expr) {
    match e
    case Imm(t, v) => t == Int(32) && v < 0
    case Let(_, _, body) => PrintsNegative(body)
    case _ => false
  }

  /** The power of two found behind the divisor's casts is the divisor; for a remainder its
      magnitude will do, but the mask must be one that a C int can hold. */
  predicate PowerIsRight(op: BinOp, t: Type, b: Expr)
    requires PowerOfTwo(b).Some?
  {
    var k := PowerOfTwo(b).value;
    && k < t.bits
    && (op.Div? ==> ConstOf(b) == Pow2(k))
    && (op.Mod? ==> AbsInt(ConstOf(b)) == Pow2(k) && k < 31)
  }

  predicate CallPrintable(e: Expr, s: Setup)
    requires e.Call?
  {
    || (e.kind.Abs? && |e.args| == 1)
    || (e.kind.IfThenElse? && |e.args| == 3)
    || (e.kind.PureExtern? && e.valueIndex == 0 && e.name in s.protos && s.protos[e.name] == e.t && e.name != "min" && e.name != "max")
  }

  /** C declares the array with the type it was allocated with. */
  predicate ArrayKnown(name: string, s: Setup) {
    name in s.bufs && (name in s.allocs ==> PrintName(name) in s.arrays && s.arrays[PrintName(name)] == s.allocs[name])
  }

  /** What can be emitted as C: pure scalar code of types that C has, whose divisors are found
      right, whose let values do not print as negative literals, and whose lets are named
      apart. */
  predicate Printable(e: Expr, s: Setup)
    decreases e
  {
    match e
    case Imm(t, _) => CType(t)
    case Var(t, _) => CType(t)
    case Cast(t, value) => CType(t) && Printable(value, s)
    case Bin(op, t, a, b) =>
      && CType(t) && Printable(a, s) && Printable(b, s)
      && (IsDivision(op) && PowerOfTwo(b).Some? ==> PowerIsRight(op, t, b))
    case Not(a) => Printable(a, s)
    case Select(c, tv, fv) => Printable(c, s) && Printable(tv, s) && Printable(fv, s)
    case Load(t, name, index) => CType(t) && ArrayKnown(name, s) && Printable(index, s)
    case Ramp(_, _, _) => false
    case Broadcast(_, _) => false
    case Call(_, t, _, _, args) => CType(t) && CallPrintable(e, s) && PrintableArgs(args, s)
    case Let(name, value, body) =>
      && Printable(value, s) && Printable(body, s)
      && !PrintsNegative(value) && SourceName(name) && name !in LetNames(body)
  }

  predicate PrintableArgs(es: seq<Expr>, s: Setup)
    decreases es
  {
    es == [] || (Printable(es[0], s) && PrintableArgs(es[1..], s))
  }

  lemma {:induction false} PrintableType(e: Expr, s: Setup)
    requires Printable(e, s)
    ensures CType(TypeOf(e))
    decreases e
  {
    match e
    case Not(a) => PrintableType(a, s);
    case Select(_, tv, _) => PrintableType(tv, s);
    case Let(_, _, body) => PrintableType(body, s);
    case _ =>
  }

  lemma {:induction false} PrintableAt(es: seq<Expr>, s: Setup, i: nat)
    requires PrintableArgs(es, s) && i < |es|
    ensures Printable(es[i], s)
  {
    if i > 0 { PrintableAt(es[1..], s, i - 1); }
  }

  /** No division by zero, the operands of a division are values of their type, and what is
      assigned to a bool is zero or odd.  Of an if_then_else only the branch taken is
      evaluated. */
  predicate Safe(e: Expr, w: World, env: Env)
    decreases e
  {
    match e
    case Imm(_, _) => true
    case Var(_, _) => true
    case Cast(t, value) => Safe(value, w, env) && Stored(t, Eval(value, w, env))
    case Bin(op, t, a, b) =>
      && Safe(a, w, env) && Safe(b, w, env)
      && (op.Add? ==> Stored(t, Eval(a, w, env) + Eval(b, w, env)))
      && (IsDivision(op) && t.signed && PowerOfTwo(b).None? ==>
            Eval(b, w, env) != 0 && Fits(t.bits - 1, Eval(a, w, env)) && Fits(t.bits - 1, Eval(b, w, env)))
    case Not(a) => Safe(a, w, env)
    case Select(c, tv, fv) => Safe(c, w, env) && Safe(tv, w, env) && Safe(fv, w, env)
    case Load(t, name, index) => Safe(index, w, env) && Stored(t, w.load(name, Eval(index, w, env)))
    case Ramp(base, stride, _) => Safe(base, w, env) && Safe(stride, w, env)
    case Broadcast(value, _) => Safe(value, w, env)
    case Call(kind, t, name, idx, args) =>
      if kind.IfThenElse? && |args| == 3 then
        Safe(args[0], w, env) && (if Eval(args[0], w, env) != 0 then Safe(args[1], w, env) else Safe(args[2], w, env))
      else SafeArgs(args, w, env) && (kind.PureExtern? ==> Stored(t, w.call(kind, name, idx, EvalArgs(args, w, env))))
    case Let(name, value, body) => Safe(value, w, env) && Safe(body, w, env.Set(name, Eval(value, w, env)))
  }

  predicate SafeArgs(es: seq<Expr>, w: World, env: Env)
    decreases es
  {
    es == [] || (Safe(es[0], w, env) && SafeArgs(es[1..], w, env))
  }

  lemma {:induction false} PrintableSource(e: Expr, s: Setup)
    requires Printable(e, s)
    ensures forall n :: n in LetNames(e) ==> SourceName(n)
    decreases e
  {
    match e
    case Imm(_, _) =>
    case Var(_, _) =>
    case Cast(_, value) => PrintableSource(value, s);
    case Bin(_, _, a, b) => PrintableSource(a, s); PrintableSource(b, s);
    case Not(a) => PrintableSource(a, s);
    case Select(c, tv, fv) => PrintableSource(c, s); PrintableSource(tv, s); PrintableSource(fv, s);
    case Load(_, _, index) => PrintableSource(index, s);
    case Call(_, _, _, _, args) => PrintableSources(args, s);
    case Let(_, value, body) => PrintableSource(value, s); PrintableSource(body, s);
  }

  lemma {:induction false} PrintableSources(es: seq<Expr>, s: Setup)
    requires PrintableArgs(es, s)
    ensures forall n :: n in LetNamesOf(es) ==> SourceName(n)
    decreases es
  {
    if es != [] {
      PrintableSource(es[0], s);
      PrintableSources(es[1..], s);
    }
  }

  // ---------- weakening ----------

  ghost predicate Weaker(g: Context, g': Context) {
    g.funcs == g'.funcs && forall x :: x in g.vars ==> x in g'.vars && g'.vars[x] == g.vars[x]
  }

  lemma {:induction false} Weaken(e: Expr, g: Context, g': Context)
    requires WellTyped(e, g) && Weaker(g, g')
    ensures WellTyped(e, g')
    decreases e
  {
    match e
    case Imm(_, _) =>
    case Var(_, _) =>
    case Cast(_, value) => Weaken(value, g, g');
    case Bin(_, _, a, b) => Weaken(a, g, g'); Weaken(b, g, g');
    case Not(a) => Weaken(a, g, g');
    case Select(c, tv, fv) => Weaken(c, g, g'); Weaken(tv, g, g'); Weaken(fv, g, g');
    case Load(_, _, index) => Weaken(index, g, g');
    case Ramp(base, stride, _) => Weaken(base, g, g'); Weaken(stride, g, g');
    case Broadcast(value, _) => Weaken(value, g, g');
    case Call(_, t, _, _, args) => WeakenArgs(args, g, g', t.lanes);
    case Let(name, value, body) =>
      Weaken(value, g, g');
      Weaken(body, g.Bind(name, TypeOf(value)), g'.Bind(name, TypeOf(value)));
  }

  lemma {:induction false} WeakenArgs(es: seq<Expr>, g: Context, g': Context, lanes: nat)
    requires WellTypedArgs(es, g, lanes) && Weaker(g, g')
    ensures WellTypedArgs(es, g', lanes)
    decreases es
  {
    if es != [] {
      Weaken(es[0], g, g');
      WeakenArgs(es[1..], g, g', lanes);
    }
  }

  ghost predicate SameOn(g: Context, env: Env, env': Env) {
    env.lane == env'.lane && forall x :: x in g.vars ==> env.Get(x) == env'.Get(x)
  }

  lemma SameValueOn(e: Expr, g: Context, w: World, env: Env, env': Env)
    requires WellTyped(e, g) && SameOn(g, env, env')
    ensures Eval(e, w, env) == Eval(e, w, env')
  {
    TypeSound(e, g, w, env);
    EvalAgree(e, w, env, env');
  }

  lemma {:induction false} SafeAgrees(e: Expr, g: Context, w: World, env: Env, env': Env)
    requires WellTyped(e, g) && SameOn(g, env, env') && Safe(e, w, env)
    ensures Safe(e, w, env')
    decreases e, 1
  {
    match e
    case Imm(_, _) =>
    case Var(_, _) =>
    case Cast(_, value) => SafeAgrees(value, g, w, env, env'); SameValueOn(value, g, w, env, env');
    case Bin(_, _, a, b) =>
      SafeAgrees(a, g, w, env, env');
      SafeAgrees(b, g, w, env, env');
      SameValueOn(a, g, w, env, env');
      SameValueOn(b, g, w, env, env');
    case Not(a) => SafeAgrees(a, g, w, env, env');
    case Select(c, tv, fv) =>
      SafeAgrees(c, g, w, env, env'); SafeAgrees(tv, g, w, env, env'); SafeAgrees(fv, g, w, env, env');
    case Load(_, _, index) => SafeAgrees(index, g, w, env, env'); SameValueOn(index, g, w, env, env');
    case Ramp(base, stride, _) => SafeAgrees(base, g, w, env, env'); SafeAgrees(stride, g, w, env, env');
    case Broadcast(value, _) => SafeAgrees(value, g, w, env, env');
    case Call(_, _, _, _, _) => SafeCallAgrees(e, g, w, env, env');
    case Let(name, value, body) =>
      SafeAgrees(value, g, w, env, env');
      SameValueOn(value, g, w, env, env');
      var v := Eval(value, w, env);
      SafeAgrees(body, g.Bind(name, TypeOf(value)), w, env.Set(name, v), env'.Set(name, v));
  }

  lemma {:induction false} SafeCallAgrees(e: Expr, g: Context, w: World, env: Env, env': Env)
    requires e.Call? && WellTyped(e, g) && SameOn(g, env, env') && Safe(e, w, env)
    ensures Safe(e, w, env')
    decreases e, 0
  {
    var args, lanes := e.args, e.t.lanes;
    if e.kind.IfThenElse? && |args| == 3 {
      var arm := if Eval(args[0], w, env) != 0 then 1 else 2;
      WellTypedArg(args, g, lanes, 0);
      WellTypedArg(args, g, lanes, arm);
      SafeAgrees(args[0], g, w, env, env');
      SafeAgrees(args[arm], g, w, env, env');
      SameValueOn(args[0], g, w, env, env');
    } else {
      SafeArgsAgree(args, g, lanes, w, env, env');
      SameArgsOn(args, g, lanes, w, env, env');
    }
  }

  lemma {:induction false} SameArgsOn(es: seq<Expr>, g: Context, lanes: nat, w: World, env: Env, env': Env)
    requires WellTypedArgs(es, g, lanes) && SameOn(g, env, env')
    ensures EvalArgs(es, w, env) == EvalArgs(es, w, env')
  {
    if es != [] {
      SameValueOn(es[0], g, w, env, env');
      SameArgsOn(es[1..], g, lanes, w, env, env');
    }
  }

  lemma {:induction false} SafeArgsAgree(es: seq<Expr>, g: Context, lanes: nat, w: World, env: Env, env': Env)
    requires WellTypedArgs(es, g, lanes) && SameOn(g, env, env') && SafeArgs(es, w, env)
    ensures SafeArgs(es, w, env')
    decreases es
  {
    if es != [] {
      SafeAgrees(es[0], g, w, env, env');
      SafeArgsAgree(es[1..], g, lanes, w, env, env');
    }
  }

  // ---------- substitution ----------

  /** The variable n is, in g' and env', what `name` is in g and env; all else is the same. */
  ghost predicate Renames(name: string, n: string, t: Type, g: Context, g': Context, env: Env, env': Env) {
    && g.funcs == g'.funcs && env.lane == env'.lane && t.lanes >= 1 && CType(t)
    && name in g.vars && g.vars[name] == t && n in g'.vars && g'.vars[n] == t && env'.Get(n) == env.Get(name)
    && forall x :: x in g.vars && x != name ==> x in g'.vars && g'.vars[x] == g.vars[x] && env'.Get(x) == env.Get(x)
  }

  lemma RenamesUnder(name: string, n: string, t: Type, g: Context, g': Context, env: Env, env': Env, x: string,
      tx: Type, v: int)
    requires Renames(name, n, t, g, g', env, env') && x != name && x != n
    ensures Renames(name, n, t, g.Bind(x, tx), g'.Bind(x, tx), env.Set(x, v), env'.Set(x, v))
  {}

  function Renamed(name: string, n: string, t: Type, e: Expr): Expr { Substitute(name, Var(t, n), e) }

  lemma {:induction false} SubstituteTyped(name: string, n: string, t: Type, e: Expr, g: Context, g': Context,
      env: Env, env': Env)
    requires Renames(name, n, t, g, g', env, env') && WellTyped(e, g) && name !in LetNames(e) && n !in LetNames(e)
    ensures WellTyped(Renamed(name, n, t, e), g') && TypeOf(Renamed(name, n, t, e)) == TypeOf(e)
    decreases e
  {
    match e
    case Imm(_, _) =>
    case Var(_, _) =>
    case Cast(_, value) => SubstituteTyped(name, n, t, value, g, g', env, env');
    case Bin(_, _, a, b) =>
      SubstituteTyped(name, n, t, a, g, g', env, env');
      SubstituteTyped(name, n, t, b, g, g', env, env');
    case Not(a) => SubstituteTyped(name, n, t, a, g, g', env, env');
    case Select(c, tv, fv) =>
      SubstituteTyped(name, n, t, c, g, g', env, env');
      SubstituteTyped(name, n, t, tv, g, g', env, env');
      SubstituteTyped(name, n, t, fv, g, g', env, env');
    case Load(_, _, index) => SubstituteTyped(name, n, t, index, g, g', env, env');
    case Ramp(a, b, _) =>
      SubstituteTyped(name, n, t, a, g, g', env, env');
      SubstituteTyped(name, n, t, b, g, g', env, env');
    case Broadcast(value, _) => SubstituteTyped(name, n, t, value, g, g', env, env');
    case Call(_, te, _, _, args) => SubstituteTypedArgs(name, n, t, args, te.lanes, g, g', env, env');
    case Let(x, value, body) =>
      SubstituteTyped(name, n, t, value, g, g', env, env');
      RenamesUnder(name, n, t, g, g', env, env', x, TypeOf(value), 0);
      SubstituteTyped(name, n, t, body, g.Bind(x, TypeOf(value)), g'.Bind(x, TypeOf(value)), env.Set(x, 0),
          env'.Set(x, 0));
  }

  lemma {:induction false} SubstituteTypedArgs(name: string, n: string, t: Type, es: seq<Expr>, lanes: nat,
      g: Context, g': Context, env: Env, env': Env)
    requires Renames(name, n, t, g, g', env, env') && WellTypedArgs(es, g, lanes) && name !in LetNamesOf(es)
    requires n !in LetNamesOf(es)
    ensures var rs := SubstituteAll(name, Var(t, n), es);
            WellTypedArgs(rs, g', lanes) && forall i :: 0 <= i < |es| ==> TypeOf(rs[i]) == TypeOf(es[i])
    decreases es
  {
    if es != [] {
      SubstituteTyped(name, n, t, es[0], g, g', env, env');
      SubstituteTypedArgs(name, n, t, es[1..], lanes, g, g', env, env');
      assert SubstituteAll(name, Var(t, n), es)[1..] == SubstituteAll(name, Var(t, n), es[1..]);
    }
  }

  lemma {:induction false} SubstitutePower(name: string, repl: Expr, e: Expr)
    requires repl.Var?
    ensures PowerOfTwo(Substitute(name, repl, e)) == PowerOfTwo(e)
    ensures ConstOf(Substitute(name, repl, e)) == ConstOf(e)
    decreases e
  {
    match e
    case Cast(_, value) => SubstitutePower(name, repl, value);
    case Broadcast(value, _) => SubstitutePower(name, repl, value);
    case _ =>
  }

  lemma {:induction false} SubstituteMeans(name: string, n: string, t: Type, e: Expr, g: Context, g': Context,
      w: World, env: Env, env': Env)
    requires Renames(name, n, t, g, g', env, env') && WellTyped(e, g) && name !in LetNames(e) && n !in LetNames(e)
    ensures Eval(Renamed(name, n, t, e), w, env') == Eval(e, w, env)
    ensures Safe(e, w, env) ==> Safe(Renamed(name, n, t, e), w, env')
    decreases e, 1
  {
    match e
    case Imm(_, _) =>
    case Var(_, _) =>
    case Cast(_, value) => SubstituteMeans(name, n, t, value, g, g', w, env, env');
    case Bin(_, _, _, _) => SubstituteMeansBin(name, n, t, e, g, g', w, env, env');
    case Not(a) => SubstituteMeans(name, n, t, a, g, g', w, env, env');
    case Select(c, tv, fv) =>
      SubstituteMeans(name, n, t, c, g, g', w, env, env');
      SubstituteMeans(name, n, t, tv, g, g', w, env, env');
      SubstituteMeans(name, n, t, fv, g, g', w, env, env');
    case Load(_, _, index) => SubstituteMeans(name, n, t, index, g, g', w, env, env');
    case Ramp(a, b, _) =>
      SubstituteMeans(name, n, t, a, g, g', w, env, env');
      SubstituteMeans(name, n, t, b, g, g', w, env, env');
      SubstituteTyped(name, n, t, a, g, g', env, env');
    case Broadcast(value, _) => SubstituteMeans(name, n, t, value, g, g', w, env, env');
    case Call(kind, te, _, _, args) => SubstituteMeansArgs(name, n, t, args, te.lanes, g, g', w, env, env');
    case Let(_, _, _) => SubstituteMeansLet(name, n, t, e, g, g', w, env, env');
  }

  lemma {:induction false} SubstituteMeansLet(name: string, n: string, t: Type, e: Expr, g: Context, g': Context,
      w: World, env: Env, env': Env)
    requires e.Let? && Renames(name, n, t, g, g', env, env') && WellTyped(e, g) && name !in LetNames(e)
    requires n !in LetNames(e)
    ensures Eval(Renamed(name, n, t, e), w, env') == Eval(e, w, env)
    ensures Safe(e, w, env) ==> Safe(Renamed(name, n, t, e), w, env')
    decreases e, 0
  {
    SubstituteMeans(name, n, t, e.value, g, g', w, env, env');
    var v, tv := Eval(e.value, w, env), TypeOf(e.value);
    RenamesUnder(name, n, t, g, g', env, env', e.name, tv, v);
    SubstituteMeans(name, n, t, e.body, g.Bind(e.name, tv), g'.Bind(e.name, tv), w, env.Set(e.name, v),
        env'.Set(e.name, v));
  }

  lemma {:induction false} SubstituteMeansBin(name: string, n: string, t: Type, e: Expr, g: Context, g': Context,
      w: World, env: Env, env': Env)
    requires e.Bin? && Renames(name, n, t, g, g', env, env') && WellTyped(e, g) && name !in LetNames(e)
    requires n !in LetNames(e)
    ensures Eval(Renamed(name, n, t, e), w, env') == Eval(e, w, env)
    ensures Safe(e, w, env) ==> Safe(Renamed(name, n, t, e), w, env')
    decreases e, 0
  {
    SubstituteMeans(name, n, t, e.a, g, g', w, env, env');
    SubstituteMeans(name, n, t, e.b, g, g', w, env, env');
    SubstitutePower(name, Var(t, n), e.b);
  }

  lemma {:induction false} SubstituteMeansArgs(name: string, n: string, t: Type, es: seq<Expr>, lanes: nat,
      g: Context, g': Context, w: World, env: Env, env': Env)
    requires Renames(name, n, t, g, g', env, env') && WellTypedArgs(es, g, lanes) && name !in LetNamesOf(es)
    requires n !in LetNamesOf(es)
    ensures var rs := SubstituteAll(name, Var(t, n), es);
            && EvalArgs(rs, w, env') == EvalArgs(es, w, env)
            && (SafeArgs(es, w, env) ==> SafeArgs(rs, w, env'))
            && forall i :: 0 <= i < |es| && Safe(es[i], w, env) ==> Safe(rs[i], w, env')
    decreases es
  {
    if es != [] {
      SubstituteMeans(name, n, t, es[0], g, g', w, env, env');
      SubstituteMeansArgs(name, n, t, es[1..], lanes, g, g', w, env, env');
      assert SubstituteAll(name, Var(t, n), es)[1..] == SubstituteAll(name, Var(t, n), es[1..]);
    }
  }

  lemma {:induction false} SubstitutePrintable(name: string, repl: Expr, e: Expr, s: Setup)
    requires repl.Var? && CType(repl.t) && Printable(e, s) && name !in LetNames(e)
    ensures Printable(Substitute(name, repl, e), s) && LetNames(Substitute(name, repl, e)) == LetNames(e)
    ensures PrintsNegative(Substitute(name, repl, e)) == PrintsNegative(e)
    decreases e
  {
    match e
    case Imm(_, _) =>
    case Var(_, _) =>
    case Cast(_, value) => SubstitutePrintable(name, repl, value, s);
    case Bin(_, _, a, b) =>
      SubstitutePrintable(name, repl, a, s);
      SubstitutePrintable(name, repl, b, s);
      SubstitutePower(name, repl, b);
    case Not(a) => SubstitutePrintable(name, repl, a, s);
    case Select(c, tv, fv) =>
      SubstitutePrintable(name, repl, c, s);
      SubstitutePrintable(name, repl, tv, s);
      SubstitutePrintable(name, repl, fv, s);
    case Load(_, _, index) => SubstitutePrintable(name, repl, index, s);
    case Call(_, _, _, _, args) => SubstitutePrintables(name, repl, args, s);
    case Let(_, value, body) => SubstitutePrintable(name, repl, value, s); SubstitutePrintable(name, repl, body, s);
  }

  lemma {:induction false} SubstitutePrintables(name: string, repl: Expr, es: seq<Expr>, s: Setup)
    requires repl.Var? && CType(repl.t) && PrintableArgs(es, s) && name !in LetNamesOf(es)
    ensures PrintableArgs(SubstituteAll(name, repl, es), s)
    ensures LetNamesOf(SubstituteAll(name, repl, es)) == LetNamesOf(es)
    decreases es
  {
    if es != [] {
      SubstitutePrintable(name, repl, es[0], s);
      SubstitutePrintables(name, repl, es[1..], s);
      assert SubstituteAll(name, repl, es)[1..] == SubstituteAll(name, repl, es[1..]);
    }
  }
}
