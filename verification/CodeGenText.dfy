/** The text of a right-hand side says which right-hand side it is: it can be read back.  So
    remembering variables by text is remembering them by what they were assigned. */
module CodeGenText {
  import opened IR
  import opened Text
  import opened CodeGenC
  import opened CodeGenMeaning

  // ---------- the text of right-hand sides ----------

  /** print_type, for integers and bool */
  function TypeText(t: Type): string {
    if t.bits == 1 then "bool" else (if t.signed then "int" else "uint") + (Digits(t.bits) + "_t")
  }

  function TestText(op: BinOp): string {
    match op
    case EQ => "=="
    case NE => "!="
    case LT => "<"
    case LE => "<="
    case GT => ">"
    case GE => ">="
    case And => "&&"
    case Or => "||"
    case _ => "?"
  }

  function OperatorText(op: Operator): string {
    match op
    case Plus => "+"
    case Minus => "-"
    case Times => "*"
    case Quot => "/"
    case Rem => "%"
    case Shr => ">>"
    case BAnd => "&"
    case Compare(c) => TestText(c)
    case Logic(c) => TestText(c)
  }

  function ArgsText(args: seq<Atom>): string {
    if args == [] then ")"
    else AtomText(args[0]) + if |args| == 1 then ")" else ", " + ArgsText(args[1..])
  }

  function CastText(t: Type, a: Atom): string { "(" + (TypeText(t) + (")(" + (AtomText(a) + ")"))) }

  function InfixText(op: Operator, a: Atom, b: Atom): string {
    AtomText(a) + (" " + (OperatorText(op) + (" " + AtomText(b))))
  }

  function TernaryText(t: Type, c: Atom, x: Atom, y: Atom): string {
    "(" + (TypeText(t) + (")(" + (AtomText(c) + (" ? " + (AtomText(x) + (" : " + (AtomText(y) + ")")))))))
  }

  function IndexText(cast: Option<Type>, name: string, a: Atom): string {
    if cast.None? then name + ("[" + (AtomText(a) + "]"))
    else "((" + (TypeText(cast.value) + (" *)" + (name + (")[" + (AtomText(a) + "]")))))
  }

  function NotText(mark: string, a: Atom, close: string): string { mark + (AtomText(a) + close) }

  function CallText(name: string, args: seq<Atom>): string { name + ("(" + ArgsText(args)) }

  function RhsText(rhs: Rhs): string {
    match rhs
    case Copy(a) => AtomText(a)
    case CastTo(t, a) => CastText(t, a)
    case Infix(op, a, b) => InfixText(op, a, b)
    case BNot(a) => NotText("~", a, "")
    case LNot(a) => NotText("!(", a, ")")
    case Ternary(t, c, x, y) => TernaryText(t, c, x, y)
    case Index(cast, name, a) => IndexText(cast, name, a)
    case Apply1(name, args) => CallText(name, args)
  }

  // ---------- words ----------

  predicate InName(c: char) { c == '_' || IsAlpha(c) || IsDigit(c) }

  predicate InWord(c: char) { c == '-' || InName(c) }

  predicate IsWord(s: string) { forall i :: 0 <= i < |s| ==> InWord(s[i]) }

  /** A C identifier, or a numeral. */
  predicate IsName(s: string) { s != [] && forall i :: 0 <= i < |s| ==> InName(s[i]) }

  /** What does not go on with a word. */
  predicate Stops(s: string) { s == [] || !InWord(s[0]) }

  function Head(s: string): string { if Stops(s) then [] else [s[0]] + Head(s[1..]) }

  function Tail(s: string): (r: string)
    ensures |r| <= |s|
  {
    if Stops(s) then s else Tail(s[1..])
  }

  lemma {:induction false} Splits(w: string, rest: string)
    requires IsWord(w) && Stops(rest)
    ensures Head(w + rest) == w && Tail(w + rest) == rest
  {
    if w == [] {
      assert w + rest == rest;
    } else {
      assert (w + rest)[1..] == w[1..] + rest;
      Splits(w[1..], rest);
    }
  }

  /** Without the first n characters. */
  function Skip(s: string, n: nat): (r: string)
    ensures |r| <= |s|
  {
    if n <= |s| then s[n..] else []
  }

  lemma Skips(w: string, rest: string)
    ensures Skip(w + rest, |w|) == rest
  {}

  predicate Begins(s: string, c: char) { s != [] && s[0] == c }

  // ---------- atoms and types ----------

  predicate AtomNamed(a: Atom) { a.Id? ==> IsName(a.name) && !IsNumeral(a.name) }

  function Number(s: string): nat { if IsNumeral(s) then Parse(s) else 0 }

  function ReadAtom(s: string): Atom { if Begins(s, '-') then Lit(0 - Number(s[1..])) else ReadName(s) }

  lemma AtomReads(a: Atom)
    requires AtomNamed(a)
    ensures IsWord(AtomText(a)) && AtomText(a) != [] && ReadAtom(AtomText(a)) == a
  {
    match a
    case Id(_) =>
    case Lit(v) =>
      DigitsParse(if v >= 0 then v else -v);
      if v < 0 { assert AtomText(a)[1..] == Digits(-v); }
  }

  predicate CScalar(t: Type) { CType(t) && t.lanes == 1 }

  function ReadBits(s: string): Bits { if |s| >= 2 && Number(s[..|s| - 2]) >= 1 then Number(s[..|s| - 2]) else 1 }

  function ReadType(s: string): Type {
    if s == "bool" then Bool(1) else if Begins(s, 'u') then UInt(ReadBits(Skip(s, 4))) else Int(ReadBits(Skip(s, 3)))
  }

  lemma TypeReads(t: Type)
    requires CScalar(t)
    ensures IsWord(TypeText(t)) && TypeText(t) != [] && ReadType(TypeText(t)) == t
  {
    if t.bits != 1 {
      DigitsParse(t.bits);
      var bits := Digits(t.bits);
      var rest := bits + "_t";
      assert rest[..|rest| - 2] == bits;
      var word := if t.signed then "int" else "uint";
      Skips(word, rest);
      assert TypeText(t)[0] == word[0] && "bool"[0] == 'b';
    }
  }

  // ---------- operators ----------

  predicate IsTest(op: BinOp) { op.EQ? || op.NE? || op.LT? || op.LE? || op.GT? || op.GE? }

  predicate OperatorKnown(op: Operator) {
    match op
    case Compare(c) => IsTest(c)
    case Logic(c) => c.And? || c.Or?
    case _ => true
  }

  function ReadOperator(s: string): Operator {
    if s == "+" then Plus else if s == "-" then Minus else if s == "*" then Times
    else if s == "/" then Quot else if s == "%" then Rem else if s == ">>" then Shr else if s == "&" then BAnd
    else if s == "==" then Compare(EQ) else if s == "!=" then Compare(NE)
    else if s == "<" then Compare(LT) else if s == "<=" then Compare(LE)
    else if s == ">" then Compare(GT) else if s == ">=" then Compare(GE)
    else if s == "&&" then Logic(And) else Logic(Or)
  }

  lemma OperatorReads(op: Operator)
    requires OperatorKnown(op)
    ensures ReadOperator(OperatorText(op)) == op
    ensures 1 <= |OperatorText(op)| <= 2 && forall i :: 0 <= i < |OperatorText(op)| ==> OperatorText(op)[i] != ' '
  {}

  // ---------- right-hand sides ----------

  /** Its types, operators, arrays and functions can be written in C. */
  predicate Shaped(rhs: Rhs) {
    match rhs
    case CastTo(t, _) => CScalar(t)
    case Infix(op, _, _) => OperatorKnown(op)
    case Ternary(t, _, _, _) => CScalar(t)
    case Index(cast, name, _) => (cast.Some? ==> CScalar(cast.value)) && IsName(name)
    case Apply1(name, _) => IsName(name)
    case _ => true
  }

  predicate AtomsNamed(rhs: Rhs) {
    match rhs
    case Copy(a) => AtomNamed(a)
    case CastTo(_, a) => AtomNamed(a)
    case Infix(_, a, b) => AtomNamed(a) && AtomNamed(b)
    case BNot(a) => AtomNamed(a)
    case LNot(a) => AtomNamed(a)
    case Ternary(_, c, x, y) => AtomNamed(c) && AtomNamed(x) && AtomNamed(y)
    case Index(_, _, a) => AtomNamed(a)
    case Apply1(_, args) => forall i :: 0 <= i < |args| ==> AtomNamed(args[i])
  }

  predicate Writable(rhs: Rhs) { Shaped(rhs) && AtomsNamed(rhs) }

  /** A word, and what follows it but for n characters. */
  function AtomAt(s: string): Atom { ReadAtom(Head(s)) }
  function After(s: string, n: nat): (r: string)
    ensures |r| <= |s|
  {
    Skip(Tail(s), n)
  }

  function ReadArgs(s: string): seq<Atom>
    decreases |s|
  {
    if Stops(s) then []
    else if Begins(Tail(s), ',') then [AtomAt(s)] + ReadArgs(After(s, 2))
    else [AtomAt(s)]
  }

  /** After "((": a type, " *)", a name, ")[", an index. */
  function ReadView(s: string): Rhs {
    var rest := After(s, 3);
    Index(Some(ReadType(Head(s))), Head(rest), AtomAt(After(rest, 2)))
  }

  /** After "(": a type, ")(", and a value or three of them. */
  function ReadTyped(s: string): Rhs {
    var t, rest := ReadType(Head(s)), After(s, 2);
    if Begins(Tail(rest), ')') then CastTo(t, AtomAt(rest))
    else
      var x := After(rest, 3);
      Ternary(t, AtomAt(rest), AtomAt(x), AtomAt(After(x, 3)))
  }

  /** After a first operand and a space: an operator of one or two characters, and the second
      operand. */
  function ReadInfix(a: Atom, s: string): Rhs {
    var n := if |s| >= 2 && s[1] != ' ' then 2 else 1;
    Infix(ReadOperator(if n <= |s| then s[..n] else s), a, ReadAtom(Skip(s, n + 1)))
  }

  /** After a first word. */
  function ReadRest(w: string, rest: string): Rhs {
    if rest == [] then Copy(ReadAtom(w))
    else if rest[0] == '[' then Index(None, w, AtomAt(rest[1..]))
    else if rest[0] == '(' then Apply1(w, ReadArgs(rest[1..]))
    else ReadInfix(ReadAtom(w), rest[1..])
  }

  function ReadRhs(s: string): Rhs {
    if Begins(s, '~') then BNot(ReadAtom(s[1..]))
    else if Begins(s, '!') then LNot(AtomAt(Skip(s, 2)))
    else if Begins(s, '(') then if Begins(s[1..], '(') then ReadView(s[2..]) else ReadTyped(s[1..])
    else ReadRest(Head(s), Tail(s))
  }

  /** An atom, followed by what is no word and n characters of it skipped. */
  lemma AtomThen(a: Atom, sep: string, rest: string)
    requires AtomNamed(a) && sep != [] && Stops(sep)
    ensures var s := AtomText(a) + (sep + rest);
            AtomAt(s) == a && Tail(s) == sep + rest && Begins(Tail(s), sep[0]) && After(s, |sep|) == rest
  {
    AtomReads(a);
    Splits(AtomText(a), sep + rest);
    Skips(sep, rest);
  }

  lemma TypeThen(t: Type, sep: string, rest: string)
    requires CScalar(t) && sep != [] && Stops(sep)
    ensures var s := TypeText(t) + (sep + rest); ReadType(Head(s)) == t && After(s, |sep|) == rest && !Stops(s)
  {
    TypeReads(t);
    Splits(TypeText(t), sep + rest);
    Skips(sep, rest);
  }

  lemma {:induction false} ArgsRead(args: seq<Atom>)
    requires forall i :: 0 <= i < |args| ==> AtomNamed(args[i])
    ensures ReadArgs(ArgsText(args)) == args
  {
    if |args| == 1 {
      LastArgReads(args[0]);
      assert args == [args[0]];
    } else if args != [] {
      ArgsRead(args[1..]);
      ArgReads(args[0], ArgsText(args[1..]), args[1..]);
      assert args == [args[0]] + args[1..];
    }
  }

  lemma LastArgReads(a: Atom)
    requires AtomNamed(a)
    ensures ReadArgs(AtomText(a) + ")") == [a]
  {
    var none := "";
    assert ")" + none == ")";
    AtomReads(a);
    AtomThen(a, ")", none);
  }

  lemma ArgReads(a: Atom, more: string, rest: seq<Atom>)
    requires AtomNamed(a) && ReadArgs(more) == rest
    ensures ReadArgs(AtomText(a) + (", " + more)) == [a] + rest
  {
    AtomReads(a);
    AtomThen(a, ", ", more);
  }

  /** What starts with a word is read by what follows the word. */
  lemma WordReads(w: string, rest: string)
    requires w != [] && IsWord(w) && Stops(rest)
    ensures ReadRhs(w + rest) == ReadRest(w, rest)
  {
    Splits(w, rest);
    assert InWord((w + rest)[0]);
  }

  lemma CopyReads(a: Atom)
    requires AtomNamed(a)
    ensures ReadRhs(AtomText(a)) == Copy(a)
  {
    AtomReads(a);
    var s, none := AtomText(a), "";
    assert s + none == s;
    WordReads(s, none);
  }

  lemma InfixReads(op: Operator, a: Atom, b: Atom)
    requires Writable(Infix(op, a, b))
    ensures ReadRhs(RhsText(Infix(op, a, b))) == Infix(op, a, b)
  {
    var s := OperatorText(op) + (" " + AtomText(b));
    OperationReads(op, a, b);
    AtomReads(a);
    WordReads(AtomText(a), " " + s);
    SpacedReads(AtomText(a), s);
  }

  lemma SpacedReads(w: string, s: string)
    ensures ReadRest(w, " " + s) == ReadInfix(ReadAtom(w), s)
  {
    assert (" " + s)[1..] == s;
  }

  lemma OperationReads(op: Operator, a: Atom, b: Atom)
    requires OperatorKnown(op) && AtomNamed(b)
    ensures ReadInfix(a, OperatorText(op) + (" " + AtomText(b))) == Infix(op, a, b)
  {
    var o, y := OperatorText(op), AtomText(b);
    var s := o + (" " + y);
    OperatorReads(op);
    AtomReads(b);
    assert s[..|o|] == o && Skip(s, |o| + 1) == y;
    assert |o| == 1 ==> s[1] == ' ';
    assert |o| == 2 ==> s[1] == o[1];
  }

  lemma CastReads(t: Type, a: Atom)
    requires Writable(CastTo(t, a))
    ensures ReadRhs(RhsText(CastTo(t, a))) == CastTo(t, a)
  {
    var none := "";
    var rest := AtomText(a) + ")";
    assert ")" + none == ")";
    AtomThen(a, ")", none);
    TypeThen(t, ")(", rest);
    TypedReads(t, rest);
  }

  lemma TernaryReads(t: Type, c: Atom, x: Atom, y: Atom)
    requires Writable(Ternary(t, c, x, y))
    ensures ReadRhs(RhsText(Ternary(t, c, x, y))) == Ternary(t, c, x, y)
  {
    var none := "";
    var last := AtomText(y) + ")";
    var two := AtomText(x) + (" : " + last);
    var rest := AtomText(c) + (" ? " + two);
    assert ")" + none == ")";
    AtomThen(y, ")", none);
    AtomThen(x, " : ", last);
    AtomThen(c, " ? ", two);
    TypeThen(t, ")(", rest);
    TypedReads(t, rest);
  }

  /** What starts with a type in parentheses is read as such. */
  lemma TypedReads(t: Type, rest: string)
    requires CScalar(t)
    ensures var s := TypeText(t) + (")(" + rest); ReadRhs("(" + s) == ReadTyped(s)
  {
    TypeReads(t);
    var s := TypeText(t) + (")(" + rest);
    assert ("(" + s)[1..] == s && InWord(s[0]);
  }

  lemma ViewReads(t: Type, name: string, a: Atom)
    requires Writable(Index(Some(t), name, a))
    ensures ReadRhs(RhsText(Index(Some(t), name, a))) == Index(Some(t), name, a)
  {
    var last := AtomText(a) + "]";
    var rest := name + (")[" + last);
    IndexReads(a);
    Splits(name, ")[" + last);
    Skips(")[", last);
    TypeThen(t, " *)", rest);
    ParensRead(TypeText(t) + (" *)" + rest));
  }

  lemma IndexReads(a: Atom)
    requires AtomNamed(a)
    ensures AtomAt(AtomText(a) + "]") == a
  {
    var none := "";
    assert "]" + none == "]";
    AtomThen(a, "]", none);
  }

  lemma ParensRead(s: string)
    ensures ReadRhs("((" + s) == ReadView(s)
  {
    assert ("((" + s)[2..] == s && ("((" + s)[1..][0] == '(';
  }

  lemma ElementReads(name: string, a: Atom)
    requires Writable(Index(None, name, a))
    ensures ReadRhs(RhsText(Index(None, name, a))) == Index(None, name, a)
  {
    var last := AtomText(a) + "]";
    IndexReads(a);
    WordReads(name, "[" + last);
    assert ("[" + last)[1..] == last;
  }

  lemma CallReads(name: string, args: seq<Atom>)
    requires Writable(Apply1(name, args))
    ensures ReadRhs(RhsText(Apply1(name, args))) == Apply1(name, args)
  {
    var rest := ArgsText(args);
    ArgsRead(args);
    WordReads(name, "(" + rest);
    assert ("(" + rest)[1..] == rest;
  }

  /** The text of a right-hand side reads back as that right-hand side. */
  lemma TextReadsBack(rhs: Rhs)
    requires Writable(rhs)
    ensures ReadRhs(RhsText(rhs)) == rhs
  {
    match rhs
    case Copy(a) => CopyReads(a);
    case CastTo(t, a) => CastReads(t, a);
    case Infix(op, a, b) => InfixReads(op, a, b);
    case BNot(a) =>
      AtomReads(a);
      var none := "";
      assert ("~" + (AtomText(a) + none))[1..] == AtomText(a);
    case LNot(a) =>
      var none := "";
      assert ")" + none == ")";
      AtomThen(a, ")", none);
      Skips("!(", AtomText(a) + ")");
    case Ternary(t, c, x, y) => TernaryReads(t, c, x, y);
    case Index(cast, name, a) => if cast.Some? { ViewReads(cast.value, name, a); } else { ElementReads(name, a); }
    case Apply1(name, args) => CallReads(name, args);
  }

  // ---------- the cache, by text ----------

  predicate IsIdentifier(s: string) { IsName(s) && !IsNumeral(s) }

  ghost predicate Filed(rhs: Rhs, id: string, cache: map<string, string>) {
    Writable(rhs) && IsIdentifier(id) && RhsText(rhs) in cache && cache[RhsText(rhs)] == id
  }

  ghost predicate Stands(text: string, known: Cache) { ReadRhs(text) in known && RhsText(ReadRhs(text)) == text }

  /** One cache by text, one by right-hand side, of the same variables. */
  ghost predicate ByText(cache: map<string, string>, known: Cache) {
    && (forall rhs :: rhs in known ==> Filed(rhs, known[rhs], cache))
    && forall text :: text in cache ==> Stands(text, known)
  }

  /** Looking a text up finds what looking the right-hand side up does. */
  lemma TextFinds(rhs: Rhs, cache: map<string, string>, known: Cache)
    requires ByText(cache, known) && Writable(rhs)
    ensures RhsText(rhs) in cache <==> rhs in known
    ensures rhs in known ==> cache[RhsText(rhs)] == known[rhs] && IsIdentifier(known[rhs])
  {
    TextReadsBack(rhs);
    if RhsText(rhs) in cache { assert Stands(RhsText(rhs), known); }
    if rhs in known { assert Filed(rhs, known[rhs], cache); }
  }

  /** So it stays when a right-hand side is added to both. */
  lemma TextAdds(rhs: Rhs, id: string, cache: map<string, string>, known: Cache)
    requires ByText(cache, known) && Writable(rhs) && IsIdentifier(id) && rhs !in known
    ensures ByText(cache[RhsText(rhs) := id], known[rhs := id])
  {
    var cache', known' := cache[RhsText(rhs) := id], known[rhs := id];
    TextReadsBack(rhs);
    forall r | r in known' ensures Filed(r, known'[r], cache') {
      if r != rhs {
        assert Filed(r, known[r], cache);
        TextReadsBack(r);
      }
    }
    forall text | text in cache' ensures Stands(text, known') {
      if text != RhsText(rhs) { assert Stands(text, known); }
    }
  }

  // ---------- what can be printed ----------

  /** No vectors, types that C has, and a name wherever one is printed. */
  predicate Writes(e: Expr)
    decreases e
  {
    && CScalar(TypeOf(e))
    && match e
       case Imm(_, _) => true
       case Var(_, name) => name != []
       case Cast(_, value) => Writes(value)
       case Bin(_, _, a, b) => Writes(a) && Writes(b)
       case Not(a) => Writes(a)
       case Select(c, tv, fv) => Writes(c) && Writes(tv) && Writes(fv)
       case Load(_, name, index) => name != [] && Writes(index)
       case Ramp(_, _, _) => false
       case Broadcast(_, _) => false
       case Call(kind, _, name, _, args) =>
         WritesAll(args) && ((kind.Abs? && |args| == 1) || (kind.IfThenElse? && |args| == 3) || IsName(name))
       case Let(_, value, body) => Writes(value) && Writes(body)
  }

  predicate WritesAll(es: seq<Expr>)
    decreases es
  {
    es == [] || (Writes(es[0]) && WritesAll(es[1..]))
  }

  lemma {:induction false} WritesAt(es: seq<Expr>, i: nat)
    requires WritesAll(es) && i < |es|
    ensures Writes(es[i])
  {
    if i > 0 { WritesAt(es[1..], i - 1); }
  }

  lemma {:induction false} SubstituteWrites(name: string, repl: Expr, e: Expr)
    requires repl.Var? && Writes(repl) && Writes(e)
    ensures Writes(Substitute(name, repl, e))
    decreases e
  {
    match e
    case Imm(_, _) =>
    case Var(_, _) =>
    case Cast(_, value) => SubstituteWrites(name, repl, value);
    case Bin(_, _, a, b) => SubstituteWrites(name, repl, a); SubstituteWrites(name, repl, b);
    case Not(a) => SubstituteWrites(name, repl, a);
    case Select(c, tv, fv) =>
      SubstituteWrites(name, repl, c); SubstituteWrites(name, repl, tv); SubstituteWrites(name, repl, fv);
    case Load(_, _, index) => SubstituteWrites(name, repl, index);
    case Call(_, _, _, _, args) => SubstituteWritesAll(name, repl, args);
    case Let(n, value, body) =>
      SubstituteWrites(name, repl, value);
      if n != name { SubstituteWrites(name, repl, body); }
  }

  lemma {:induction false} SubstituteWritesAll(name: string, repl: Expr, es: seq<Expr>)
    requires repl.Var? && Writes(repl) && WritesAll(es)
    ensures WritesAll(SubstituteAll(name, repl, es))
    decreases es
  {
    if es != [] {
      SubstituteWrites(name, repl, es[0]);
      SubstituteWritesAll(name, repl, es[1..]);
      assert SubstituteAll(name, repl, es)[1..] == SubstituteAll(name, repl, es[1..]);
    }
  }

  /** The variable put in place of a printed let value. */
  lemma TextWrites(t: Type, a: Atom)
    requires CScalar(t) && AtomNamed(a)
    ensures Writes(Var(t, AtomText(a)))
  {
    AtomReads(a);
  }

  lemma AbsWrites(t: Type, a: Expr)
    requires CScalar(t) && Writes(a)
    ensures Writes(AbsExpr(t, a))
  {
    var zero := Imm(TypeOf(a), 0);
    assert CScalar(Bool(1)) && Writes(zero);
    assert Writes(Bin(GT, Bool(1), a, zero)) && Writes(Bin(Sub, TypeOf(a), zero, a));
    assert Writes(Select(Bin(GT, Bool(1), a, zero), a, Bin(Sub, TypeOf(a), zero, a)));
  }

  lemma ModWrites(t: Type, r: Atom, b: Expr)
    requires CScalar(t) && AtomNamed(r) && Writes(b)
    ensures Writes(ModExpr(t, r, b))
  {
    var rem, u := Var(t, AtomText(r)), Type(false, t.bits, t.lanes);
    TextWrites(t, r);
    var bs := [b];
    assert bs[1..] == [] && WritesAll(bs[1..]) && WritesAll(bs);
    var abs := Call(Abs, u, "abs", 0, bs);
    assert CScalar(u) && Writes(abs) && Writes(Cast(t, abs));
    assert CScalar(Bool(1)) && Writes(Imm(t, 0));
    assert Writes(Bin(LT, Bool(1), rem, Imm(t, 0))) && Writes(Bin(Add, t, rem, Cast(t, abs)));
  }

  predicate WritesStmt(c: Stmt) {
    match c
    case Store(name, value, index) => name != [] && Writes(value) && Writes(index)
    case For(name, min, extent, body) => name != [] && Writes(min) && Writes(extent) && WritesStmt(body)
    case LetStmt(_, value, body) => Writes(value) && WritesStmt(body)
    case IfThenElse(cond, t, e) => Writes(cond) && WritesStmt(t) && (e.Some? ==> WritesStmt(e.value))
    case Block(first, rest) => WritesStmt(first) && WritesStmt(rest)
    case Evaluate(value) => Writes(value)
  }

  lemma {:induction false} SubstituteWritesStmt(name: string, repl: Expr, c: Stmt)
    requires repl.Var? && Writes(repl) && WritesStmt(c)
    ensures WritesStmt(SubstituteStmt(name, repl, c))
  {
    match c
    case Store(_, value, index) => SubstituteWrites(name, repl, value); SubstituteWrites(name, repl, index);
    case For(n, min, extent, body) =>
      SubstituteWrites(name, repl, min);
      SubstituteWrites(name, repl, extent);
      if n != name { SubstituteWritesStmt(name, repl, body); }
    case LetStmt(n, value, body) =>
      SubstituteWrites(name, repl, value);
      if n != name { SubstituteWritesStmt(name, repl, body); }
    case IfThenElse(cond, t, e) =>
      SubstituteWrites(name, repl, cond);
      SubstituteWritesStmt(name, repl, t);
      if e.Some? { SubstituteWritesStmt(name, repl, e.value); }
    case Block(first, rest) => SubstituteWritesStmt(name, repl, first); SubstituteWritesStmt(name, repl, rest);
    case Evaluate(value) => SubstituteWrites(name, repl, value);
  }
}
