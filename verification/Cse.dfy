/** Common subexpression elimination: number the expressions of the let-free form, count
    the uses of each, and rebuild the expression with a let for each one used twice. */
module Cse {
  import opened IR
  import opened Trees

  /** Whether an expression is worth a let of its own. */
  predicate ShouldExtract(e: Expr) {
    if IsConst(e) || e.Var? then false
    else
      match e
      case Broadcast(value, _) => ShouldExtract(value)
      case Cast(_, value) => ShouldExtract(value)
      case Bin(op, _, a, b) => if op.Add? || op.Sub? || op.Mul? || op.Div? then !(IsConst(a) || IsConst(b)) else true
      case Ramp(_, stride, _) => !IsConst(stride)
      case _ => true
  }

  // ---------- value numbering ----------

  function Index<T(==)>(entries: seq<T>, e: T): (i: nat)
    requires e in entries
    ensures i < |entries| && entries[i] == e
  {
    if entries[0] == e then 0 else 1 + Index(entries[1..], e)
  }

  /** The numbers of the values of the lets in sight. */
  type Subs = map<string, nat>

  predicate SubsIn(subs: Subs, entries: seq<Expr>) { forall n :: n in subs ==> subs[n] < |entries| }

  function Number(e: Expr, subs: Subs, entries: seq<Expr>): (r: (nat, seq<Expr>))
    requires SubsIn(subs, entries)
    ensures r.0 < |r.1| && entries <= r.1
    decreases Size(e), 0
  {
    if e.Var? && e.name in subs then (subs[e.name], entries)
    else if e in entries then (Index(entries, e), entries)
    else
      ChildSizes(e);
      if e.Let? then
        var (n, entries') := Number(e.value, subs, entries);
        Number(e.body, subs[e.name := n], entries')
      else
        var (ns, entries') := NumberAll(Children(e), subs, entries);
        var rebuilt := WithChildren(e, At(entries', ns));
        if rebuilt in entries' then (Index(entries', rebuilt), entries')
        else (|entries'|, entries' + [rebuilt])
  }

  predicate NumbersIn(ns: seq<nat>, entries: seq<Expr>) { forall i :: 0 <= i < |ns| ==> ns[i] < |entries| }

  function At(entries: seq<Expr>, ns: seq<nat>): (es: seq<Expr>)
    requires NumbersIn(ns, entries)
    ensures |es| == |ns|
  {
    seq(|ns|, i requires 0 <= i < |ns| => entries[ns[i]])
  }

  function NumberAll(es: seq<Expr>, subs: Subs, entries: seq<Expr>): (r: (seq<nat>, seq<Expr>))
    requires SubsIn(subs, entries)
    ensures |r.0| == |es| && entries <= r.1 && NumbersIn(r.0, r.1)
    decreases Sizes(es), 0
  {
    if es == [] then ([], entries)
    else
      var (n, entries') := Number(es[0], subs, entries);
      var (ns, entries'') := NumberAll(es[1..], subs, entries');
      ([n] + ns, entries'')
  }

  // ---------- use counts ----------

  /** The extractable expressions met, how often each expression was included, and how
      often its children were. */
  datatype Tally = Tally(visited: set<Expr>, calls: multiset<Expr>, expanded: multiset<Expr>)

  function Counted(e: Expr, t: Tally): Tally
    decreases Size(e), 0
  {
    ChildSizes(e);
    var calls := t.calls + multiset{e};
    if !ShouldExtract(e) then CountedAll(Children(e), Tally(t.visited, calls, t.expanded + multiset{e}))
    else if e in t.visited then Tally(t.visited, calls, t.expanded)
    else CountedAll(Children(e), Tally(t.visited + {e}, calls, t.expanded + multiset{e}))
  }

  function CountedAll(es: seq<Expr>, t: Tally): Tally
    decreases Sizes(es), 0
  {
    if es == [] then t else CountedAll(es[1..], Counted(es[0], t))
  }

  const NoTally := Tally({}, multiset{}, multiset{})

  /** How often an entry is used: only extractable ones are counted. */
  function UseCount(e: Expr, t: Tally): nat { if ShouldExtract(e) then t.calls[e] else 0 }

  /** The entries used more than once, in the order of their numbers. */
  function Shared(entries: seq<Expr>, t: Tally): seq<Expr> {
    if entries == [] then []
    else (if UseCount(entries[0], t) > 1 then [entries[0]] else []) + Shared(entries[1..], t)
  }

  // ---------- rebuilding ----------

  type Replacements = map<Expr, Expr>

  function Replaced(e: Expr, m: Replacements): Expr
    decreases Size(e), 1
  {
    if e in m then m[e] else Rebuilt(e, m)
  }

  /** The expression itself is kept, its parts are replaced. */
  function Rebuilt(e: Expr, m: Replacements): Expr
    decreases Size(e), 0
  {
    ChildSizes(e);
    WithChildren(e, ReplacedAll(Children(e), m))
  }

  function ReplacedAll(es: seq<Expr>, m: Replacements): (rs: seq<Expr>)
    ensures |rs| == |es|
    decreases Sizes(es), 0
  {
    if es == [] then [] else [Replaced(es[0], m)] + ReplacedAll(es[1..], m)
  }

  /** The variable that stands for each shared expression. */
  function Variables(order: seq<Expr>, name: nat -> string): Replacements {
    map x | x in order :: Var(TypeOf(x), name(Index(order, x)))
  }

  /** The lets from the i-th on, around the body. */
  function Chain(order: seq<Expr>, i: nat, name: nat -> string, m: Replacements, body: Expr): Expr
    requires i <= |order|
    decreases |order| - i
  {
    if i == |order| then body else Let(name(i), Rebuilt(order[i], m), Chain(order, i + 1, name, m, body))
  }

  function Canonical(e: Expr): Expr {
    var (n, entries) := Number(e, map[], []);
    entries[n]
  }

  /** The expressions that get a let. */
  function Extracted(e: Expr): seq<Expr> {
    var (n, entries) := Number(e, map[], []);
    Shared(entries, Counted(entries[n], NoTally))
  }

  /** common_subexpression_elimination; `name` is the supply of unique names. */
  function Eliminate(e: Expr, name: nat -> string): Expr {
    if IsConst(e) || e.Var? then e
    else
      var order := Extracted(e);
      var m := Variables(order, name);
      Chain(order, 0, name, m, Replaced(Canonical(e), m))
  }

  // ---------- the canonical form ----------

  /** The let-free form: every let variable replaced by the form of its value. */
  function Canon(e: Expr, values: map<string, Expr>): Expr
    decreases Size(e), 0
  {
    ChildSizes(e);
    if e.Var? then (if e.name in values then values[e.name] else e)
    else if e.Let? then Canon(e.body, values[e.name := Canon(e.value, values)])
    else WithChildren(e, CanonAll(Children(e), values))
  }

  function CanonAll(es: seq<Expr>, values: map<string, Expr>): (rs: seq<Expr>)
    ensures |rs| == |es|
    decreases Sizes(es), 0
  {
    if es == [] then [] else [Canon(es[0], values)] + CanonAll(es[1..], values)
  }

  lemma {:induction false} ReplacedAt(es: seq<Expr>, m: Replacements)
    ensures forall i :: 0 <= i < |es| ==> ReplacedAll(es, m)[i] == Replaced(es[i], m)
  {
    if es != [] {
      ReplacedAt(es[1..], m);
      assert forall i :: 1 <= i < |es| ==> es[i] == es[1..][i - 1];
    }
  }

  lemma {:induction false} CanonAt(es: seq<Expr>, values: map<string, Expr>)
    ensures forall i :: 0 <= i < |es| ==> CanonAll(es, values)[i] == Canon(es[i], values)
  {
    if es != [] {
      CanonAt(es[1..], values);
      assert forall i :: 1 <= i < |es| ==> es[i] == es[1..][i - 1];
    }
  }

  // ---------- plain expressions ----------

  /** Let-free, and free of the given names. */
  predicate Plain(e: Expr, avoid: set<string>) { LetFree(e) && FV(e) !! avoid }

  lemma ChildFV(e: Expr, i: nat)
    requires i < |Children(e)| && !e.Let?
    ensures FV(Children(e)[i]) <= FV(e)
  {
    if e.Call? { FVsMember(e.args, i); }
  }

  lemma {:induction false} FVOfAll(es: seq<Expr>, names: set<string>)
    ensures FVs(es) <= names <==> forall i :: 0 <= i < |es| ==> FV(es[i]) <= names
  {
    if es != [] {
      FVOfAll(es[1..], names);
      assert forall i :: 1 <= i < |es| ==> es[i] == es[1..][i - 1];
    }
  }

  lemma FVOfChildren(e: Expr, names: set<string>)
    requires !e.Let? && !e.Var? && forall i :: 0 <= i < |Children(e)| ==> FV(Children(e)[i]) <= names
    ensures FV(e) <= names
  {
    match e
    case Imm(_, _) =>
    case Call(_, _, _, _, args) => assert Children(e) == args; FVOfAll(args, names);
    case Select(c, tv, fv) => assert Children(e)[0] == c && Children(e)[1] == tv && Children(e)[2] == fv;
    case Bin(_, _, a, b) => assert Children(e)[0] == a && Children(e)[1] == b;
    case Ramp(a, b, _) => assert Children(e)[0] == a && Children(e)[1] == b;
    case Cast(_, a) => assert Children(e)[0] == a;
    case Not(a) => assert Children(e)[0] == a;
    case Load(_, _, a) => assert Children(e)[0] == a;
    case Broadcast(a, _) => assert Children(e)[0] == a;
  }

  lemma PlainChildren(e: Expr, avoid: set<string>)
    requires Plain(e, avoid)
    ensures forall i :: 0 <= i < |Children(e)| ==> Plain(Children(e)[i], avoid)
  {
    ChildSizes(e);
    LetFreeAt(Children(e));
    forall i | 0 <= i < |Children(e)| ensures Plain(Children(e)[i], avoid) { ChildFV(e, i); }
  }

  lemma PlainRebuilt(e: Expr, cs: seq<Expr>, avoid: set<string>)
    requires !e.Let? && !e.Var? && |cs| == |Children(e)|
    requires forall i :: 0 <= i < |cs| ==> Plain(cs[i], avoid)
    ensures Plain(WithChildren(e, cs), avoid)
  {
    var r := WithChildren(e, cs);
    ChildrenOfRebuilt(e, cs);
    LetFreeAt(cs);
    forall n | n in FV(r) ensures n !in avoid {
      if n in avoid {
        forall i | 0 <= i < |cs| ensures FV(cs[i]) <= FV(r) - {n} { ChildFV(r, i); }
        FVOfChildren(r, FV(r) - {n});
        assert false;
      }
    }
  }

  /** A plain expression is its own let-free form. */
  lemma {:induction false} PlainIsCanon(e: Expr, values: map<string, Expr>, avoid: set<string>)
    requires Plain(e, avoid) && values.Keys <= avoid
    ensures Canon(e, values) == e
    decreases Size(e)
  {
    if !e.Var? {
      PlainChildren(e, avoid);
      forall i | 0 <= i < |Children(e)| ensures Canon(Children(e)[i], values) == Children(e)[i] {
        ChildSmaller(e, i);
        PlainIsCanon(Children(e)[i], values, avoid);
      }
      CanonAt(Children(e), values);
      assert CanonAll(Children(e), values) == Children(e);
      WithOwnChildren(e);
    }
  }
}
