/** The three visitors of the elimination, which number, count and replace by updating
    their own tables. */
module CseVisitors {
  import opened IR
  import opened Trees
  import opened IntervalSoundness
  import opened Scopes
  import opened Cse
  import opened CseMeaning
  import opened CseTheorems

  datatype Entry = Entry(expr: Expr, useCount: nat)

  function Exprs(entries: seq<Entry>): (es: seq<Expr>)
    ensures |es| == |entries|
  {
    seq(|entries|, i requires 0 <= i < |entries| => entries[i].expr)
  }

  lemma {:induction false} IndexIs<T>(es: seq<T>, i: nat)
    requires i < |es| && forall j :: 0 <= j < i ==> es[j] != es[i]
    ensures Index(es, es[i]) == i
  {
    if i > 0 {
      assert es[1..][i - 1] == es[i];
      IndexIs(es[1..], i - 1);
    }
  }

  /** The table is the inverse of the list. */
  predicate Inverse(numbering: map<Expr, nat>, es: seq<Expr>) {
    && (forall i :: 0 <= i < |es| ==> es[i] in numbering && numbering[es[i]] == i)
    && (forall x :: x in numbering ==> numbering[x] < |es| && es[numbering[x]] == x)
  }

  lemma InverseIndex(numbering: map<Expr, nat>, es: seq<Expr>, x: Expr)
    requires Inverse(numbering, es) && x in es
    ensures x in numbering && Index(es, x) == numbering[x]
  {
    IndexIs(es, numbering[x]);
  }

  class GVN {
    var entries: seq<Entry>
    var numbering: map<Expr, nat>
    const letSubstitutions: SymbolScope<nat>
    var number: nat

    predicate Valid()
      reads this, letSubstitutions
    {
      && Inverse(numbering, Exprs(entries))
      && letSubstitutions.Valid() && SubsIn(letSubstitutions.View(), Exprs(entries))
    }

    constructor ()
      ensures Valid() && fresh(letSubstitutions) && entries == [] && letSubstitutions.View() == map[]
    {
      entries := [];
      numbering := map[];
      letSubstitutions := new SymbolScope(map[]);
      number := 0;
    }

    method Mutate(e: Expr) returns (r: Expr)
      requires Valid()
      modifies this, letSubstitutions
      ensures Valid() && letSubstitutions.table == old(letSubstitutions.table)
      ensures (number, Exprs(entries)) == Number(e, old(letSubstitutions.View()), old(Exprs(entries)))
      ensures r == Exprs(entries)[number]
      ensures forall i :: old(|entries|) <= i < |entries| ==> entries[i].useCount == 0
      ensures old(entries) <= entries
      decreases Size(e), 2
    {
      if e.Var? {
        var redirected := letSubstitutions.Contains(e.name);
        if redirected {
          number := letSubstitutions.Get(e.name);
          return entries[number].expr;
        }
      }
      if e in numbering {
        InverseIndex(numbering, Exprs(entries), e);
        number := numbering[e];
        return entries[number].expr;
      }
      assert e !in Exprs(entries);
      if e.Let? {
        r := VisitLet(e);
      } else {
        r := Rebuild(e);
      }
    }

    /** References to the variable point to its value instead, and the let is gone. */
    method VisitLet(e: Expr) returns (r: Expr)
      requires Valid() && e.Let? && e !in Exprs(entries)
      modifies this, letSubstitutions
      ensures Valid() && letSubstitutions.table == old(letSubstitutions.table)
      ensures (number, Exprs(entries)) == Number(e, old(letSubstitutions.View()), old(Exprs(entries)))
      ensures r == Exprs(entries)[number]
      ensures forall i :: old(|entries|) <= i < |entries| ==> entries[i].useCount == 0
      ensures old(entries) <= entries
      decreases Size(e), 1
    {
      ChildSizes(e);
      OneSize(e.value);
      ghost var view := letSubstitutions.View();
      var value := Mutate(e.value);
      PopUndoesPush(letSubstitutions.table, e.name, number);
      letSubstitutions.Push(e.name, number);
      r := Mutate(e.body);
      letSubstitutions.Pop(e.name);
    }

    /** Rebuild from things already numbered; the result may be there in this other form. */
    method Rebuild(e: Expr) returns (r: Expr)
      requires Valid() && !e.Let? && e !in Exprs(entries) && !(e.Var? && e.name in letSubstitutions.View())
      modifies this, letSubstitutions
      ensures Valid() && letSubstitutions.table == old(letSubstitutions.table)
      ensures (number, Exprs(entries)) == Number(e, old(letSubstitutions.View()), old(Exprs(entries)))
      ensures r == Exprs(entries)[number]
      ensures forall i :: old(|entries|) <= i < |entries| ==> entries[i].useCount == 0
      ensures old(entries) <= entries
      decreases Size(e), 1
    {
      ChildSizes(e);
      ghost var subs, before := letSubstitutions.View(), Exprs(entries);
      var cs, ns := MutateAll(Children(e));
      r := WithChildren(e, cs);
      ghost var es := Exprs(entries);
      assert NumberAll(Children(e), subs, before) == (ns, es) && cs == At(es, ns);
      if r in numbering {
        InverseIndex(numbering, es, r);
        number := numbering[r];
        return entries[number].expr;
      }
      assert r !in es;
      number := |entries|;
      numbering := numbering[r := number];
      entries := entries + [Entry(r, 0)];
      assert Exprs(entries) == es + [r];
    }

    method MutateAll(es: seq<Expr>) returns (cs: seq<Expr>, ghost ns: seq<nat>)
      requires Valid()
      modifies this, letSubstitutions
      ensures Valid() && letSubstitutions.table == old(letSubstitutions.table)
      ensures NumberAll(es, old(letSubstitutions.View()), old(Exprs(entries))) == (ns, Exprs(entries))
      ensures cs == At(Exprs(entries), ns)
      ensures forall i :: old(|entries|) <= i < |entries| ==> entries[i].useCount == 0
      ensures old(entries) <= entries
      decreases Sizes(es), 0
    {
      if es == [] { return [], []; }
      var c := Mutate(es[0]);
      ghost var n, before := number, Exprs(entries);
      cs, ns := MutateAll(es[1..]);
      AtFirst(n, ns, before, Exprs(entries));
      cs, ns := [c] + cs, [n] + ns;
    }
  }

  /** Fills in the use counts of a numbering. */
  class ComputeUseCounts {
    const gvn: GVN
    var visited: set<Expr>
    ghost var tally: Tally

    ghost predicate Valid()
      reads this, gvn
    {
      && Inverse(gvn.numbering, Exprs(gvn.entries)) && visited == tally.visited
      && forall i :: 0 <= i < |gvn.entries| ==> gvn.entries[i].useCount == UseCount(gvn.entries[i].expr, tally)
    }

    constructor (g: GVN)
      requires Inverse(g.numbering, Exprs(g.entries)) && forall i :: 0 <= i < |g.entries| ==> g.entries[i].useCount == 0
      ensures Valid() && gvn == g && tally == NoTally
    {
      gvn := g;
      visited := {};
      tally := NoTally;
    }

    method Include(e: Expr)
      requires Valid()
      modifies this, gvn`entries
      ensures Valid() && tally == Counted(e, old(tally)) && Exprs(gvn.entries) == old(Exprs(gvn.entries))
      decreases Size(e), 0
    {
      ChildSizes(e);
      ghost var t := tally;
      tally := tally.(calls := tally.calls + multiset{e});
      if !ShouldExtract(e) {
        tally := tally.(expanded := tally.expanded + multiset{e});
        IncludeAll(Children(e));
        return;
      }
      Use(e);
      if e !in visited {
        visited := visited + {e};
        tally := Tally(t.visited + {e}, t.calls + multiset{e}, t.expanded + multiset{e});
        IncludeAll(Children(e));
      }
    }

    /** One more use of the expression, if it has an entry. */
    method Use(e: Expr)
      requires Inverse(gvn.numbering, Exprs(gvn.entries))
      modifies gvn`entries
      ensures Exprs(gvn.entries) == old(Exprs(gvn.entries))
      ensures |gvn.entries| == |old(gvn.entries)|
      ensures forall i :: 0 <= i < |gvn.entries| ==>
        && gvn.entries[i].expr == old(gvn.entries)[i].expr
        && gvn.entries[i].useCount == old(gvn.entries)[i].useCount + if gvn.entries[i].expr == e then 1 else 0
    {
      assert forall i :: 0 <= i < |gvn.entries| ==> gvn.entries[i].expr == Exprs(gvn.entries)[i];
      if e in gvn.numbering {
        var n := gvn.numbering[e];
        gvn.entries := gvn.entries[n := gvn.entries[n].(useCount := gvn.entries[n].useCount + 1)];
        assert Exprs(gvn.entries) == old(Exprs(gvn.entries));
      }
    }

    method IncludeAll(es: seq<Expr>)
      requires Valid()
      modifies this, gvn`entries
      ensures Valid() && tally == CountedAll(es, old(tally)) && Exprs(gvn.entries) == old(Exprs(gvn.entries))
      decreases Sizes(es), 0
    {
      if es != [] {
        Include(es[0]);
        IncludeAll(es[1..]);
      }
    }
  }

  ghost predicate Clean(e: Expr, erased: set<Expr>) { forall x :: x in erased ==> x !in Nodes(e) }

  ghost predicate CleanChildren(e: Expr, erased: set<Expr>) {
    forall i :: 0 <= i < |Children(e)| ==> Clean(Children(e)[i], erased)
  }

  lemma CleanParts(e: Expr, erased: set<Expr>)
    requires Clean(e, erased)
    ensures CleanChildren(e, erased)
  {
    forall i | 0 <= i < |Children(e)| ensures Clean(Children(e)[i], erased) { ChildNodes(e, i); }
  }

  /** Rebuilds expressions, remembering what it has rebuilt.  What was remembered of an
      expression that contains an erased one is out of date, and never looked up. */
  class Replacer {
    var replacements: Replacements
    ghost const base: Replacements
    ghost var erased: set<Expr>

    ghost predicate Valid()
      reads this
    {
      && base.Keys <= replacements.Keys + erased
      && forall x :: x in replacements && Clean(x, erased) ==> replacements[x] == Replaced(x, base)
    }

    constructor (m: Replacements)
      ensures Valid() && base == m && erased == {} && replacements == m
    {
      replacements := m;
      base := m;
      erased := {};
    }

    method Erase(e: Expr)
      requires Valid()
      modifies this
      ensures Valid() && erased == old(erased) + {e} && e !in replacements
    {
      replacements := replacements - {e};
      erased := erased + {e};
    }

    method Mutate(e: Expr) returns (r: Expr)
      requires Valid() && CleanChildren(e, erased)
      requires Clean(e, erased) || (e in erased && e !in replacements)
      modifies this`replacements
      ensures Valid() && r == if e in erased then Rebuilt(e, base) else Replaced(e, base)
      decreases Size(e), 0
    {
      ChildSizes(e);
      assert e in Nodes(e);
      if e in replacements { return replacements[e]; }
      var cs := MutateAll(Children(e));
      r := WithChildren(e, cs);
      replacements := replacements[e := r];
    }

    method MutateAll(es: seq<Expr>) returns (rs: seq<Expr>)
      requires Valid() && forall i :: 0 <= i < |es| ==> Clean(es[i], erased)
      modifies this`replacements
      ensures Valid() && rs == ReplacedAll(es, base)
      decreases Sizes(es), 0
    {
      if es == [] { return []; }
      CleanParts(es[0], erased);
      assert es[0] in Nodes(es[0]);
      var r := Mutate(es[0]);
      rs := MutateAll(es[1..]);
      rs := [r] + rs;
    }
  }

  lemma VariablesGrow(order: seq<Expr>, x: Expr, name: nat -> string)
    requires x !in order && Distinct(order)
    ensures Variables(order + [x], name) == Variables(order, name)[x := Var(TypeOf(x), name(|order|))]
  {
    var longer := order + [x];
    assert Distinct(longer);
    forall y | y in longer ensures Index(longer, y) == if y == x then |order| else Index(order, y) {
      IndexIs(longer, if y == x then |order| else Index(order, y));
    }
  }

  lemma {:induction false} SharedAppend(es: seq<Expr>, x: Expr, t: Tally)
    ensures Shared(es + [x], t) == Shared(es, t) + if UseCount(x, t) > 1 then [x] else []
  {
    if es == [] {
      assert es + [x] == [x];
    } else {
      assert (es + [x])[1..] == es[1..] + [x];
      SharedAppend(es[1..], x, t);
    }
  }

  /** A variable for each entry used more than once. */
  method ChooseLets(entries: seq<Entry>, name: nat -> string, ghost t: Tally) returns (order: seq<Expr>,
      m: Replacements)
    requires Distinct(Exprs(entries))
    requires forall i :: 0 <= i < |entries| ==> entries[i].useCount == UseCount(entries[i].expr, t)
    ensures order == Shared(Exprs(entries), t) && m == Variables(order, name)
  {
    order, m := [], map[];
    var i := 0;
    ghost var es := Exprs(entries);
    while i < |entries|
      invariant 0 <= i <= |entries|
      invariant order == Shared(es[..i], t) && m == Variables(order, name)
      invariant Distinct(order) && forall x :: x in order ==> x in es[..i]
    {
      var x := entries[i].expr;
      assert es[..i + 1] == es[..i] + [es[i]];
      SharedAppend(es[..i], x, t);
      if entries[i].useCount > 1 {
        VariablesGrow(order, x, name);
        m := m[x := Var(TypeOf(x), name(|order|))];
        order := order + [x];
      }
      i := i + 1;
    }
    assert es[..i] == es;
  }

  /** Wrap the lets around the body, innermost first.  Each shared expression is dropped as
      a replacement before its own value is rebuilt. */
  method WrapLets(replacer: Replacer, order: seq<Expr>, name: nat -> string, root: Expr) returns (r: Expr)
    requires replacer.Valid() && replacer.erased == {} && replacer.base == Variables(order, name)
    requires Distinct(order) && PartsFirst(order)
    modifies replacer
    ensures r == Chain(order, 0, name, replacer.base, Replaced(root, replacer.base))
  {
    assert Clean(root, {}) && CleanChildren(root, {});
    r := replacer.Mutate(root);
    ghost var body := r;
    var i := |order|;
    while i > 0
      invariant 0 <= i <= |order| && replacer.Valid()
      invariant replacer.erased == set k | i <= k < |order| :: order[k]
      invariant r == Chain(order, i, name, replacer.base, body)
    {
      i := i - 1;
      var value := order[i];
      replacer.Erase(value);
      LaterIsClean(order, i, replacer.erased);
      value := replacer.Mutate(value);
      r := Let(name(i), value, r);
    }
  }

  lemma LaterIsClean(order: seq<Expr>, i: nat, erased: set<Expr>)
    requires i < |order| && Distinct(order) && PartsFirst(order)
    requires erased == set k | i <= k < |order| :: order[k]
    ensures CleanChildren(order[i], erased)
  {
    var cs := Children(order[i]);
    forall c, x | 0 <= c < |cs| && x in erased ensures x !in Nodes(cs[c]) {
      if x in Nodes(cs[c]) {
        NodesAt(cs, c);
        EarlierPart(order, i, x);
      }
    }
  }

  lemma EarlierPart(order: seq<Expr>, i: nat, x: Expr)
    requires i < |order| && Distinct(order) && PartsFirst(order) && x in NodesOf(Children(order[i]))
    ensures forall k :: i <= k < |order| ==> order[k] != x
  {
    if x in order { assert x in order[..i]; }
  }

  /** common_subexpression_elimination as it runs: numbering, counting, then wrapping the lets. */
  method CommonSubexpressionElimination(e: Expr, name: nat -> string) returns (r: Expr)
    requires LetNames(e) !! FV(e)
    ensures r == Eliminate(e, name)
  {
    if IsConst(e) || e.Var? { return e; }
    var gvn := new GVN();
    var root := gvn.Mutate(e);
    CanonicalIsCanon(e);
    ghost var es := Exprs(gvn.entries);
    assert (gvn.number, es) == Number(e, map[], []);
    var counter := new ComputeUseCounts(gvn);
    counter.Include(root);
    SharedInOrder(es, LetNames(e), counter.tally);
    var order, m := ChooseLets(gvn.entries, name, counter.tally);
    var replacer := new Replacer(m);
    r := WrapLets(replacer, order, name, root);
  }
}
