/** Eliminating common subexpressions twice is eliminating them once: numbering the result
    enters the extracted expressions in the order of its lets. */
module CseAgain {
  import opened IR
  import opened Trees
  import opened IntervalSoundness
  import opened Cse
  import opened CseMeaning
  import opened CseTheorems

  // ---------- what numbering adds ----------

  /** Every entry is an old one or a part of one of the given expressions. */
  ghost predicate AddsOnly(entries: seq<Expr>, entries': seq<Expr>, nodes: multiset<Expr>) {
    forall x :: x in entries' ==> x in entries || x in nodes
  }

  lemma {:induction false} NumberAdds(e: Expr, subs: Subs, entries: seq<Expr>, bound: set<string>)
    requires LetFree(e) && SubsIn(subs, entries) && Numbering(entries, bound) && Separate(e, subs, bound)
    ensures AddsOnly(entries, Number(e, subs, entries).1, Nodes(Canon(e, Values(subs, entries))))
    decreases Size(e), 1
  {
    if !(e.Var? && e.name in subs) && e !in entries {
      var values, cs := Values(subs, entries), CanonAll(Children(e), Values(subs, entries));
      ChildSizes(e);
      SeparateChildren(e, subs, bound);
      LetFreeAt(Children(e));
      NumberAllAdds(Children(e), subs, entries, bound);
      NumberAllIsCanon(Children(e), subs, entries, bound);
      var (ns, entries') := NumberAll(Children(e), subs, entries);
      assert At(entries', ns) == cs;
      CanonNode(e, values);
    }
  }

  lemma CanonNode(e: Expr, values: map<string, Expr>)
    requires !e.Let? && !(e.Var? && e.name in values)
    ensures var r := WithChildren(e, CanonAll(Children(e), values));
            Canon(e, values) == r && Nodes(r) == multiset{r} + NodesOf(CanonAll(Children(e), values))
  {
    ChildrenOfRebuilt(e, CanonAll(Children(e), values));
  }

  lemma {:induction false} NumberAllAdds(es: seq<Expr>, subs: Subs, entries: seq<Expr>, bound: set<string>)
    requires SubsIn(subs, entries) && Numbering(entries, bound)
    requires forall i :: 0 <= i < |es| ==> LetFree(es[i]) && Separate(es[i], subs, bound)
    ensures AddsOnly(entries, NumberAll(es, subs, entries).1, NodesOf(CanonAll(es, Values(subs, entries))))
    decreases Sizes(es), 0
  {
    if es != [] {
      var (n, entries') := Number(es[0], subs, entries);
      NumberAdds(es[0], subs, entries, bound);
      NumberIsCanon(es[0], subs, entries, bound);
      SeparateRest(es, subs, bound);
      ValuesKept(subs, entries, entries');
      NumberAllAdds(es[1..], subs, entries', bound);
      var cs := CanonAll(es, Values(subs, entries));
      assert cs[1..] == CanonAll(es[1..], Values(subs, entries));
    }
  }

  // ---------- the shared entries ----------

  lemma {:induction false} SharedPrefix(entries: seq<Expr>, entries': seq<Expr>, t: Tally)
    requires entries <= entries'
    ensures Shared(entries, t) <= Shared(entries', t)
  {
    if entries != [] {
      assert entries[1..] <= entries'[1..];
      SharedPrefix(entries[1..], entries'[1..], t);
    }
  }

  /** The shared expressions are those of the order. */
  ghost predicate Counts(order: seq<Expr>, t: Tally) { forall x :: x in order <==> UseCount(x, t) > 1 }

  /** If the entries come to hold one more expression of the order, or none, it is the next. */
  lemma OneMoreShared(entries: seq<Expr>, entries': seq<Expr>, bound: set<string>, t: Tally, order: seq<Expr>, i: nat,
      k: nat)
    requires Numbering(entries', bound) && entries <= entries' && Distinct(order) && Counts(order, t)
    requires i <= k <= i + 1 && k <= |order| && Shared(entries, t) == order[..i]
    requires forall x :: x in order && x in entries' ==> x in order[..k]
    requires k == i || order[i] in entries'
    ensures Shared(entries', t) == order[..k]
  {
    var s := Shared(entries', t);
    SharedPrefix(entries, entries', t);
    SharedInOrder(entries', bound, t);
    forall x ensures x in s ==> x in order[..k] { SharedMembers(entries', t, x); }
    if k == i + 1 { SharedMembers(entries', t, order[i]); }
    GrownPrefix(s, order, i, k);
  }

  lemma GrownPrefix(s: seq<Expr>, order: seq<Expr>, i: nat, k: nat)
    requires Distinct(s) && Distinct(order) && i <= k <= i + 1 && k <= |order| && order[..i] <= s
    requires (forall x :: x in s ==> x in order[..k]) && (k == i || order[i] in s)
    ensures s == order[..k]
  {
    forall j | i <= j < |s| ensures k == i + 1 && s[j] == order[i] {
      assert s[j] in order[..k];
      assert s[..i] == order[..i];
      if s[j] in order[..i] { RepeatedAt(s, i, j); }
    }
    if |s| > i { AtMostOne(s, i, s[i]); }
    if k == i + 1 {
      RepeatedAt(order, i, i);
      assert s[..i] == order[..i];
    }
  }

  lemma AtMostOne(s: seq<Expr>, i: nat, x: Expr)
    requires Distinct(s) && i < |s| && forall j :: i <= j < |s| ==> s[j] == x
    ensures |s| == i + 1
  {
    if i + 1 < |s| { NextDiffers(s, i); }
  }

  lemma NextDiffers(s: seq<Expr>, i: nat)
    requires Distinct(s) && i + 1 < |s|
    ensures s[i] != s[i + 1]
  {}

  lemma RepeatedAt(s: seq<Expr>, i: nat, j: nat)
    requires Distinct(s) && i <= j < |s|
    ensures s[j] !in s[..i]
  {}

  // ---------- the chain ----------

  /** What is known where the i-th let of the result is numbered. */
  ghost predicate Midway(root: Expr, order: seq<Expr>, i: nat, name: nat -> string, names: set<string>, subs: Subs,
      entries: seq<Expr>, bound: set<string>, t: Tally) {
    && Plan(root, order, name, names) && i <= |order| && Counts(order, t)
    && SubsIn(subs, entries) && Numbering(entries, bound)
    && Separate(Rest(root, order, i, name), subs, bound)
    && Values(subs, entries) == Named(order, i, name)
    && Shared(entries, t) == order[..i]
    && (forall x :: x in order && x in entries ==> x in order[..i])
  }

  function Rest(root: Expr, order: seq<Expr>, i: nat, name: nat -> string): Expr
    requires i <= |order|
  {
    var m := Variables(order, name);
    Chain(order, i, name, m, Replaced(root, m))
  }

  /** Numbering the value of the i-th let enters the i-th expression, and no later one. */
  lemma NextNumber(root: Expr, order: seq<Expr>, i: nat, name: nat -> string, names: set<string>, subs: Subs,
      entries: seq<Expr>, bound: set<string>, t: Tally)
    requires Midway(root, order, i, name, names, subs, entries, bound, t) && i < |order|
    ensures var (n, entries') := Number(Rest(root, order, i, name).value, subs, entries);
            && Numbering(entries', bound) && entries'[n] == order[i]
            && forall x :: x in order && x in entries' ==> x in order[..i + 1]
  {
    var e := Rest(root, order, i, name);
    var (n, entries') := Number(e.value, subs, entries);
    SeparateLet(e, subs, bound, n);
    ChainScoped(root, order, i, name, names);
    LetValueBack(root, order, i, name, names);
    NumberIsCanon(e.value, subs, entries, bound);
    NumberAdds(e.value, subs, entries, bound);
    forall x | x in order && x in entries' ensures x in order[..i + 1] {
      if x !in entries && x != order[i] { assert x in NodesOf(Children(order[i])); }
    }
  }

  lemma NextEntries(root: Expr, order: seq<Expr>, i: nat, name: nat -> string, names: set<string>, subs: Subs,
      entries: seq<Expr>, bound: set<string>, t: Tally)
    requires Midway(root, order, i, name, names, subs, entries, bound, t) && i < |order|
    ensures var (n, entries') := Number(Rest(root, order, i, name).value, subs, entries);
            Midway(root, order, i + 1, name, names, subs[name(i) := n], entries', bound, t)
  {
    var e := Rest(root, order, i, name);
    var (n, entries') := Number(e.value, subs, entries);
    NextNumber(root, order, i, name, names, subs, entries, bound, t);
    SeparateLet(e, subs, bound, n);
    OneMoreShared(entries, entries', bound, t, order, i, i + 1);
    ValuesWith(subs, entries, entries', name(i), n);
  }

  lemma {:induction false} ChainNumbers(root: Expr, order: seq<Expr>, i: nat, name: nat -> string, names: set<string>,
      subs: Subs, entries: seq<Expr>, bound: set<string>, t: Tally)
    requires Midway(root, order, i, name, names, subs, entries, bound, t)
    ensures Shared(Number(Rest(root, order, i, name), subs, entries).1, t) == order
    decreases |order| - i
  {
    var e := Rest(root, order, i, name);
    if i == |order| {
      NumberIsCanon(e, subs, entries, bound);
      assert order[..i] == order;
      OneMoreShared(entries, Number(e, subs, entries).1, bound, t, order, i, i);
    } else {
      NextEntries(root, order, i, name, names, subs, entries, bound, t);
      if e in entries {
        var k :| 0 <= k < |entries| && entries[k] == e;
        assert Plain(entries[k], bound);
        NotALet(e);
      }
      var (n, entries') := Number(e.value, subs, entries);
      ChainNumbers(root, order, i + 1, name, names, subs[name(i) := n], entries', bound, t);
    }
  }

  /** Elimination is idempotent: the result has the same let-free form, the same expressions
      are extracted from it, in the same order, and so it is eliminated to itself. */
  lemma EliminateAgain(e: Expr, name: nat -> string)
    requires LetNames(e) !! FV(e) && Supply(name, FV(e))
    ensures var r := Eliminate(e, name);
            && LetNames(r) !! FV(r)
            && Canonical(r) == Canonical(e)
            && Extracted(r) == Extracted(e)
            && Eliminate(r, name) == r
  {
    var r := Eliminate(e, name);
    if !(IsConst(e) || e.Var?) {
      var root, order := Canonical(e), Extracted(e);
      EliminateScopes(e, name);
      ScopedLetNames(r, FV(e));
      EliminateKeepsForm(e, name);
      CanonicalIsCanon(e);
      CanonicalIsCanon(r);
      EliminationPlan(e, name);
      assert r == Rest(root, order, 0, name);
      assert Values(map[], []) == map[];
      ChainNumbers(root, order, 0, name, FV(e), map[], [], LetNames(r), Counted(root, NoTally));
    }
  }
}
