/** What elimination keeps: the numbering computes the let-free form, and the lets wrapped
    around it mean the same, each mentioning only those outside it. */
module CseMeaning {
  import opened IR
  import opened Trees
  import opened IntervalSoundness
  import opened Cse

  // ---------- the numbering ----------

  /** Entries are distinct, let-free, free of let-bound names, and follow their children. */
  ghost predicate Numbering(entries: seq<Expr>, bound: set<string>) {
    && (forall i, j :: 0 <= i < j < |entries| ==> entries[i] != entries[j])
    && (forall i :: 0 <= i < |entries| ==> Plain(entries[i], bound) && ChildrenBefore(entries, i))
  }

  predicate ChildrenBefore(entries: seq<Expr>, i: nat)
    requires i < |entries|
  {
    forall k :: 0 <= k < |Children(entries[i])| ==> Children(entries[i])[k] in entries[..i]
  }

  function Values(subs: Subs, entries: seq<Expr>): map<string, Expr>
    requires SubsIn(subs, entries)
  {
    map n | n in subs :: entries[subs[n]]
  }

  /** No let-bound name also occurs free. */
  predicate Separate(e: Expr, subs: Subs, bound: set<string>) {
    LetNames(e) + subs.Keys <= bound && FV(e) - subs.Keys !! bound
  }

  lemma SeparateChildren(e: Expr, subs: Subs, bound: set<string>)
    requires Separate(e, subs, bound) && !e.Let?
    ensures forall i :: 0 <= i < |Children(e)| ==> Separate(Children(e)[i], subs, bound)
  {
    forall i | 0 <= i < |Children(e)| ensures Separate(Children(e)[i], subs, bound) {
      ChildFV(e, i);
      ChildLetNames(e, i);
    }
  }

  lemma ChildLetNames(e: Expr, i: nat)
    requires i < |Children(e)|
    ensures LetNames(Children(e)[i]) <= LetNames(e)
  {
    if e.Call? { LetNamesAt(e.args, i); }
  }

  lemma {:induction false} LetNamesAt(es: seq<Expr>, i: nat)
    requires i < |es|
    ensures LetNames(es[i]) <= LetNamesOf(es)
  {
    if i > 0 { LetNamesAt(es[1..], i - 1); }
  }

  lemma SeparateLet(e: Expr, subs: Subs, bound: set<string>, n: nat)
    requires e.Let? && Separate(e, subs, bound)
    ensures Separate(e.value, subs, bound) && Separate(e.body, subs[e.name := n], bound)
  {}

  lemma ValuesKept(subs: Subs, entries: seq<Expr>, entries': seq<Expr>)
    requires SubsIn(subs, entries) && entries <= entries'
    ensures SubsIn(subs, entries') && Values(subs, entries) == Values(subs, entries')
  {
    forall n | n in subs ensures entries'[subs[n]] == entries[subs[n]] {}
  }

  /** The number found is that of the let-free form, and the numbering stays one. */
  lemma {:induction false} NumberIsCanon(e: Expr, subs: Subs, entries: seq<Expr>, bound: set<string>)
    requires SubsIn(subs, entries) && Numbering(entries, bound) && Separate(e, subs, bound)
    ensures var (n, entries') := Number(e, subs, entries);
            Numbering(entries', bound) && entries'[n] == Canon(e, Values(subs, entries))
    decreases Size(e), 1
  {
    if e.Var? && e.name in subs {
    } else if e in entries {
      PlainIsCanon(e, Values(subs, entries), bound);
    } else if e.Let? {
      NumberLet(e, subs, entries, bound);
    } else {
      NumberNode(e, subs, entries, bound);
    }
  }

  lemma {:induction false} NumberLet(e: Expr, subs: Subs, entries: seq<Expr>, bound: set<string>)
    requires e.Let? && e !in entries
    requires SubsIn(subs, entries) && Numbering(entries, bound) && Separate(e, subs, bound)
    ensures var (n, entries') := Number(e, subs, entries);
            Numbering(entries', bound) && entries'[n] == Canon(e, Values(subs, entries))
    decreases Size(e), 0
  {
    ChildSizes(e);
    var (n, entries') := Number(e.value, subs, entries);
    SeparateLet(e, subs, bound, n);
    NumberIsCanon(e.value, subs, entries, bound);
    NumberIsCanon(e.body, subs[e.name := n], entries', bound);
    ValuesWith(subs, entries, entries', e.name, n);
  }

  lemma ValuesWith(subs: Subs, entries: seq<Expr>, entries': seq<Expr>, name: string, n: nat)
    requires SubsIn(subs, entries) && entries <= entries' && n < |entries'|
    ensures SubsIn(subs[name := n], entries')
    ensures Values(subs[name := n], entries') == Values(subs, entries)[name := entries'[n]]
  {
    ValuesKept(subs, entries, entries');
  }

  lemma {:induction false} NumberNode(e: Expr, subs: Subs, entries: seq<Expr>, bound: set<string>)
    requires !(e.Var? && e.name in subs) && e !in entries && !e.Let?
    requires SubsIn(subs, entries) && Numbering(entries, bound) && Separate(e, subs, bound)
    ensures var (n, entries') := Number(e, subs, entries);
            Numbering(entries', bound) && entries'[n] == Canon(e, Values(subs, entries))
    decreases Size(e), 0
  {
    ChildSizes(e);
    SeparateChildren(e, subs, bound);
    NumberAllIsCanon(Children(e), subs, entries, bound);
    var (ns, entries') := NumberAll(Children(e), subs, entries);
    assert At(entries', ns) == CanonAll(Children(e), Values(subs, entries));
    NewEntry(e, ns, entries', bound);
  }

  lemma NewEntry(e: Expr, ns: seq<nat>, entries: seq<Expr>, bound: set<string>)
    requires Numbering(entries, bound) && NumbersIn(ns, entries) && |ns| == |Children(e)|
    requires !e.Let? && (e.Var? ==> e.name !in bound)
    ensures var r := WithChildren(e, At(entries, ns)); r !in entries ==> Numbering(entries + [r], bound)
  {
    var cs := At(entries, ns);
    var r := WithChildren(e, cs);
    ChildrenOfRebuilt(e, cs);
    if !e.Var? { PlainRebuilt(e, cs, bound); }
    if r !in entries {
      var entries' := entries + [r];
      forall i | 0 <= i < |entries'| ensures Plain(entries'[i], bound) && ChildrenBefore(entries', i) {
        if i < |entries| {
          assert entries'[..i] == entries[..i];
          assert ChildrenBefore(entries, i);
        } else {
          assert entries'[..i] == entries;
        }
      }
    }
  }

  lemma {:induction false} NumberAllIsCanon(es: seq<Expr>, subs: Subs, entries: seq<Expr>, bound: set<string>)
    requires SubsIn(subs, entries) && Numbering(entries, bound)
    requires forall i :: 0 <= i < |es| ==> Separate(es[i], subs, bound)
    ensures var (ns, entries') := NumberAll(es, subs, entries);
            Numbering(entries', bound) && At(entries', ns) == CanonAll(es, Values(subs, entries))
    decreases Sizes(es), 0
  {
    if es != [] {
      var (n, entries') := Number(es[0], subs, entries);
      var (ns, entries'') := NumberAll(es[1..], subs, entries');
      NumberIsCanon(es[0], subs, entries, bound);
      SeparateRest(es, subs, bound);
      ValuesKept(subs, entries, entries');
      NumberAllIsCanon(es[1..], subs, entries', bound);
      AtFirst(n, ns, entries', entries'');
    }
  }

  lemma SeparateRest(es: seq<Expr>, subs: Subs, bound: set<string>)
    requires es != [] && forall i :: 0 <= i < |es| ==> Separate(es[i], subs, bound)
    ensures forall i :: 0 <= i < |es[1..]| ==> Separate(es[1..][i], subs, bound)
  {}

  lemma AtFirst(n: nat, ns: seq<nat>, entries: seq<Expr>, entries': seq<Expr>)
    requires entries <= entries' && n < |entries| && NumbersIn(ns, entries')
    ensures NumbersIn([n] + ns, entries') && At(entries', [n] + ns) == [entries[n]] + At(entries', ns)
  {}

  /** An expression without clashing names is numbered as its let-free form. */
  lemma CanonicalIsCanon(e: Expr)
    requires LetNames(e) !! FV(e)
    ensures Canonical(e) == Canon(e, map[])
    ensures Numbering(Number(e, map[], []).1, LetNames(e))
  {
    NumberIsCanon(e, map[], [], LetNames(e));
    assert Values(map[], []) == map[];
  }

  // ---------- the let-free form means the same ----------

  /** The environment inside lets whose values have these forms. */
  ghost predicate Bound(values: map<string, Expr>, w: World, env: Env, inner: Env) {
    && inner.lane == env.lane
    && forall n :: inner.Get(n) == if n in values then Eval(values[n], w, env) else env.Get(n)
  }

  predicate ValuesTyped(values: map<string, Expr>, g: Context, g0: Context) {
    && g.funcs == g0.funcs
    && forall n :: n in g.vars ==>
         if n in values then WellTyped(values[n], g0) && TypeOf(values[n]) == g.vars[n]
         else n in g0.vars && g0.vars[n] == g.vars[n]
  }

  lemma {:induction false} CanonMeans(e: Expr, values: map<string, Expr>, g: Context, g0: Context, w: World, env: Env,
      inner: Env)
    requires WellTyped(e, g) && ValuesTyped(values, g, g0) && Bound(values, w, env, inner)
    ensures WellTyped(Canon(e, values), g0) && TypeOf(Canon(e, values)) == TypeOf(e)
    ensures Eval(Canon(e, values), w, env) == Eval(e, w, inner)
    decreases Size(e)
  {
    ChildSizes(e);
    if e.Var? {
      if e.name in values { TypeSound(values[e.name], g0, w, env); }
    } else if e.Let? {
      OneSize(e.value);
      var v := Canon(e.value, values);
      CanonMeans(e.value, values, g, g0, w, env, inner);
      CanonMeans(e.body, values[e.name := v], g.Bind(e.name, TypeOf(e.value)), g0, w, env,
          inner.Set(e.name, Eval(v, w, env)));
    } else {
      var cs := CanonAll(Children(e), values);
      CanonAt(Children(e), values);
      WellTypedChildren(e, g);
      forall i | 0 <= i < |cs|
        ensures WellTyped(cs[i], g0) && TypeOf(cs[i]) == TypeOf(Children(e)[i]) && Eval(cs[i], w, env) == Eval(Children(e)[i], w, inner) {
        ChildSmaller(e, i);
        CanonMeans(Children(e)[i], values, g, g0, w, env, inner);
      }
      RebuiltType(e, cs);
      RebuiltTyped(e, cs, g, g0);
      RebuiltValue(e, cs, w, inner, env);
    }
  }

  lemma {:induction false} CanonIsPlain(e: Expr, values: map<string, Expr>, avoid: set<string>)
    requires FV(e) - values.Keys !! avoid && forall n :: n in values ==> Plain(values[n], avoid)
    ensures Plain(Canon(e, values), avoid)
    decreases Size(e)
  {
    ChildSizes(e);
    if e.Let? {
      OneSize(e.value);
      CanonIsPlain(e.value, values, avoid);
      CanonIsPlain(e.body, values[e.name := Canon(e.value, values)], avoid);
    } else if !e.Var? {
      CanonAt(Children(e), values);
      forall i | 0 <= i < |Children(e)| ensures Plain(Canon(Children(e)[i], values), avoid) {
        ChildSmaller(e, i);
        ChildFV(e, i);
        CanonIsPlain(Children(e)[i], values, avoid);
      }
      PlainRebuilt(e, CanonAll(Children(e), values), avoid);
    }
  }

  /** The form mentions free variables of the expression only. */
  lemma CanonMentions(e: Expr)
    ensures FV(Canon(e, map[])) <= FV(e) && LetFree(Canon(e, map[]))
  {
    forall n | n in FV(Canon(e, map[])) ensures n in FV(e) {
      if n !in FV(e) { CanonIsPlain(e, map[], {n}); }
    }
    CanonIsPlain(e, map[], {});
  }

  // ---------- replacing means the same ----------

  /** Each replaced expression has a variable of its own type, and the variable its value. */
  ghost predicate Holds(m: Replacements, nodes: multiset<Expr>, w: World, env: Env, inner: Env) {
    forall x :: x in nodes && x in m ==>
      m[x].Var? && m[x].t == TypeOf(x) && inner.Get(m[x].name) == Eval(x, w, env)
  }

  ghost predicate Alike(e: Expr, env: Env, inner: Env) {
    inner.lane == env.lane && forall n :: n in FV(e) ==> inner.Get(n) == env.Get(n)
  }

  lemma {:induction false} RebuiltMeans(e: Expr, m: Replacements, g: Context, w: World, env: Env, inner: Env)
    requires LetFree(e) && WellTyped(e, g) && Alike(e, env, inner) && Holds(m, NodesOf(Children(e)), w, env, inner)
    ensures TypeOf(Rebuilt(e, m)) == TypeOf(e) && Eval(Rebuilt(e, m), w, inner) == Eval(e, w, env)
    decreases Size(e), 0
  {
    if e.Var? {
    } else {
      var cs := ReplacedAll(Children(e), m);
      ReplacedAt(Children(e), m);
      PlainChildren(e, {});
      WellTypedChildren(e, g);
      forall i | 0 <= i < |cs| ensures TypeOf(cs[i]) == TypeOf(Children(e)[i]) && Eval(cs[i], w, inner) == Eval(Children(e)[i], w, env) {
        ChildSmaller(e, i);
        NodesAt(Children(e), i);
        ChildFV(e, i);
        ReplacedMeans(Children(e)[i], m, g, w, env, inner);
      }
      RebuiltType(e, cs);
      RebuiltValue(e, cs, w, env, inner);
    }
  }

  lemma {:induction false} ReplacedMeans(e: Expr, m: Replacements, g: Context, w: World, env: Env, inner: Env)
    requires LetFree(e) && WellTyped(e, g) && Alike(e, env, inner) && Holds(m, Nodes(e), w, env, inner)
    ensures TypeOf(Replaced(e, m)) == TypeOf(e) && Eval(Replaced(e, m), w, inner) == Eval(e, w, env)
    decreases Size(e), 1
  {
    if e in m {
      assert e in Nodes(e);
      TypeSound(e, g, w, env);
    } else {
      RebuiltMeans(e, m, g, w, env, inner);
    }
  }
}
