/** Common subexpression elimination keeps the value of an expression and its let-free form,
    and each let it adds mentions only the lets outside it. */
module CseTheorems {
  import opened IR
  import opened Trees
  import opened IntervalSoundness
  import opened Cse
  import opened CseMeaning

  // ---------- the order of the lets ----------

  predicate Distinct<T(==)>(es: seq<T>) { forall i, j :: 0 <= i < j < |es| ==> es[i] != es[j] }

  /** What a shared expression is made of comes before it. */
  ghost predicate PartsFirst(order: seq<Expr>) {
    forall i, x :: 0 <= i < |order| && x in NodesOf(Children(order[i])) && x in order ==> x in order[..i]
  }

  lemma {:induction false} NodesBefore(entries: seq<Expr>, bound: set<string>, i: nat, x: Expr)
    requires Numbering(entries, bound) && i < |entries| && x in NodesOf(Children(entries[i]))
    ensures x in entries[..i]
    decreases i
  {
    var cs := Children(entries[i]);
    assert ChildrenBefore(entries, i);
    NodeOfOne(cs, x);
    var k :| 0 <= k < |cs| && x in Nodes(cs[k]);
    var j :| 0 <= j < i && entries[j] == cs[k];
    if x != cs[k] { NodesBefore(entries, bound, j, x); }
  }

  lemma {:induction false} SharedMembers(entries: seq<Expr>, t: Tally, x: Expr)
    ensures x in Shared(entries, t) <==> x in entries && UseCount(x, t) > 1
  {
    if entries != [] { SharedMembers(entries[1..], t, x); }
  }

  /** Where the i-th shared expression stands among the entries. */
  lemma {:induction false} SharedAt(entries: seq<Expr>, t: Tally, i: nat) returns (k: nat)
    requires i < |Shared(entries, t)|
    ensures k < |entries| && entries[k] == Shared(entries, t)[i] && Shared(entries[..k], t) == Shared(entries, t)[..i]
  {
    var first := if UseCount(entries[0], t) > 1 then [entries[0]] else [];
    var rest := Shared(entries[1..], t);
    assert Shared(entries, t) == first + rest;
    if i < |first| {
      k := 0;
      assert entries[..0] == [];
    } else {
      k := SharedAt(entries[1..], t, i - |first|);
      k := k + 1;
      assert entries[..k][1..] == entries[1..][..k - 1] && entries[..k][0] == entries[0];
      assert (first + rest)[..i] == first + rest[..i - |first|];
    }
  }

  lemma SharedInOrder(entries: seq<Expr>, bound: set<string>, t: Tally)
    requires Numbering(entries, bound)
    ensures Distinct(Shared(entries, t)) && PartsFirst(Shared(entries, t))
  {
    var order := Shared(entries, t);
    forall i, j | 0 <= i < j < |order| ensures order[i] != order[j] {
      var k := SharedAt(entries, t, j);
      assert order[i] in order[..j];
      SharedMembers(entries[..k], t, order[i]);
    }
    forall i, x | 0 <= i < |order| && x in NodesOf(Children(order[i])) && x in order ensures x in order[..i] {
      var k := SharedAt(entries, t, i);
      NodesBefore(entries, bound, k, x);
      SharedMembers(entries, t, x);
      SharedMembers(entries[..k], t, x);
    }
  }

  lemma {:induction false} CallsAreNodes(e: Expr, t: Tally, x: Expr)
    requires x in Counted(e, t).calls
    ensures x in t.calls || x in Nodes(e)
    decreases Size(e), 0
  {
    ChildSizes(e);
    var calls := t.calls + multiset{e};
    if !ShouldExtract(e) {
      CallsAreNodesAll(Children(e), Tally(t.visited, calls, t.expanded + multiset{e}), x);
    } else if e !in t.visited {
      CallsAreNodesAll(Children(e), Tally(t.visited + {e}, calls, t.expanded + multiset{e}), x);
    }
  }

  lemma {:induction false} CallsAreNodesAll(es: seq<Expr>, t: Tally, x: Expr)
    requires x in CountedAll(es, t).calls
    ensures x in t.calls || x in NodesOf(es)
    decreases Sizes(es), 0
  {
    if es != [] {
      CallsAreNodesAll(es[1..], Counted(es[0], t), x);
      if x in Counted(es[0], t).calls { CallsAreNodes(es[0], t, x); }
    }
  }

  /** The parts of a plain expression inherit what is known of it. */
  lemma {:induction false} NodeFacts(e: Expr, g: Context, x: Expr)
    requires LetFree(e) && x in Nodes(e)
    ensures LetFree(x) && FV(x) <= FV(e) && (WellTyped(e, g) ==> WellTyped(x, g))
    decreases Size(e)
  {
    if x != e {
      NodeOfOne(Children(e), x);
      var i :| 0 <= i < |Children(e)| && x in Nodes(Children(e)[i]);
      ChildSmaller(e, i);
      PlainChildren(e, {});
      ChildFV(e, i);
      if WellTyped(e, g) { WellTypedChildren(e, g); }
      NodeFacts(Children(e)[i], g, x);
    }
  }

  lemma {:induction false} IndexOfDistinct<T>(es: seq<T>, i: nat)
    requires Distinct(es) && i < |es|
    ensures Index(es, es[i]) == i
  {
    if i > 0 {
      assert es[i] == es[1..][i - 1] && es[0] != es[i];
      assert Distinct(es[1..]);
      IndexOfDistinct(es[1..], i - 1);
    }
  }

  /** The names of the lets, in order and all different. */
  ghost predicate Supply(name: nat -> string, avoid: set<string>) {
    && (forall i, j :: name(i) == name(j) ==> i == j)
    && (forall i :: name(i) !in avoid)
  }

  /** All that the proofs need to know about the elimination of one expression. */
  ghost predicate Plan(root: Expr, order: seq<Expr>, name: nat -> string, names: set<string>) {
    && LetFree(root) && FV(root) <= names && Supply(name, names)
    && Distinct(order) && PartsFirst(order)
    && forall x :: x in order ==> x in Nodes(root) && ShouldExtract(x)
  }

  /** The elimination follows a plan: the root is the let-free form, the order that of its
      entries used more than once. */
  lemma EliminationPlan(e: Expr, name: nat -> string)
    requires LetNames(e) !! FV(e) && Supply(name, FV(e))
    ensures Plan(Canonical(e), Extracted(e), name, FV(e))
    ensures forall x :: x in Extracted(e) <==> UseCount(x, Counted(Canonical(e), NoTally)) > 1
  {
    var (n, entries) := Number(e, map[], []);
    var root := entries[n];
    var t := Counted(root, NoTally);
    CanonicalIsCanon(e);
    CanonMentions(e);
    SharedInOrder(entries, LetNames(e), t);
    forall x ensures x in Extracted(e) <==> UseCount(x, t) > 1 {
      SharedMembers(entries, t, x);
      if UseCount(x, t) > 1 {
        CallsAreNodes(root, NoTally, x);
        if x != root { NodesBefore(entries, LetNames(e), n, x); }
      }
    }
    forall x | x in Extracted(e) ensures x in Nodes(root) && ShouldExtract(x) {
      CallsAreNodes(root, NoTally, x);
    }
  }

  lemma VariableOf(order: seq<Expr>, name: nat -> string, i: nat)
    requires Distinct(order) && i < |order|
    ensures Variables(order, name)[order[i]] == Var(TypeOf(order[i]), name(i))
  {
    IndexOfDistinct(order, i);
  }

  // ---------- value ----------

  /** The environment inside the first i lets. */
  ghost predicate Inside(order: seq<Expr>, i: nat, name: nat -> string, names: set<string>, w: World, env: Env,
      inner: Env)
    requires i <= |order|
  {
    && inner.lane == env.lane
    && (forall j :: 0 <= j < i ==> inner.Get(name(j)) == Eval(order[j], w, env))
    && (forall n :: n in names ==> inner.Get(n) == env.Get(n))
  }

  lemma InsideHolds(order: seq<Expr>, i: nat, name: nat -> string, names: set<string>, nodes: multiset<Expr>,
      w: World, env: Env, inner: Env)
    requires i <= |order| && Distinct(order) && Inside(order, i, name, names, w, env, inner)
    requires forall x :: x in nodes && x in order ==> x in order[..i]
    ensures Holds(Variables(order, name), nodes, w, env, inner)
  {
    forall x | x in nodes && x in order
      ensures Variables(order, name)[x] == Var(TypeOf(x), name(Index(order, x))) && inner.Get(name(Index(order, x))) == Eval(x, w, env) {
      var j :| 0 <= j < i && order[j] == x;
      IndexOfDistinct(order, j);
    }
  }

  /** Entering one more let. */
  lemma InsideNext(root: Expr, order: seq<Expr>, i: nat, name: nat -> string, names: set<string>, w: World, env: Env,
      inner: Env)
    requires Plan(root, order, name, names) && i < |order| && Inside(order, i, name, names, w, env, inner)
    ensures Inside(order, i + 1, name, names, w, env, inner.Set(name(i), Eval(order[i], w, env)))
  {}

  lemma LetValueMeans(root: Expr, order: seq<Expr>, i: nat, name: nat -> string, names: set<string>, g: Context,
      w: World, env: Env, inner: Env)
    requires Plan(root, order, name, names) && i < |order| && WellTyped(root, g)
    requires Inside(order, i, name, names, w, env, inner)
    ensures Eval(Rebuilt(order[i], Variables(order, name)), w, inner) == Eval(order[i], w, env)
  {
    var m, x := Variables(order, name), order[i];
    NodeFacts(root, g, x);
    InsideHolds(order, i, name, names, NodesOf(Children(x)), w, env, inner);
    RebuiltMeans(x, m, g, w, env, inner);
  }

  lemma BodyMeans(root: Expr, order: seq<Expr>, name: nat -> string, names: set<string>, g: Context, w: World,
      env: Env, inner: Env)
    requires Plan(root, order, name, names) && WellTyped(root, g) && Inside(order, |order|, name, names, w, env, inner)
    ensures Eval(Replaced(root, Variables(order, name)), w, inner) == Eval(root, w, env)
  {
    assert order[..|order|] == order;
    InsideHolds(order, |order|, name, names, Nodes(root), w, env, inner);
    ReplacedMeans(root, Variables(order, name), g, w, env, inner);
  }

  lemma {:induction false} ChainMeans(root: Expr, order: seq<Expr>, i: nat, name: nat -> string, names: set<string>,
      g: Context, w: World, env: Env, inner: Env)
    requires Plan(root, order, name, names) && i <= |order| && WellTyped(root, g)
    requires Inside(order, i, name, names, w, env, inner)
    ensures var m := Variables(order, name);
            Eval(Chain(order, i, name, m, Replaced(root, m)), w, inner) == Eval(root, w, env)
    decreases |order| - i
  {
    if i == |order| {
      BodyMeans(root, order, name, names, g, w, env, inner);
    } else {
      LetValueMeans(root, order, i, name, names, g, w, env, inner);
      InsideNext(root, order, i, name, names, w, env, inner);
      ChainMeans(root, order, i + 1, name, names, g, w, env, inner.Set(name(i), Eval(order[i], w, env)));
    }
  }

  /** Elimination preserves the value of every expression, in every environment. */
  lemma EliminatePreserves(e: Expr, name: nat -> string, g: Context, w: World, env: Env)
    requires WellTyped(e, g) && LetNames(e) !! FV(e) && Supply(name, FV(e))
    ensures Eval(Eliminate(e, name), w, env) == Eval(e, w, env)
  {
    if !(IsConst(e) || e.Var?) {
      CanonicalIsCanon(e);
      CanonMeans(e, map[], g, g, w, env, env);
      EliminationPlan(e, name);
      ChainMeans(Canonical(e), Extracted(e), 0, name, FV(e), g, w, env, env);
    }
  }

  // ---------- scoping ----------

  lemma {:induction false} RebuiltMentions(e: Expr, m: Replacements, names: set<string>)
    requires LetFree(e) && FV(e) <= names
    requires forall x :: x in NodesOf(Children(e)) && x in m ==> m[x].Var? && m[x].name in names
    ensures FV(Rebuilt(e, m)) <= names && LetFree(Rebuilt(e, m))
    decreases Size(e), 0
  {
    if !e.Var? {
      var cs := ReplacedAll(Children(e), m);
      ReplacedAt(Children(e), m);
      PlainChildren(e, {});
      forall i | 0 <= i < |cs| ensures FV(cs[i]) <= names && Plain(cs[i], {}) {
        ChildSmaller(e, i);
        NodesAt(Children(e), i);
        ChildFV(e, i);
        ReplacedMentions(Children(e)[i], m, names);
      }
      PlainRebuilt(e, cs, {});
      ChildrenOfRebuilt(e, cs);
      FVOfChildren(WithChildren(e, cs), names);
    }
  }

  lemma {:induction false} ReplacedMentions(e: Expr, m: Replacements, names: set<string>)
    requires LetFree(e) && FV(e) <= names
    requires forall x :: x in Nodes(e) && x in m ==> m[x].Var? && m[x].name in names
    ensures FV(Replaced(e, m)) <= names && LetFree(Replaced(e, m))
    decreases Size(e), 1
  {
    if e in m { assert e in Nodes(e); } else { RebuiltMentions(e, m, names); }
  }

  /** Each let's value mentions only names from outside: the free ones, and those of the
      lets around it. */
  predicate Scoped(e: Expr, outer: set<string>) {
    if e.Let? then LetFree(e.value) && FV(e.value) <= outer && e.name !in outer && Scoped(e.body, outer + {e.name})
    else LetFree(e) && FV(e) <= outer
  }

  function Earlier(i: nat, name: nat -> string): set<string> { set j | 0 <= j < i :: name(j) }

  lemma EarlierVariables(order: seq<Expr>, i: nat, name: nat -> string, names: set<string>, nodes: multiset<Expr>)
    requires Distinct(order) && i <= |order|
    requires forall x :: x in nodes && x in order ==> x in order[..i]
    ensures forall x :: x in nodes && x in Variables(order, name) ==>
              Variables(order, name)[x].Var? && Variables(order, name)[x].name in names + Earlier(i, name)
  {
    forall x | x in nodes && x in order ensures Variables(order, name)[x].name in Earlier(i, name) {
      var j :| 0 <= j < i && order[j] == x;
      VariableOf(order, name, j);
    }
  }

  lemma {:induction false} ChainScoped(root: Expr, order: seq<Expr>, i: nat, name: nat -> string, names: set<string>)
    requires Plan(root, order, name, names) && i <= |order|
    ensures var m := Variables(order, name);
            Scoped(Chain(order, i, name, m, Replaced(root, m)), names + Earlier(i, name))
    decreases |order| - i
  {
    var m := Variables(order, name);
    if i == |order| {
      assert order[..i] == order;
      EarlierVariables(order, i, name, names, Nodes(root));
      ReplacedMentions(root, m, names + Earlier(i, name));
      NotALet(Replaced(root, m));
    } else {
      var g := Context(map[], map[]);
      NodeFacts(root, g, order[i]);
      EarlierVariables(order, i, name, names, NodesOf(Children(order[i])));
      RebuiltMentions(order[i], m, names + Earlier(i, name));
      assert Earlier(i + 1, name) == Earlier(i, name) + {name(i)};
      assert name(i) !in Earlier(i, name);
      assert names + Earlier(i + 1, name) == (names + Earlier(i, name)) + {name(i)};
      ChainScoped(root, order, i + 1, name, names);
    }
  }

  lemma NotALet(e: Expr)
    requires LetFree(e)
    ensures !e.Let?
  {}

  /** Every let the elimination adds refers only to free variables and to lets further out,
      and the result has no free variable the input had not. */
  lemma EliminateScopes(e: Expr, name: nat -> string)
    requires LetNames(e) !! FV(e) && Supply(name, FV(e))
    ensures Scoped(Eliminate(e, name), FV(e)) && FV(Eliminate(e, name)) <= FV(e)
  {
    if !(IsConst(e) || e.Var?) {
      EliminationPlan(e, name);
      ChainScoped(Canonical(e), Extracted(e), 0, name, FV(e));
      assert FV(e) + Earlier(0, name) == FV(e);
    } else if IsConst(e) {
      ConstIsLetFree(e);
      ConstClosed(e);
    } else {
      assert Children(e) == [];
    }
    ScopedMentions(Eliminate(e, name), FV(e));
  }

  lemma {:induction false} ScopedMentions(e: Expr, outer: set<string>)
    requires Scoped(e, outer)
    ensures FV(e) <= outer
  {
    if e.Let? { ScopedMentions(e.body, outer + {e.name}); }
  }

  lemma {:induction false} ConstIsLetFree(e: Expr)
    requires IsConst(e)
    ensures LetFree(e) && !e.Let?
    decreases Size(e)
  {
    ChildSizes(e);
    LetFreeAt(Children(e));
    forall i | 0 <= i < |Children(e)| ensures LetFree(Children(e)[i]) {
      ChildSmaller(e, i);
      ConstIsLetFree(Children(e)[i]);
    }
  }

  // ---------- the same let-free form ----------

  /** Putting the expressions back for their variables undoes the replacement. */
  lemma {:induction false} ReplacedBack(e: Expr, m: Replacements, values: map<string, Expr>, avoid: set<string>)
    requires Plain(e, avoid) && values.Keys <= avoid
    requires forall x :: x in Nodes(e) && x in m ==> m[x].Var? && m[x].name in values && values[m[x].name] == x
    ensures Canon(Replaced(e, m), values) == e
    decreases Size(e), 1
  {
    if e in m { assert e in Nodes(e); } else { RebuiltBack(e, m, values, avoid); }
  }

  lemma {:induction false} RebuiltBack(e: Expr, m: Replacements, values: map<string, Expr>, avoid: set<string>)
    requires Plain(e, avoid) && values.Keys <= avoid
    requires forall x :: x in NodesOf(Children(e)) && x in m ==> m[x].Var? && m[x].name in values && values[m[x].name] == x
    ensures Canon(Rebuilt(e, m), values) == e
    decreases Size(e), 0
  {
    if e.Var? {
      assert Rebuilt(e, m) == e;
    } else {
      var cs := ReplacedAll(Children(e), m);
      var r := WithChildren(e, cs);
      ChildSizes(r);
      ReplacedAt(Children(e), m);
      PlainChildren(e, avoid);
      ChildrenOfRebuilt(e, cs);
      CanonAt(cs, values);
      forall i | 0 <= i < |cs| ensures Canon(cs[i], values) == Children(e)[i] {
        ChildSmaller(e, i);
        NodesAt(Children(e), i);
        ReplacedBack(Children(e)[i], m, values, avoid);
      }
      assert CanonAll(cs, values) == Children(e);
      Regrown(e, cs, values);
    }
  }

  lemma Regrown(e: Expr, cs: seq<Expr>, values: map<string, Expr>)
    requires !e.Var? && !e.Let? && |cs| == |Children(e)| && CanonAll(cs, values) == Children(e)
    ensures Canon(WithChildren(e, cs), values) == e
  {
    var r := WithChildren(e, cs);
    ChildrenOfRebuilt(e, cs);
    ChildSizes(r);
    assert Canon(r, values) == WithChildren(r, Children(e));
    SwapChildren(e, cs);
  }

  lemma SwapChildren(e: Expr, cs: seq<Expr>)
    requires |cs| == |Children(e)|
    ensures |Children(WithChildren(e, cs))| == |cs| && WithChildren(WithChildren(e, cs), Children(e)) == e
  {}

  /** The let-free values of the first i names. */
  function Named(order: seq<Expr>, i: nat, name: nat -> string): map<string, Expr>
    requires i <= |order|
  {
    if i == 0 then map[] else Named(order, i - 1, name)[name(i - 1) := order[i - 1]]
  }

  lemma {:induction false} NamedIs(order: seq<Expr>, i: nat, name: nat -> string, avoid: set<string>)
    requires i <= |order| && Supply(name, avoid)
    ensures forall j :: 0 <= j < i ==> name(j) in Named(order, i, name) && Named(order, i, name)[name(j)] == order[j]
    ensures Named(order, i, name).Keys == Earlier(i, name)
  {
    if i > 0 {
      NamedIs(order, i - 1, name, avoid);
      assert Earlier(i, name) == Earlier(i - 1, name) + {name(i - 1)};
    }
  }

  lemma NamedVariables(order: seq<Expr>, i: nat, name: nat -> string, avoid: set<string>, nodes: multiset<Expr>)
    requires Distinct(order) && i <= |order| && Supply(name, avoid)
    requires forall x :: x in nodes && x in order ==> x in order[..i]
    ensures var m, values := Variables(order, name), Named(order, i, name);
            forall x :: x in nodes && x in m ==> m[x].Var? && m[x].name in values && values[m[x].name] == x
  {
    NamedIs(order, i, name, avoid);
    forall x | x in nodes && x in order
      ensures Variables(order, name)[x].Var? && Variables(order, name)[x].name in Named(order, i, name)
      ensures Named(order, i, name)[Variables(order, name)[x].name] == x {
      var j :| 0 <= j < i && order[j] == x;
      VariableOf(order, name, j);
    }
  }

  lemma LetValueBack(root: Expr, order: seq<Expr>, i: nat, name: nat -> string, names: set<string>)
    requires Plan(root, order, name, names) && i < |order|
    ensures Canon(Rebuilt(order[i], Variables(order, name)), Named(order, i, name)) == order[i]
  {
    NamedIs(order, i, name, names);
    NodeFacts(root, Context(map[], map[]), order[i]);
    NamedVariables(order, i, name, names, NodesOf(Children(order[i])));
    RebuiltBack(order[i], Variables(order, name), Named(order, i, name), Earlier(i, name));
  }

  lemma BodyBack(root: Expr, order: seq<Expr>, name: nat -> string, names: set<string>)
    requires Plan(root, order, name, names)
    ensures Canon(Replaced(root, Variables(order, name)), Named(order, |order|, name)) == root
  {
    assert order[..|order|] == order;
    NamedIs(order, |order|, name, names);
    NamedVariables(order, |order|, name, names, Nodes(root));
    ReplacedBack(root, Variables(order, name), Named(order, |order|, name), Earlier(|order|, name));
  }

  lemma {:induction false} ChainCanon(root: Expr, order: seq<Expr>, i: nat, name: nat -> string, names: set<string>)
    requires Plan(root, order, name, names) && i <= |order|
    ensures var m := Variables(order, name);
            Canon(Chain(order, i, name, m, Replaced(root, m)), Named(order, i, name)) == root
    decreases |order| - i
  {
    if i == |order| {
      BodyBack(root, order, name, names);
    } else {
      LetValueBack(root, order, i, name, names);
      ChainCanon(root, order, i + 1, name, names);
    }
  }

  /** The input and the result have the same let-free form. */
  lemma EliminateKeepsForm(e: Expr, name: nat -> string)
    requires LetNames(e) !! FV(e) && Supply(name, FV(e))
    ensures Canon(Eliminate(e, name), map[]) == Canon(e, map[])
  {
    if !(IsConst(e) || e.Var?) {
      EliminationPlan(e, name);
      CanonicalIsCanon(e);
      ChainCanon(Canonical(e), Extracted(e), 0, name, FV(e));
    }
  }

  lemma {:induction false} ScopedLetNames(e: Expr, outer: set<string>)
    requires Scoped(e, outer)
    ensures LetNames(e) !! outer
  {
    if e.Let? {
      LetFreeNames(e.value);
      ScopedLetNames(e.body, outer + {e.name});
    } else {
      LetFreeNames(e);
    }
  }

  lemma {:induction false} LetFreeNames(e: Expr)
    requires LetFree(e)
    ensures LetNames(e) == {}
    decreases Size(e)
  {
    PlainChildren(e, {});
    forall i | 0 <= i < |Children(e)| ensures LetNames(Children(e)[i]) == {} {
      ChildSmaller(e, i);
      LetFreeNames(Children(e)[i]);
    }
    NoLetNames(e);
  }

  lemma NoLetNames(e: Expr)
    requires !e.Let? && forall i :: 0 <= i < |Children(e)| ==> LetNames(Children(e)[i]) == {}
    ensures LetNames(e) == {}
  {
    match e
    case Call(_, _, _, _, args) => assert Children(e) == args; NoLetNamesOf(args);
    case Select(c, tv, fv) => assert Children(e)[0] == c && Children(e)[1] == tv && Children(e)[2] == fv;
    case Bin(_, _, a, b) => assert Children(e)[0] == a && Children(e)[1] == b;
    case Ramp(a, b, _) => assert Children(e)[0] == a && Children(e)[1] == b;
    case Cast(_, a) => assert Children(e)[0] == a;
    case Not(a) => assert Children(e)[0] == a;
    case Load(_, _, a) => assert Children(e)[0] == a;
    case Broadcast(a, _) => assert Children(e)[0] == a;
    case _ =>
  }

  lemma {:induction false} NoLetNamesOf(es: seq<Expr>)
    requires forall i :: 0 <= i < |es| ==> LetNames(es[i]) == {}
    ensures LetNamesOf(es) == {}
  {
    if es != [] { NoLetNamesOf(es[1..]); }
  }
}
