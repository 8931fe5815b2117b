/** Elimination is complete: in its result no extractable expression stands at two positions,
    and each variable it introduces stands at exactly as many positions as were counted. */
module CseSharing {
  import opened IR
  import opened Trees
  import opened IntervalSoundness
  import opened Cse
  import opened CseMeaning
  import opened CseTheorems

  // ---------- the children of a collection ----------

  ghost function Pick(m: multiset<Expr>): (x: Expr)
    requires m != multiset{}
    ensures x in m
  {
    var x :| x in m;
    x
  }

  ghost function ChildrenOf(m: multiset<Expr>): multiset<Expr>
    decreases |m|
  {
    if m == multiset{} then multiset{} else multiset(Children(Pick(m))) + ChildrenOf(m - multiset{Pick(m)})
  }

  lemma {:induction false} ChildrenOfRemove(m: multiset<Expr>, x: Expr)
    requires x in m
    ensures ChildrenOf(m) == multiset(Children(x)) + ChildrenOf(m - multiset{x})
    decreases |m|
  {
    var y := Pick(m);
    if x != y {
      var both := m - multiset{x} - multiset{y};
      ChildrenOfRemove(m - multiset{y}, x);
      ChildrenOfRemove(m - multiset{x}, y);
      assert m - multiset{y} - multiset{x} == both;
      SwapSum(multiset(Children(x)), multiset(Children(y)), ChildrenOf(both));
    }
  }

  lemma SwapSum(a: multiset<Expr>, b: multiset<Expr>, c: multiset<Expr>)
    ensures a + (b + c) == b + (a + c)
  {}

  lemma {:induction false} ChildrenOfSum(a: multiset<Expr>, b: multiset<Expr>)
    ensures ChildrenOf(a + b) == ChildrenOf(a) + ChildrenOf(b)
    decreases |a|
  {
    if a == multiset{} {
      assert a + b == b;
    } else {
      var x :| x in a;
      ChildrenOfRemove(a, x);
      ChildrenOfRemove(a + b, x);
      assert a + b - multiset{x} == (a - multiset{x}) + b;
      ChildrenOfSum(a - multiset{x}, b);
    }
  }

  lemma ChildrenOfOne(x: Expr)
    ensures ChildrenOf(multiset{x}) == multiset(Children(x))
  {
    ChildrenOfRemove(multiset{x}, x);
    assert multiset{x} - multiset{x} == multiset{};
  }

  // ---------- counting ----------

  /** Every include is the root's or comes from a parent whose children were visited. */
  lemma {:induction false} CountFlow(e: Expr, t: Tally, pending: multiset<Expr>, rest: multiset<Expr>)
    requires t.calls + multiset{e} + rest == pending + ChildrenOf(t.expanded)
    ensures var t' := Counted(e, t); t'.calls + rest == pending + ChildrenOf(t'.expanded)
    decreases Size(e), 0
  {
    ChildSizes(e);
    var expanded := t.expanded + multiset{e};
    ChildrenOfSum(t.expanded, multiset{e});
    ChildrenOfOne(e);
    Shift(t.calls + multiset{e}, rest, pending, ChildrenOf(t.expanded), multiset(Children(e)));
    if !ShouldExtract(e) {
      CountFlowAll(Children(e), Tally(t.visited, t.calls + multiset{e}, expanded), pending, rest);
    } else if e !in t.visited {
      CountFlowAll(Children(e), Tally(t.visited + {e}, t.calls + multiset{e}, expanded), pending, rest);
    }
  }

  lemma Shift(calls: multiset<Expr>, rest: multiset<Expr>, pending: multiset<Expr>, below: multiset<Expr>,
      more: multiset<Expr>)
    requires calls + rest == pending + below
    ensures calls + more + rest == pending + (below + more)
  {
    assert calls + more + rest == (calls + rest) + more;
  }

  lemma Regroup(a: multiset<Expr>, b: multiset<Expr>, c: multiset<Expr>)
    ensures a + (b + c) == a + b + c
  {}

  lemma FirstApart(es: seq<Expr>, a: multiset<Expr>, rest: multiset<Expr>)
    requires es != []
    ensures a + multiset(es) + rest == a + multiset{es[0]} + (multiset(es[1..]) + rest)
  {
    assert es == [es[0]] + es[1..];
  }

  lemma {:induction false} CountFlowAll(es: seq<Expr>, t: Tally, pending: multiset<Expr>, rest: multiset<Expr>)
    requires t.calls + multiset(es) + rest == pending + ChildrenOf(t.expanded)
    ensures var t' := CountedAll(es, t); t'.calls + rest == pending + ChildrenOf(t'.expanded)
    decreases Sizes(es), 0
  {
    if es != [] {
      FirstApart(es, t.calls, rest);
      CountFlow(es[0], t, pending, multiset(es[1..]) + rest);
      Regroup(Counted(es[0], t).calls, multiset(es[1..]), rest);
      CountFlowAll(es[1..], Counted(es[0], t), pending, rest);
    }
  }

  /** An extractable expression has its children visited once, others every time. */
  ghost predicate Tallied(t: Tally) {
    forall x :: if ShouldExtract(x) then (x in t.visited <==> x in t.calls) && t.expanded[x] == B2I(x in t.visited)
                else t.expanded[x] == t.calls[x]
  }

  lemma {:induction false} TallyKept(e: Expr, t: Tally)
    requires Tallied(t)
    ensures Tallied(Counted(e, t))
    decreases Size(e), 0
  {
    ChildSizes(e);
    var calls, expanded := t.calls + multiset{e}, t.expanded + multiset{e};
    if !ShouldExtract(e) {
      TallyKeptAll(Children(e), Tally(t.visited, calls, expanded));
    } else if e !in t.visited {
      TallyKeptAll(Children(e), Tally(t.visited + {e}, calls, expanded));
    }
  }

  lemma {:induction false} TallyKeptAll(es: seq<Expr>, t: Tally)
    requires Tallied(t)
    ensures Tallied(CountedAll(es, t))
    decreases Sizes(es), 0
  {
    if es != [] {
      TallyKept(es[0], t);
      TallyKeptAll(es[1..], Counted(es[0], t));
    }
  }

  // ---------- positions ----------

  /** The expressions at the positions of e, above which nothing is replaced. */
  function Pos(e: Expr, m: Replacements): multiset<Expr>
    decreases Size(e), 0
  {
    ChildSizes(e);
    multiset{e} + if e in m then multiset{} else PosOf(Children(e), m)
  }

  function PosOf(es: seq<Expr>, m: Replacements): multiset<Expr>
    decreases Sizes(es), 0
  {
    if es == [] then multiset{} else Pos(es[0], m) + PosOf(es[1..], m)
  }

  /** Those of them that are rebuilt rather than replaced. */
  function Kept(e: Expr, m: Replacements): multiset<Expr>
    decreases Size(e), 0
  {
    ChildSizes(e);
    if e in m then multiset{} else multiset{e} + KeptOf(Children(e), m)
  }

  function KeptOf(es: seq<Expr>, m: Replacements): multiset<Expr>
    decreases Sizes(es), 0
  {
    if es == [] then multiset{} else Kept(es[0], m) + KeptOf(es[1..], m)
  }

  /** Positions in the values of the lets, apart from the values themselves. */
  function LetPos(order: seq<Expr>, m: Replacements): multiset<Expr> {
    if order == [] then multiset{} else PosOf(Children(order[0]), m) + LetPos(order[1..], m)
  }

  function LetKept(order: seq<Expr>, m: Replacements): multiset<Expr> {
    if order == [] then multiset{} else multiset{order[0]} + KeptOf(Children(order[0]), m) + LetKept(order[1..], m)
  }

  lemma {:induction false} PosFlow(e: Expr, m: Replacements)
    ensures Pos(e, m) == multiset{e} + ChildrenOf(Kept(e, m))
    decreases Size(e), 0
  {
    ChildSizes(e);
    PosFlowAll(Children(e), m);
    ChildrenOfSum(multiset{e}, KeptOf(Children(e), m));
    ChildrenOfOne(e);
  }

  lemma {:induction false} PosFlowAll(es: seq<Expr>, m: Replacements)
    ensures PosOf(es, m) == multiset(es) + ChildrenOf(KeptOf(es, m))
    decreases Sizes(es), 0
  {
    if es != [] {
      assert es == [es[0]] + es[1..];
      PosFlow(es[0], m);
      PosFlowAll(es[1..], m);
      ChildrenOfSum(Kept(es[0], m), KeptOf(es[1..], m));
    }
  }

  lemma {:induction false} LetFlow(order: seq<Expr>, m: Replacements)
    ensures LetPos(order, m) == ChildrenOf(LetKept(order, m))
  {
    if order != [] {
      var x := order[0];
      PosFlowAll(Children(x), m);
      LetFlow(order[1..], m);
      ChildrenOfOne(x);
      ChildrenOfSum(multiset{x}, KeptOf(Children(x), m));
      ChildrenOfSum(multiset{x} + KeptOf(Children(x), m), LetKept(order[1..], m));
    }
  }

  lemma {:induction false} KeptCount(e: Expr, m: Replacements, x: Expr)
    ensures Kept(e, m)[x] == if x in m then 0 else Pos(e, m)[x]
    decreases Size(e), 0
  {
    ChildSizes(e);
    KeptCountAll(Children(e), m, x);
  }

  lemma {:induction false} KeptCountAll(es: seq<Expr>, m: Replacements, x: Expr)
    ensures KeptOf(es, m)[x] == if x in m then 0 else PosOf(es, m)[x]
    decreases Sizes(es), 0
  {
    if es != [] {
      KeptCount(es[0], m, x);
      KeptCountAll(es[1..], m, x);
    }
  }

  lemma {:induction false} LetKeptCount(order: seq<Expr>, m: Replacements, x: Expr)
    ensures LetKept(order, m)[x] == multiset(order)[x] + if x in m then 0 else LetPos(order, m)[x]
  {
    if order != [] {
      assert order == [order[0]] + order[1..];
      KeptCountAll(Children(order[0]), m, x);
      LetKeptCount(order[1..], m, x);
    }
  }

  // ---------- both flows have one solution ----------

  ghost predicate AgreeAbove(a: multiset<Expr>, b: multiset<Expr>, n: nat) {
    forall y :: Size(y) > n ==> a[y] == b[y]
  }

  lemma StillAgree(a: multiset<Expr>, b: multiset<Expr>, y: Expr, n: nat)
    requires AgreeAbove(a, b, n) && y in a && Size(y) <= n
    ensures AgreeAbove(a - multiset{y}, b, n)
  {}

  /** How often an expression is visited depends only on larger expressions. */
  lemma {:induction false} OnlyLargerMatter(a: multiset<Expr>, b: multiset<Expr>, x: Expr)
    requires AgreeAbove(a, b, Size(x))
    ensures ChildrenOf(a)[x] == ChildrenOf(b)[x]
    decreases |a| + |b|
  {
    if y :| y in a && Size(y) <= Size(x) {
      DropSmall(a, y, x);
      StillAgree(a, b, y, Size(x));
      OnlyLargerMatter(a - multiset{y}, b, x);
    } else if y :| y in b && Size(y) <= Size(x) {
      DropSmall(b, y, x);
      StillAgree(b, a, y, Size(x));
      OnlyLargerMatter(a, b - multiset{y}, x);
    } else {
      AllLarger(a, b, Size(x));
    }
  }

  lemma AllLarger(a: multiset<Expr>, b: multiset<Expr>, n: nat)
    requires AgreeAbove(a, b, n)
    requires (forall y :: y in a ==> Size(y) > n) && forall y :: y in b ==> Size(y) > n
    ensures a == b
  {
    forall y ensures a[y] == b[y] {
      if y in a || y in b { assert Size(y) > n; }
    }
  }

  lemma NotAChild(x: Expr, y: Expr)
    requires Size(y) <= Size(x)
    ensures multiset(Children(y))[x] == 0
  {
    if x in Children(y) {
      var i :| 0 <= i < |Children(y)| && Children(y)[i] == x;
      ChildSmaller(y, i);
    }
  }

  lemma DropSmall(a: multiset<Expr>, y: Expr, x: Expr)
    requires y in a && Size(y) <= Size(x)
    ensures ChildrenOf(a)[x] == ChildrenOf(a - multiset{y})[x]
  {
    ChildrenOfRemove(a, y);
    NotAChild(x, y);
  }

  /** The visits are those of the root and of the children of what is expanded; what is in m
      is expanded once, the rest as often as it is visited. */
  ghost predicate Solves(visits: multiset<Expr>, expanded: multiset<Expr>, root: Expr, m: Replacements) {
    && visits == multiset{root} + ChildrenOf(expanded)
    && forall x :: expanded[x] == if x in m then 1 else visits[x]
  }

  lemma {:induction false} SolutionsAgree(v: multiset<Expr>, e: multiset<Expr>, v': multiset<Expr>,
      e': multiset<Expr>, root: Expr, m: Replacements, x: Expr, top: nat)
    requires Solves(v, e, root, m) && Solves(v', e', root, m)
    requires forall y :: y in v + v' ==> Size(y) <= top
    ensures v[x] == v'[x]
    decreases if Size(x) <= top then top - Size(x) + 1 else 0
  {
    if x in v || x in v' {
      forall y | Size(y) > Size(x) ensures e[y] == e'[y] {
        SolutionsAgree(v, e, v', e', root, m, y, top);
      }
      OnlyLargerMatter(e, e', x);
    }
  }

  lemma {:induction false} SolutionIsUnique(v: multiset<Expr>, e: multiset<Expr>, v': multiset<Expr>,
      e': multiset<Expr>, root: Expr, m: Replacements)
    requires Solves(v, e, root, m) && Solves(v', e', root, m)
    ensures v == v'
  {
    var top := SizeLimit(v + v');
    forall x ensures v[x] == v'[x] { SolutionsAgree(v, e, v', e', root, m, x, top); }
  }

  lemma {:induction false} SizeLimit(m: multiset<Expr>) returns (top: nat)
    ensures forall y :: y in m ==> Size(y) <= top
    decreases |m|
  {
    top := 0;
    if m != multiset{} {
      var x :| x in m;
      top := SizeLimit(m - multiset{x});
      if Size(x) > top { top := Size(x); }
    }
  }

  /** The use counts are the numbers of positions left after the replacement. */
  lemma CountsArePositions(root: Expr, order: seq<Expr>, m: Replacements)
    requires Distinct(order) && forall x :: x in m <==> x in order
    requires forall x :: x in order <==> UseCount(x, Counted(root, NoTally)) > 1
    ensures Counted(root, NoTally).calls == Pos(root, m) + LetPos(order, m)
  {
    var t := Counted(root, NoTally);
    CountFlow(root, NoTally, multiset{root}, multiset{});
    TallyKept(root, NoTally);
    CountsSolve(root, t, m);
    var v, e := Pos(root, m) + LetPos(order, m), Kept(root, m) + LetKept(order, m);
    PositionsSolve(root, order, m, v, e);
    SolutionIsUnique(t.calls, t.expanded, v, e, root, m);
  }

  lemma PositionsSolve(root: Expr, order: seq<Expr>, m: Replacements, v: multiset<Expr>, e: multiset<Expr>)
    requires Distinct(order) && forall x :: x in m <==> x in order
    requires v == Pos(root, m) + LetPos(order, m) && e == Kept(root, m) + LetKept(order, m)
    ensures Solves(v, e, root, m)
  {
    PositionsFlow(root, order, m);
    forall x ensures e[x] == if x in m then 1 else v[x] { PositionCount(root, order, m, x); }
  }

  lemma PositionsFlow(root: Expr, order: seq<Expr>, m: Replacements)
    ensures Pos(root, m) + LetPos(order, m) == multiset{root} + ChildrenOf(Kept(root, m) + LetKept(order, m))
  {
    PosFlow(root, m);
    LetFlow(order, m);
    ChildrenOfSum(Kept(root, m), LetKept(order, m));
  }

  lemma PositionCount(root: Expr, order: seq<Expr>, m: Replacements, x: Expr)
    requires Distinct(order) && forall y :: y in m <==> y in order
    ensures Kept(root, m)[x] + LetKept(order, m)[x] == if x in m then 1 else Pos(root, m)[x] + LetPos(order, m)[x]
  {
    KeptCount(root, m, x);
    LetKeptCount(order, m, x);
    DistinctOnce(order);
  }

  lemma CountsSolve(root: Expr, t: Tally, m: Replacements)
    requires t.calls == multiset{root} + ChildrenOf(t.expanded) && Tallied(t)
    requires forall x :: x in m <==> UseCount(x, t) > 1
    ensures Solves(t.calls, t.expanded, root, m)
  {}

  lemma {:induction false} DistinctOnce(es: seq<Expr>)
    requires Distinct(es)
    ensures forall x :: multiset(es)[x] == B2I(x in es)
  {
    if es != [] {
      assert es == [es[0]] + es[1..];
      DistinctOnce(es[1..]);
    }
  }

  // ---------- images ----------

  /** Every replacement is a variable that can be traced back to what it replaces. */
  ghost predicate Reversible(m: Replacements, values: map<string, Expr>) {
    forall x :: x in m ==>
      && ShouldExtract(x) && Plain(x, values.Keys)
      && m[x].Var? && m[x].name in values && values[m[x].name] == x
  }

  lemma ReplacedOnce(x: Expr, y: Expr, m: Replacements, values: map<string, Expr>)
    requires Reversible(m, values) && Plain(x, values.Keys) && Plain(y, values.Keys)
    ensures Replaced(x, m) == Replaced(y, m) ==> x == y
  {
    ReplacedBack(x, m, values, values.Keys);
    ReplacedBack(y, m, values, values.Keys);
  }

  /** What is rebuilt for a let is not found anywhere else. */
  lemma RebuiltIsNoImage(s: Expr, y: Expr, m: Replacements, values: map<string, Expr>)
    requires Reversible(m, values) && s in m && Plain(y, values.Keys)
    ensures Rebuilt(s, m) != Replaced(y, m)
  {
    RebuiltBack(s, m, values, values.Keys);
    ReplacedBack(y, m, values, values.Keys);
    assert Rebuilt(s, m).Var? ==> s.Var?;
  }

  lemma VarNodes(e: Expr)
    requires e.Var?
    ensures Nodes(e) == multiset{e}
  {}

  lemma RebuiltNodes(e: Expr, m: Replacements)
    ensures Nodes(Rebuilt(e, m)) == multiset{Rebuilt(e, m)} + NodesOf(ReplacedAll(Children(e), m))
  {
    ChildSizes(e);
    ChildrenOfRebuilt(e, ReplacedAll(Children(e), m));
    ChildSizes(Rebuilt(e, m));
  }

  /** The image of y stands exactly where y stood. */
  lemma {:induction false} ImageCount(e: Expr, m: Replacements, values: map<string, Expr>, y: Expr)
    requires Reversible(m, values) && Plain(e, values.Keys) && Plain(y, values.Keys)
    ensures Nodes(Replaced(e, m))[Replaced(y, m)] == Pos(e, m)[y]
    decreases Size(e), 0
  {
    var r := Replaced(y, m);
    ReplacedOnce(e, y, m, values);
    if e in m {
      VarNodes(m[e]);
    } else {
      ChildSizes(e);
      PlainChildren(e, values.Keys);
      ImageCountAll(Children(e), m, values, y);
      RebuiltNodes(e, m);
      OneMore(Rebuilt(e, m), NodesOf(ReplacedAll(Children(e), m)), r);
      OneMore(e, PosOf(Children(e), m), y);
    }
  }

  lemma OneMore(e: Expr, rest: multiset<Expr>, x: Expr)
    ensures (multiset{e} + rest)[x] == B2I(e == x) + rest[x]
  {}

  lemma {:induction false} ImageCountAll(es: seq<Expr>, m: Replacements, values: map<string, Expr>, y: Expr)
    requires Reversible(m, values) && Plain(y, values.Keys)
    requires forall i :: 0 <= i < |es| ==> Plain(es[i], values.Keys)
    ensures NodesOf(ReplacedAll(es, m))[Replaced(y, m)] == PosOf(es, m)[y]
    decreases Sizes(es), 0
  {
    if es != [] {
      ImageCount(es[0], m, values, y);
      ImageCountAll(es[1..], m, values, y);
      assert ReplacedAll(es, m)[1..] == ReplacedAll(es[1..], m);
    }
  }

  /** Only images stand in a replaced expression. */
  lemma {:induction false} OnlyImages(e: Expr, m: Replacements, values: map<string, Expr>, x: Expr) returns (z: Expr)
    requires Reversible(m, values) && Plain(e, values.Keys) && x in Nodes(Replaced(e, m))
    ensures x == Replaced(z, m) && Plain(z, values.Keys)
    decreases Size(e), 0
  {
    if e in m {
      VarNodes(m[e]);
      z := e;
    } else {
      RebuiltNodes(e, m);
      if x == Rebuilt(e, m) {
        z := e;
      } else {
        PlainChildren(e, values.Keys);
        ChildSizes(e);
        z := OnlyImagesAll(Children(e), m, values, x);
      }
    }
  }

  lemma {:induction false} OnlyImagesAll(es: seq<Expr>, m: Replacements, values: map<string, Expr>,
      x: Expr) returns (z: Expr)
    requires Reversible(m, values) && x in NodesOf(ReplacedAll(es, m))
    requires forall i :: 0 <= i < |es| ==> Plain(es[i], values.Keys)
    ensures x == Replaced(z, m) && Plain(z, values.Keys)
    decreases Sizes(es), 0
  {
    assert es != [];
    assert ReplacedAll(es, m)[1..] == ReplacedAll(es[1..], m);
    if x in Nodes(Replaced(es[0], m)) {
      z := OnlyImages(es[0], m, values, x);
    } else {
      z := OnlyImagesAll(es[1..], m, values, x);
    }
  }

  lemma {:induction false} ConstIsKept(e: Expr, m: Replacements, values: map<string, Expr>)
    requires Reversible(m, values) && IsConst(e)
    ensures Replaced(e, m) == e
    decreases Size(e)
  {
    ChildSizes(e);
    ReplacedAt(Children(e), m);
    forall i | 0 <= i < |Children(e)| ensures Replaced(Children(e)[i], m) == Children(e)[i] {
      ChildSmaller(e, i);
      ConstIsKept(Children(e)[i], m, values);
    }
    assert ReplacedAll(Children(e), m) == Children(e);
    WithOwnChildren(e);
  }

  /** Rebuilding does not make an expression worth extracting that was not. */
  lemma {:induction false} ImageExtractable(e: Expr, m: Replacements, values: map<string, Expr>)
    requires Reversible(m, values) && !ShouldExtract(e)
    ensures !ShouldExtract(Replaced(e, m))
    decreases Size(e)
  {
    ChildSizes(e);
    ReplacedAt(Children(e), m);
    forall i | 0 <= i < |Children(e)| && IsConst(Children(e)[i]) ensures Replaced(Children(e)[i], m) == Children(e)[i] {
      ConstIsKept(Children(e)[i], m, values);
    }
    if IsConst(e) {
      ConstIsKept(e, m, values);
    } else if e.Cast? || e.Broadcast? {
      ChildSmaller(e, 0);
      ImageExtractable(e.value, m, values);
      assert Children(e)[0] == e.value;
    } else if e.Bin? {
      assert Children(e)[0] == e.a && Children(e)[1] == e.b;
    } else if e.Ramp? {
      assert Children(e)[0] == e.base && Children(e)[1] == e.stride;
    }
  }

  // ---------- the result ----------

  /** The expressions at the positions of a chain of lets: in the values, and in the body. */
  function Parts(e: Expr): multiset<Expr> {
    if e.Let? then Nodes(e.value) + Parts(e.body) else Nodes(e)
  }

  function LetParts(order: seq<Expr>, m: Replacements): multiset<Expr> {
    if order == [] then multiset{} else Nodes(Rebuilt(order[0], m)) + LetParts(order[1..], m)
  }

  lemma {:induction false} ChainParts(order: seq<Expr>, i: nat, name: nat -> string, m: Replacements, body: Expr)
    requires i <= |order| && LetFree(body)
    ensures Parts(Chain(order, i, name, m, body)) == LetParts(order[i..], m) + Nodes(body)
    decreases |order| - i
  {
    NotALet(body);
    if i < |order| {
      ChainParts(order, i + 1, name, m, body);
      assert order[i..][0] == order[i] && order[i..][1..] == order[i + 1..];
    }
  }

  lemma {:induction false} LetImageCount(order: seq<Expr>, m: Replacements, values: map<string, Expr>, y: Expr)
    requires Reversible(m, values) && Plain(y, values.Keys) && forall x :: x in order ==> x in m
    ensures LetParts(order, m)[Replaced(y, m)] == LetPos(order, m)[y]
  {
    if order != [] {
      LetImageCount(order[1..], m, values, y);
      var s := order[0];
      PlainChildren(s, values.Keys);
      ImageCountAll(Children(s), m, values, y);
      RebuiltNodes(s, m);
      RebuiltIsNoImage(s, y, m, values);
    }
  }

  /** What a let binds stands nowhere else, neither in the lets nor in the body. */
  lemma {:induction false} LetValueCount(order: seq<Expr>, m: Replacements, values: map<string, Expr>, s: Expr)
    requires Reversible(m, values) && s in m && forall x :: x in order ==> x in m
    ensures LetParts(order, m)[Rebuilt(s, m)] == multiset(order)[s]
  {
    if order != [] {
      var x := order[0];
      assert multiset(order) == multiset{x} + multiset(order[1..]) by { assert order == [x] + order[1..]; }
      LetValueCount(order[1..], m, values, s);
      OneLetValue(x, m, values, s);
      OneMore(x, multiset(order[1..]), s);
    }
  }

  lemma OneLetValue(x: Expr, m: Replacements, values: map<string, Expr>, s: Expr)
    requires Reversible(m, values) && s in m && x in m
    ensures Nodes(Rebuilt(x, m))[Rebuilt(s, m)] == B2I(x == s)
  {
    PlainChildren(x, values.Keys);
    RebuiltNodes(x, m);
    RebuiltBack(x, m, values, values.Keys);
    RebuiltBack(s, m, values, values.Keys);
    var rest := NodesOf(ReplacedAll(Children(x), m));
    OneMore(Rebuilt(x, m), rest, Rebuilt(s, m));
    if Rebuilt(s, m) in rest {
      var z := OnlyImagesAll(Children(x), m, values, Rebuilt(s, m));
      RebuiltIsNoImage(s, z, m, values);
      assert false;
    }
  }

  lemma BodyHasNoLetValue(root: Expr, m: Replacements, values: map<string, Expr>, s: Expr)
    requires Reversible(m, values) && s in m && Plain(root, values.Keys)
    ensures Nodes(Replaced(root, m))[Rebuilt(s, m)] == 0
  {
    if Rebuilt(s, m) in Nodes(Replaced(root, m)) {
      var z := OnlyImages(root, m, values, Rebuilt(s, m));
      RebuiltIsNoImage(s, z, m, values);
      assert false;
    }
  }

  /** What stands in the lets is an image or the value of a let. */
  lemma {:induction false} OnlyLetImages(order: seq<Expr>, m: Replacements, values: map<string, Expr>,
      x: Expr) returns (z: Expr)
    requires Reversible(m, values) && x in LetParts(order, m) && forall y :: y in order ==> y in m
    ensures (x == Rebuilt(z, m) && z in order) || (x == Replaced(z, m) && Plain(z, values.Keys))
  {
    assert order != [];
    var s := order[0];
    if x in Nodes(Rebuilt(s, m)) {
      RebuiltNodes(s, m);
      if x == Rebuilt(s, m) {
        z := s;
      } else {
        PlainChildren(s, values.Keys);
        z := OnlyImagesAll(Children(s), m, values, x);
      }
    } else {
      z := OnlyLetImages(order[1..], m, values, x);
    }
  }

  /** The replacements of an elimination, and the way back. */
  lemma EliminationParts(e: Expr, name: nat -> string) returns (values: map<string, Expr>)
    requires LetNames(e) !! FV(e) && Supply(name, FV(e)) && !IsConst(e) && !e.Var?
    ensures var root, order, m := Canonical(e), Extracted(e), Variables(Extracted(e), name);
            && Reversible(m, values) && Plain(root, values.Keys) && Distinct(order)
            && (forall x :: x in m <==> x in order)
            && (forall x :: x in order <==> UseCount(x, Counted(root, NoTally)) > 1)
            && Counted(root, NoTally).calls == Pos(root, m) + LetPos(order, m)
            && Parts(Eliminate(e, name)) == LetParts(order, m) + Nodes(Replaced(root, m))
  {
    var root, order, m := Canonical(e), Extracted(e), Variables(Extracted(e), name);
    EliminationPlan(e, name);
    values := Named(order, |order|, name);
    PlanReverses(root, order, name, FV(e));
    CountsArePositions(root, order, m);
    PlanParts(root, order, name, FV(e));
  }

  lemma PlanReverses(root: Expr, order: seq<Expr>, name: nat -> string, names: set<string>)
    requires Plan(root, order, name, names)
    ensures Reversible(Variables(order, name), Named(order, |order|, name))
    ensures Plain(root, Named(order, |order|, name).Keys)
  {
    var values := Named(order, |order|, name);
    NamedIs(order, |order|, name, names);
    assert order[..|order|] == order;
    NamedVariables(order, |order|, name, names, multiset(order));
    forall x | x in order ensures ShouldExtract(x) && Plain(x, values.Keys) {
      NodeFacts(root, Context(map[], map[]), x);
    }
    assert forall x :: x in order ==> x in multiset(order);
  }

  lemma PlanParts(root: Expr, order: seq<Expr>, name: nat -> string, names: set<string>)
    requires Plan(root, order, name, names)
    ensures var m := Variables(order, name);
            Parts(Chain(order, 0, name, m, Replaced(root, m))) == LetParts(order, m) + Nodes(Replaced(root, m))
  {
    var m := Variables(order, name);
    assert order[..|order|] == order;
    EarlierVariables(order, |order|, name, names, Nodes(root));
    ReplacedMentions(root, m, names + Earlier(|order|, name));
    ChainParts(order, 0, name, m, Replaced(root, m));
    assert order[0..] == order;
  }

  /** Constants and variables are left alone: nothing in them is extractable. */
  lemma {:induction false} AtomNodes(e: Expr, x: Expr)
    requires (IsConst(e) || e.Var?) && x in Nodes(e)
    ensures !ShouldExtract(x)
    decreases Size(e)
  {
    if x != e {
      NodeOfOne(Children(e), x);
      var i :| 0 <= i < |Children(e)| && x in Nodes(Children(e)[i]);
      ChildSmaller(e, i);
      AtomNodes(Children(e)[i], x);
    }
  }

  lemma AtomIsItsForm(e: Expr, name: nat -> string)
    requires (IsConst(e) || e.Var?) && LetNames(e) !! FV(e) && Supply(name, FV(e))
    ensures Canonical(e) == e && Parts(e) == Nodes(e) && Extracted(e) == []
  {
    if IsConst(e) { ConstIsLetFree(e); }
    CanonicalIsCanon(e);
    PlainIsCanon(e, map[], {});
    EliminationPlan(e, name);
    if Extracted(e) != [] { AtomNodes(e, Extracted(e)[0]); }
  }

  /** Completeness: no two positions of the result hold the same extractable expression. */
  lemma NothingIsSharedTwice(e: Expr, name: nat -> string, x: Expr)
    requires LetNames(e) !! FV(e) && Supply(name, FV(e)) && ShouldExtract(x)
    ensures Parts(Eliminate(e, name))[x] <= 1
  {
    if IsConst(e) || e.Var? {
      AtomIsItsForm(e, name);
      if x in Nodes(e) { AtomNodes(e, x); }
      return;
    }
    var values := EliminationParts(e, name);
    var root, order, m := Canonical(e), Extracted(e), Variables(Extracted(e), name);
    if x in Parts(Eliminate(e, name)) {
      var z: Expr;
      if x in Nodes(Replaced(root, m)) {
        z := OnlyImages(root, m, values, x);
      } else {
        z := OnlyLetImages(order, m, values, x);
      }
      if x == Rebuilt(z, m) && z in order {
        LetValueCount(order, m, values, z);
        BodyHasNoLetValue(root, m, values, z);
        DistinctOnce(order);
      } else {
        ImageCount(root, m, values, z);
        LetImageCount(order, m, values, z);
        if !ShouldExtract(z) { ImageExtractable(z, m, values); }
      }
    }
  }

  /** Each variable stands at as many positions as uses were counted, which are at least
      two. */
  lemma VariablesAreUsed(e: Expr, name: nat -> string, i: nat)
    requires LetNames(e) !! FV(e) && Supply(name, FV(e)) && i < |Extracted(e)|
    ensures var s := Extracted(e)[i];
            Parts(Eliminate(e, name))[Var(TypeOf(s), name(i))] == UseCount(s, Counted(Canonical(e), NoTally)) >= 2
  {
    if IsConst(e) || e.Var? { AtomIsItsForm(e, name); }
    var values := EliminationParts(e, name);
    var root, order, m := Canonical(e), Extracted(e), Variables(Extracted(e), name);
    var s := order[i];
    VariableOf(order, name, i);
    ImageCount(root, m, values, s);
    LetImageCount(order, m, values, s);
  }
}
