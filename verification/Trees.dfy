/** Expressions as trees: a node and its children, whatever the node. */
module Trees {
  import opened IR

  /** The children of a node, in visiting order. */
  function Children(e: Expr): seq<Expr> {
    match e
    case Imm(_, _) => []
    case Var(_, _) => []
    case Cast(_, value) => [value]
    case Bin(_, _, a, b) => [a, b]
    case Not(a) => [a]
    case Select(c, tv, fv) => [c, tv, fv]
    case Load(_, _, index) => [index]
    case Ramp(base, stride, _) => [base, stride]
    case Broadcast(value, _) => [value]
    case Call(_, _, _, _, args) => args
    case Let(_, value, body) => [value, body]
  }

  /** The same node over other children. */
  function WithChildren(e: Expr, cs: seq<Expr>): Expr
    requires |cs| == |Children(e)|
  {
    match e
    case Imm(_, _) => e
    case Var(_, _) => e
    case Cast(t, _) => Cast(t, cs[0])
    case Bin(op, t, _, _) => Bin(op, t, cs[0], cs[1])
    case Not(_) => Not(cs[0])
    case Select(_, _, _) => Select(cs[0], cs[1], cs[2])
    case Load(t, name, _) => Load(t, name, cs[0])
    case Ramp(_, _, lanes) => Ramp(cs[0], cs[1], lanes)
    case Broadcast(_, lanes) => Broadcast(cs[0], lanes)
    case Call(kind, t, name, idx, _) => Call(kind, t, name, idx, cs)
    case Let(name, _, _) => Let(name, cs[0], cs[1])
  }

  lemma WithOwnChildren(e: Expr)
    ensures WithChildren(e, Children(e)) == e
  {}

  lemma ChildrenOfRebuilt(e: Expr, cs: seq<Expr>)
    requires |cs| == |Children(e)|
    ensures Children(WithChildren(e, cs)) == cs
  {}

  // ---------- size ----------

  function Size(e: Expr): (n: nat)
    ensures n >= 1
    decreases e, 0
  {
    match e
    case Imm(_, _) => 1
    case Var(_, _) => 1
    case Cast(_, value) => 3 + Size(value)
    case Bin(_, _, a, b) => 5 + Size(a) + Size(b)
    case Not(a) => 3 + Size(a)
    case Select(c, tv, fv) => 7 + Size(c) + Size(tv) + Size(fv)
    case Load(_, _, index) => 3 + Size(index)
    case Ramp(base, stride, _) => 5 + Size(base) + Size(stride)
    case Broadcast(value, _) => 3 + Size(value)
    case Call(_, _, _, _, args) => 5 + Sizes(args)
    case Let(_, value, body) => 5 + Size(value) + Size(body)
  }

  function Sizes(es: seq<Expr>): nat
    decreases es, 0
  {
    if es == [] then 0 else 2 + Size(es[0]) + Sizes(es[1..])
  }

  /** A node is larger than its children together. */
  lemma ChildSizes(e: Expr)
    ensures Sizes(Children(e)) < Size(e)
  {
    match e
    case Imm(_, _) =>
    case Var(_, _) =>
    case Cast(_, value) => OneSize(value);
    case Bin(_, _, a, b) => TwoSizes(a, b);
    case Not(a) => OneSize(a);
    case Select(c, tv, fv) => ThreeSizes(c, tv, fv);
    case Load(_, _, index) => OneSize(index);
    case Ramp(base, stride, _) => TwoSizes(base, stride);
    case Broadcast(value, _) => OneSize(value);
    case Call(_, _, _, _, args) =>
    case Let(_, value, body) => TwoSizes(value, body);
  }

  lemma OneSize(a: Expr)
    ensures Sizes([a]) == 2 + Size(a)
  {
    var none: seq<Expr> := [];
    assert [a][1..] == none;
    assert Sizes(none) == 0;
  }

  lemma TwoSizes(a: Expr, b: Expr)
    ensures Sizes([a, b]) == 4 + Size(a) + Size(b)
  {
    OneSize(b);
    assert [a, b][1..] == [b];
  }

  lemma ThreeSizes(a: Expr, b: Expr, c: Expr)
    ensures Sizes([a, b, c]) == 6 + Size(a) + Size(b) + Size(c)
  {
    TwoSizes(b, c);
    assert [a, b, c][1..] == [b, c];
  }

  lemma {:induction false} SizeAt(es: seq<Expr>, i: nat)
    requires i < |es|
    ensures Size(es[i]) + 1 < Sizes(es)
  {
    if i > 0 { SizeAt(es[1..], i - 1); }
  }

  lemma ChildSmaller(e: Expr, i: nat)
    requires i < |Children(e)|
    ensures Size(Children(e)[i]) < Size(e)
  {
    ChildSizes(e);
    SizeAt(Children(e), i);
  }

  // ---------- what a node takes from its children ----------

  /** Children that can stand in for those of the node. */
  predicate SameTypes(es: seq<Expr>, cs: seq<Expr>) {
    |cs| == |es| && forall i :: 0 <= i < |es| ==> TypeOf(cs[i]) == TypeOf(es[i])
  }

  lemma RebuiltType(e: Expr, cs: seq<Expr>)
    requires SameTypes(Children(e), cs)
    ensures TypeOf(WithChildren(e, cs)) == TypeOf(e)
  {}

  /** A node that binds nothing has a value made from its children's. */
  lemma RebuiltValue(e: Expr, cs: seq<Expr>, w: World, env: Env, env': Env)
    requires SameTypes(Children(e), cs) && !e.Let? && !e.Var? && env.lane == env'.lane
    requires forall i :: 0 <= i < |cs| ==> Eval(cs[i], w, env') == Eval(Children(e)[i], w, env)
    ensures Eval(WithChildren(e, cs), w, env') == Eval(e, w, env)
  {
    match e
    case Call(_, _, _, _, args) => assert EvalArgs(cs, w, env') == EvalArgs(args, w, env);
    case Imm(_, _) =>
    case Cast(_, value) => assert Eval(cs[0], w, env') == Eval(value, w, env);
    case Bin(_, _, a, b) =>
      assert Children(e)[0] == a && Children(e)[1] == b;
      assert Eval(cs[0], w, env') == Eval(a, w, env) && Eval(cs[1], w, env') == Eval(b, w, env);
    case Not(a) => assert Eval(cs[0], w, env') == Eval(a, w, env);
    case Select(c, tv, fv) =>
      assert Children(e)[0] == c && Children(e)[1] == tv && Children(e)[2] == fv;
      assert Eval(cs[0], w, env') == Eval(c, w, env);
    case Load(_, _, index) => assert Eval(cs[0], w, env') == Eval(index, w, env);
    case Ramp(base, stride, _) =>
      assert Children(e)[0] == base && Children(e)[1] == stride;
      assert Eval(cs[0], w, env') == Eval(base, w, env) && Eval(cs[1], w, env') == Eval(stride, w, env);
    case Broadcast(value, _) => assert Eval(cs[0], w, env') == Eval(value, w, env);
  }

  lemma {:induction false} WellTypedArgsAre(es: seq<Expr>, g: Context, lanes: nat)
    ensures WellTypedArgs(es, g, lanes) <==> forall i :: 0 <= i < |es| ==> WellTyped(es[i], g) && TypeOf(es[i]).lanes == lanes
  {
    if es != [] {
      WellTypedArgsAre(es[1..], g, lanes);
      assert forall i :: 1 <= i < |es| ==> es[i] == es[1..][i - 1];
    }
  }

  lemma WellTypedChildren(e: Expr, g: Context)
    requires WellTyped(e, g) && !e.Let?
    ensures forall i :: 0 <= i < |Children(e)| ==> WellTyped(Children(e)[i], g)
  {
    if e.Call? { WellTypedArgsAre(e.args, g, e.t.lanes); }
  }

  lemma RebuiltTyped(e: Expr, cs: seq<Expr>, g: Context, g': Context)
    requires WellTyped(e, g) && !e.Let? && !e.Var? && g.funcs == g'.funcs
    requires SameTypes(Children(e), cs) && forall i :: 0 <= i < |cs| ==> WellTyped(cs[i], g')
    ensures WellTyped(WithChildren(e, cs), g')
  {
    if e.Call? {
      WellTypedArgsAre(e.args, g, e.t.lanes);
      WellTypedArgsAre(cs, g', e.t.lanes);
    }
  }

  // ---------- positions ----------

  predicate LetFree(e: Expr)
    decreases Size(e)
  {
    ChildSizes(e);
    !e.Let? && LetFreeAll(Children(e))
  }

  predicate LetFreeAll(es: seq<Expr>)
    decreases Sizes(es)
  {
    es == [] || (LetFree(es[0]) && LetFreeAll(es[1..]))
  }

  lemma {:induction false} LetFreeAt(es: seq<Expr>)
    ensures LetFreeAll(es) <==> forall i :: 0 <= i < |es| ==> LetFree(es[i])
  {
    if es != [] {
      LetFreeAt(es[1..]);
      assert forall i :: 1 <= i < |es| ==> es[i] == es[1..][i - 1];
    }
  }

  /** The expressions found at the positions of an expression, as often as they occur. */
  function Nodes(e: Expr): multiset<Expr>
    decreases Size(e)
  {
    ChildSizes(e);
    multiset{e} + NodesOf(Children(e))
  }

  function NodesOf(es: seq<Expr>): multiset<Expr>
    decreases Sizes(es)
  {
    if es == [] then multiset{} else Nodes(es[0]) + NodesOf(es[1..])
  }

  lemma {:induction false} NodeOfOne(es: seq<Expr>, x: Expr)
    requires x in NodesOf(es)
    ensures exists i :: 0 <= i < |es| && x in Nodes(es[i])
  {
    if x in Nodes(es[0]) {
    } else {
      NodeOfOne(es[1..], x);
      var i :| 0 <= i < |es[1..]| && x in Nodes(es[1..][i]);
      assert es[i + 1] == es[1..][i];
    }
  }

  lemma {:induction false} NodesAt(es: seq<Expr>, i: nat)
    requires i < |es|
    ensures Nodes(es[i]) <= NodesOf(es)
  {
    if i > 0 { NodesAt(es[1..], i - 1); }
  }

  lemma ChildNodes(e: Expr, i: nat)
    requires i < |Children(e)|
    ensures Nodes(Children(e)[i]) <= Nodes(e)
  {
    NodesAt(Children(e), i);
  }

  lemma {:induction false} NodesAreSmaller(e: Expr, x: Expr)
    requires x in Nodes(e)
    ensures x == e || Size(x) < Size(e)
    decreases Size(e)
  {
    if x != e {
      NodeOfOne(Children(e), x);
      var i :| 0 <= i < |Children(e)| && x in Nodes(Children(e)[i]);
      ChildSmaller(e, i);
      NodesAreSmaller(Children(e)[i], x);
    }
  }
}
