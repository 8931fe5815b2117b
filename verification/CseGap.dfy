/** What goes wrong when a let-bound name also occurs free: an expression is looked up among
    the entries before its variables are replaced. */
module CseGap {
  import opened IR
  import opened Trees
  import opened Cse
  import opened CseMeaning
  import opened CseTheorems

  // (x + y) + (let x = z in x + y)

  function Named(n: string): Expr { Var(Int(32), n) }
  function Sum(a: Expr, b: Expr): Expr { Bin(Add, Int(32), a, b) }
  function XY(): Expr { Sum(Named("x"), Named("y")) }
  function Clash(): Expr { Sum(XY(), Let("x", Named("z"), XY())) }

  function Entries(): seq<Expr> { [Named("x"), Named("y"), XY(), Named("z")] }

  lemma NumberVar(n: string, entries: seq<Expr>)
    ensures Number(Named(n), map[], entries) ==
            if Named(n) in entries then (Index(entries, Named(n)), entries) else (|entries|, entries + [Named(n)])
  {
    assert At(entries, []) == [];
    assert WithChildren(Named(n), []) == Named(n);
  }

  lemma NumberPair(a: Expr, b: Expr, entries: seq<Expr>)
    requires Sum(a, b) !in entries
    ensures var (i, e1) := Number(a, map[], entries);
            var (j, e2) := Number(b, map[], e1);
            var r := Sum(e2[i], e2[j]);
            Number(Sum(a, b), map[], entries) == if r in e2 then (Index(e2, r), e2) else (|e2|, e2 + [r])
  {
    var (i, e1) := Number(a, map[], entries);
    var (j, e2) := Number(b, map[], e1);
    var two, one, none: seq<Expr> := [a, b], [b], [];
    assert two[1..] == one && one[1..] == none;
    var nil: seq<nat> := [];
    assert NumberAll(none, map[], e2) == (nil, e2);
    assert [j] + nil == [j] && [i] + [j] == [i, j];
    assert NumberAll(one, map[], e1) == ([j], e2);
    assert NumberAll(two, map[], entries) == ([i, j], e2);
    assert At(e2, [i, j]) == [e2[i], e2[j]];
    assert WithChildren(Sum(a, b), [e2[i], e2[j]]) == Sum(e2[i], e2[j]);
  }

  lemma NumberXY()
    ensures Number(XY(), map[], []) == (2, [Named("x"), Named("y"), XY()])
  {
    var x, y := Named("x"), Named("y");
    NumberVar("x", []);
    assert [] + [x] == [x] && [x] + [y] == [x, y] && [x, y] + [XY()] == [x, y, XY()];
    NumberVar("y", [x]);
    NumberPair(x, y, []);
  }

  /** The body x + y of the let is found among the entries, as the x + y outside. */
  lemma NumberLetXY()
    ensures Number(Let("x", Named("z"), XY()), map[], [Named("x"), Named("y"), XY()]) == (2, Entries())
  {
    var e3 := [Named("x"), Named("y"), XY()];
    NumberVar("z", e3);
    assert e3 + [Named("z")] == Entries();
    assert XY() in Entries() by { assert Entries()[2] == XY(); }
    assert Index(Entries(), XY()) == 2 by {
      assert Entries()[0] != XY() && Entries()[1] != XY();
      assert Entries()[1..][0] == Entries()[1] && Entries()[1..][1..][0] == XY();
    }
  }

  lemma NumberClash()
    ensures Number(Clash(), map[], []) == (4, Entries() + [Sum(XY(), XY())])
  {
    NumberXY();
    NumberLetXY();
    NumberPair(XY(), Let("x", Named("z"), XY()), []);
    assert Entries()[2] == XY();
  }

  lemma ClashNumbering()
    ensures Numbering(Entries() + [Sum(XY(), XY())], {})
  {
    var entries := Entries() + [Sum(XY(), XY())];
    forall i | 0 <= i < 5 ensures Plain(entries[i], {}) && ChildrenBefore(entries, i) {
      LetFreeAt(Children(entries[i]));
      LetFreeAt(Children(XY()));
      assert LetFree(Named("x")) && LetFree(Named("y")) && LetFree(Named("z"));
      assert entries[..4][0] == Named("x") && entries[..4][1] == Named("y") && entries[..4][2] == XY();
      assert i > 1 ==> entries[..i][0] == Named("x") && entries[..i][1] == Named("y");
    }
  }

  lemma ClashPlan(name: nat -> string)
    requires Supply(name, {"x", "y", "z"})
    ensures Canonical(Clash()) == Sum(XY(), XY()) && Plan(Sum(XY(), XY()), Extracted(Clash()), name, {"x", "y", "z"})
  {
    var root := Sum(XY(), XY());
    var entries, t := Entries() + [root], Counted(root, NoTally);
    NumberClash();
    ClashNumbering();
    SharedInOrder(entries, {}, t);
    assert Plain(entries[4], {});
    forall x | x in Shared(entries, t) ensures x in Nodes(root) && ShouldExtract(x) {
      SharedMembers(entries, t, x);
      CallsAreNodes(root, NoTally, x);
    }
  }

  function WithZ(z: int): Env { Env(map["x" := 0, "y" := 0, "z" := z], 0) }

  lemma SumValue(w: World, env: Env)
    ensures Eval(XY(), w, env) == env.Get("x") + env.Get("y")
  {
    assert Eval(Named("x"), w, env) == env.Get("x") && Eval(Named("y"), w, env) == env.Get("y");
  }

  function XAndY(): Context { Context(map["x" := Int(32), "y" := Int(32)], map[]) }

  lemma ClashTyped()
    ensures WellTyped(Sum(XY(), XY()), XAndY()) && !IsConst(Clash()) && !Clash().Var?
  {
    assert WellTyped(XY(), XAndY());
  }

  lemma ClashValues(w: World)
    ensures Eval(Clash(), w, WithZ(1)) == 1 && Eval(Sum(XY(), XY()), w, WithZ(1)) == 0
  {
    var env := WithZ(1);
    var one := env.Set("x", 1);
    assert one.Get("x") == 1 && one.Get("y") == 0;
    SumValue(w, env);
    SumValue(w, one);
    assert Eval(Let("x", Named("z"), XY()), w, env) == 1;
  }

  /** Elimination takes both x + y for the same: where x, y are 0 and z is 1, the value
      changes from 1 to 0. */
  lemma ClashChangesValue(name: nat -> string, w: World)
    requires Supply(name, {"x", "y", "z"})
    ensures Eval(Clash(), w, WithZ(1)) == 1 && Eval(Eliminate(Clash(), name), w, WithZ(1)) == 0
  {
    ClashValues(w);
    ClashPlan(name);
    ClashTyped();
    EliminatedMeans(Clash(), name, {"x", "y", "z"}, XAndY(), w, WithZ(1));
  }

  lemma EliminatedMeans(e: Expr, name: nat -> string, names: set<string>, g: Context, w: World, env: Env)
    requires Plan(Canonical(e), Extracted(e), name, names) && WellTyped(Canonical(e), g) && !IsConst(e) && !e.Var?
    ensures Eval(Eliminate(e, name), w, env) == Eval(Canonical(e), w, env)
  {
    ChainMeans(Canonical(e), Extracted(e), 0, name, names, g, w, env, env);
  }
}
