/** The region analysis as the visitor it is: it updates the map `boxes` in place, swaps it
    out at forks, and pushes and pops the scope. */
module RegionVisitor {
  import opened IR
  import opened Intervals
  import opened BoundsRules
  import opened Boxes
  import opened BoxesTouched
  import opened Trees
  import opened BoundsVisitor
  import opened Scopes

  class TouchVisitor {
    var boxes: BoxMap
    const scope: SymbolScope<Interval>
    const mode: Mode
    const tools: Tools

    constructor (m: Mode, containing: Scope, c: Tools)
      ensures fresh(scope) && scope.Valid() && scope.View() == containing
      ensures boxes == map[] && mode == m && tools == c
    {
      boxes := map[];
      scope := new SymbolScope(containing);
      mode := m;
      tools := c;
    }

    method Visit(s: Stmt)
      requires scope.Valid()
      modifies this, scope
      ensures scope.Valid() && scope.table == old(scope.table)
      ensures boxes == Touch(s, old(scope.View()), mode, tools, old(boxes))
      decreases StmtSize(s), 2
    {
      match s
      case Evaluate(e) => VisitExpr(e);
      case Provide(name, values, args) =>
        if mode.stores && mode.Wants(name) { MergeRegion(name, None, args); }
        if mode.calls {
          VisitArgs(args);
          VisitArgs(values);
        }
      case For(_, _, _, _) => VisitFor(s);
      case LetStmt(_, _, _) => VisitLet(s);
      case IfThenElse(_, _, _) => VisitIf(s);
      case Block(first, rest) =>
        Visit(first);
        Visit(rest);
    }

    method VisitArgs(es: seq<Expr>)
      requires scope.Valid()
      modifies this, scope
      ensures scope.Valid() && scope.table == old(scope.table)
      ensures boxes == TouchArgs(es, old(scope.View()), mode, tools, old(boxes))
      decreases Sizes(es), 0
    {
      ghost var view := scope.View();
      var i := 0;
      while i < |es|
        invariant 0 <= i <= |es|
        invariant scope.Valid() && scope.table == old(scope.table)
        invariant TouchArgs(es[i..], view, mode, tools, boxes) == TouchArgs(es, view, mode, tools, old(boxes))
      {
        SizeAt(es, i);
        assert es[i..][0] == es[i] && es[i..][1..] == es[i + 1..];
        Visit(Evaluate(es[i]));
        i := i + 1;
      }
    }

    /** Merge the box of these indices into the function's. */
    method MergeRegion(name: string, used: Option<Expr>, args: seq<Expr>)
      requires scope.Valid()
      modifies this
      ensures boxes == MergeInto(tools, old(boxes), name, ArgBox(used, args, scope.View(), tools))
    {
      var bounds: seq<Interval> := [];
      var i := 0;
      while i < |args|
        invariant 0 <= i <= |args| && boxes == old(boxes)
        invariant bounds == BoundsOfArgs(args, scope.View(), tools)[..i]
      {
        var b := BoundsOfExprInScope(args[i], scope.View(), tools);
        bounds := bounds + [b];
        i := i + 1;
      }
      assert Box(used, bounds) == ArgBox(used, args, scope.View(), tools);
      boxes := boxes[name := Merge(tools, BoxOf(boxes, name), Box(used, bounds))];
    }

    method VisitExpr(e: Expr)
      requires scope.Valid()
      modifies this, scope
      ensures scope.Valid() && scope.table == old(scope.table)
      ensures boxes == Touch(Evaluate(e), old(scope.View()), mode, tools, old(boxes))
      decreases StmtSize(Evaluate(e)), 0
    {
      if e.Let? {
        AsLetSize(e);
        Visit(AsLetStmt(e));
      } else if !e.Call? {
        ChildSizes(e);
        VisitArgs(Children(e));
      } else if !mode.calls {
        return;
      } else if IsIf(e) {
        AsIfSize(e);
        Visit(AsIf(e));
      } else {
        VisitArgs(e.args);
        if Reads(e) {
          VisitArgs(e.args);
          if mode.Wants(e.name) { MergeRegion(e.name, Some(ConstTrue()), e.args); }
        }
      }
    }

    method VisitFor(s: Stmt)
      requires s.For? && scope.Valid()
      modifies this, scope
      ensures scope.Valid() && scope.table == old(scope.table)
      ensures boxes == Touch(s, old(scope.View()), mode, tools, old(boxes))
      decreases StmtSize(s), 0
    {
      if mode.calls {
        Visit(Evaluate(s.min));
        Visit(Evaluate(s.extent));
      }
      var lo, hi;
      var known := scope.Contains(LoopMin(s.name));
      if known {
        var i := scope.Get(LoopMin(s.name));
        lo := i.min;
      } else {
        var i := BoundsOfExprInScope(s.min, scope.View(), tools);
        lo := i.min;
      }
      known := scope.Contains(LoopMax(s.name));
      if known {
        var i := scope.Get(LoopMax(s.name));
        hi := i.max;
      } else {
        var x := BoundsOfExprInScope(s.extent, scope.View(), tools);
        var y := BoundsOfExprInScope(s.min, scope.View(), tools);
        hi := AddEnds(Add, x.max, y.max);
        hi := AddEnds(Sub, hi, Fin(Imm(Int(32), 1)));
      }
      scope.Push(s.name, Interval(lo, hi));
      PopUndoesPush(old(scope.table), s.name, Interval(lo, hi));
      Visit(s.body);
      scope.Pop(s.name);
    }

    method VisitLet(s: Stmt)
      requires s.LetStmt? && scope.Valid()
      modifies this, scope
      ensures scope.Valid() && scope.table == old(scope.table)
      ensures boxes == Touch(s, old(scope.View()), mode, tools, old(boxes))
      decreases StmtSize(s), 0
    {
      if mode.calls { Visit(Evaluate(s.value)); }
      var i := BoundsOfExprInScope(s.value, scope.View(), tools);
      i := Interval(SimplifyBound(tools, i.min), SimplifyBound(tools, i.max));
      var entry := LetEntry(i, TypeOf(s.value), s.name);
      scope.Push(s.name, entry);
      PopUndoesPush(old(scope.table), s.name, entry);
      Visit(s.body);
      scope.Pop(s.name);
      if !Substitutes(i) { BindAll(i, s.name); }
    }

    /** Wrap the fresh names around every end of every box, wherever they occur. */
    method BindAll(i: Interval, name: string)
      requires !Substitutes(i)
      modifies this
      ensures boxes == BindBoxes(old(boxes), i, name)
    {
      var left := boxes.Keys;
      while left != {}
        invariant left <= boxes.Keys == old(boxes).Keys
        invariant forall n :: n in boxes ==> boxes[n] == if n in left then old(boxes)[n] else BindBox(old(boxes)[n], i, name)
        decreases left
      {
        var n :| n in left;
        var b := boxes[n];
        var k := 0;
        while k < |b.bounds|
          invariant 0 <= k <= |b.bounds| == |boxes[n].bounds| && b.used == boxes[n].used
          invariant forall j :: 0 <= j < |b.bounds| ==>
            b.bounds[j] == if j < k then BindInterval(boxes[n].bounds[j], i, name) else boxes[n].bounds[j]
        {
          b := Box(b.used, b.bounds[k := BindInterval(b.bounds[k], i, name)]);
          k := k + 1;
        }
        boxes := boxes[n := b];
        left := left - {n};
      }
    }

    method VisitIf(s: Stmt)
      requires s.IfThenElse? && scope.Valid()
      modifies this, scope
      ensures scope.Valid() && scope.table == old(scope.table)
      ensures boxes == Touch(s, old(scope.View()), mode, tools, old(boxes))
      decreases StmtSize(s), 1
    {
      Visit(Evaluate(s.cond));
      if !UsesVars(s.cond, scope.View().Keys) {
        VisitFork(s);
      } else if IsNoOp(s.elseCase) {
        VisitTrimmed(s);
      } else {
        Visit(s.thenCase);
        Visit(s.elseCase.value);
      }
    }

    /** The variable the condition trims is pushed again with its narrower interval. */
    method VisitTrimmed(s: Stmt)
      requires s.IfThenElse? && scope.Valid()
      modifies this, scope
      ensures scope.Valid() && scope.table == old(scope.table)
      ensures boxes == Touch(s.thenCase, TrimScope(s.cond, old(scope.View()), tools), mode, tools, old(boxes))
      decreases StmtSize(s), 0
    {
      var k := StripLikely(s.cond);
      var pushed: Option<string> := None;
      if TrimsLeft(k, scope.View()) {
        var i := scope.Get(k.a.name);
        var o := BoundsOfExprInScope(k.b, scope.View(), tools);
        i := Trim(i, k.op, o, IsLikely(s.cond));
        PopUndoesPush(scope.table, k.a.name, i);
        scope.Push(k.a.name, i);
        pushed := Some(k.a.name);
      } else if TrimsRight(k, scope.View()) {
        var i := scope.Get(k.b.name);
        var o := BoundsOfExprInScope(k.a, scope.View(), tools);
        i := Trim(i, Flip(k.op), o, IsLikely(s.cond));
        PopUndoesPush(scope.table, k.b.name, i);
        scope.Push(k.b.name, i);
        pushed := Some(k.b.name);
      }
      Visit(s.thenCase);
      if pushed.Some? { scope.Pop(pushed.value); }
    }

    /** Each branch starts from no boxes; afterwards both are merged into the original ones
        under their conditions. */
    method VisitFork(s: Stmt)
      requires s.IfThenElse? && scope.Valid()
      modifies this, scope
      ensures scope.Valid() && scope.table == old(scope.table)
      ensures var view := old(scope.View());
              boxes == Fork(tools, s.cond, old(boxes), Touch(s.thenCase, view, mode, tools, map[]),
                            if s.elseCase.Some? then Touch(s.elseCase.value, view, mode, tools, map[]) else map[])
      decreases StmtSize(s), 0
    {
      var thens: BoxMap, elses: BoxMap := map[], map[];
      thens, boxes := boxes, thens;
      Visit(s.thenCase);
      thens, boxes := boxes, thens;
      if s.elseCase.Some? {
        elses, boxes := boxes, elses;
        Visit(s.elseCase.value);
        elses, boxes := boxes, elses;
      }
      boxes := MergeFork(tools, s.cond, boxes, thens, elses);
    }
  }

  /** The entries of the fork for the names found in a branch. */
  ghost function ForkEntries(c: Tools, cond: Expr, orig: BoxMap, thens: BoxMap, elses: BoxMap): BoxMap {
    map n | n in thens.Keys + elses.Keys :: Fork(c, cond, orig, thens, elses)[n]
  }

  lemma ForkIsUpdate(c: Tools, cond: Expr, orig: BoxMap, thens: BoxMap, elses: BoxMap)
    ensures Fork(c, cond, orig, thens, elses) == orig + ForkEntries(c, cond, orig, thens, elses)
  {}

  /** Every name found in a branch is merged, under the branch's condition. */
  method MergeFork(c: Tools, cond: Expr, orig: BoxMap, thens: BoxMap, elses: BoxMap) returns (r: BoxMap)
    ensures r == Fork(c, cond, orig, thens, elses)
  {
    r := MergeNames(c, cond, orig, thens, elses, thens.Keys + elses.Keys, ForkEntries(c, cond, orig, thens, elses));
    ForkIsUpdate(c, cond, orig, thens, elses);
  }

  ghost predicate EntryIs(c: Tools, cond: Expr, orig: BoxMap, thens: BoxMap, elses: BoxMap, entries: BoxMap,
      n: string) {
    n in entries && entries[n] == ForkBox(c, cond, BoxOf(orig, n), BoxOf(thens, n), BoxOf(elses, n))
  }

  method MergeNames(c: Tools, cond: Expr, orig: BoxMap, thens: BoxMap, elses: BoxMap, names: set<string>,
      ghost entries: BoxMap) returns (r: BoxMap)
    requires entries.Keys == names
    requires forall n :: n in names ==> EntryIs(c, cond, orig, thens, elses, entries, n)
    ensures r == orig + entries
  {
    r := orig;
    var left := names;
    while left != {}
      invariant left <= names && r.Keys == orig.Keys + (names - left)
      invariant forall n :: n in r ==> r[n] == if n in names - left then entries[n] else orig[n]
      decreases left
    {
      var n :| n in left;
      assert BoxOf(r, n) == BoxOf(orig, n);
      var b := MergeBranches(c, cond, BoxOf(r, n), BoxOf(thens, n), BoxOf(elses, n));
      assert EntryIs(c, cond, orig, thens, elses, entries, n);
      r := r[n := b];
      left := left - {n};
    }
  }

  method MergeBranches(c: Tools, cond: Expr, orig: Box, t: Box, e: Box) returns (b: Box)
    ensures b == ForkBox(c, cond, orig, t, e)
  {
    var thenBox := Box(Some(if t.MaybeUnused() then And2(t.used.value, cond) else cond), t.bounds);
    var elseBox := Box(Some(if e.MaybeUnused() then And2(e.used.value, Not(cond)) else Not(cond)), e.bounds);
    thenBox := Merge(c, thenBox, elseBox);
    b := Merge(c, orig, thenBox);
  }

  /** boxes_touched: one visitor for the reads, one for the writes, then combined. */
  method BoxesTouchedIn(s: Stmt, scope: Scope, calls: bool, stores: bool, fn: string, c: Tools) returns (r: BoxMap)
    ensures r == BoxesTouchedBy(s, scope, calls, stores, fn, c)
  {
    var reading := new TouchVisitor(Mode(true, false, fn), scope, c);
    var writing := new TouchVisitor(Mode(false, true, fn), scope, c);
    if calls { reading.Visit(s); }
    if stores { writing.Visit(s); }
    if !calls { return writing.boxes; }
    if !stores { return reading.boxes; }
    r := Combine(c, reading.boxes, writing.boxes);
  }

  method Combine(c: Tools, required: BoxMap, provided: BoxMap) returns (r: BoxMap)
    ensures r == map n | n in required.Keys + provided.Keys ::
                   if n in provided then Merge(c, BoxOf(required, n), provided[n]) else required[n]
  {
    r := required;
    var left := provided.Keys;
    while left != {}
      invariant left <= provided.Keys && r.Keys == required.Keys + (provided.Keys - left)
      invariant forall n :: n in provided && n !in left ==> r[n] == Merge(c, BoxOf(required, n), provided[n])
      invariant forall n :: n in required && (n !in provided || n in left) ==> r[n] == required[n]
      decreases left
    {
      var n :| n in left;
      r := r[n := Merge(c, BoxOf(r, n), provided[n])];
      left := left - {n};
    }
  }
}
