/** The simulation for statements: the emitted program produces the memory that the
    statement does. */
module CodeGenStmts {
  import opened IR
  import opened Text
  import opened TwosComplement
  import opened CodeGenC
  import opened CodeGenMeaning
  import opened CodeGenText
  import opened CodeGenSim
  import opened CodeGenSubst
  import opened CodeGenTheorem

  // ---------- what is asked of a statement ----------

  predicate ScalarExpr(e: Expr, g: Context, s: Setup) { WellTyped(e, g) && TypeOf(e).lanes == 1 && Printable(e, s) }

  /** The names that lets and loops bind. */
  function StmtBinders(c: Stmt): set<string> {
    match c
    case Store(_, value, index) => LetNames(value) + LetNames(index)
    case For(name, min, extent, body) => {name} + LetNames(min) + LetNames(extent) + StmtBinders(body)
    case LetStmt(name, value, body) => {name} + LetNames(value) + StmtBinders(body)
    case IfThenElse(cond, t, e) => LetNames(cond) + StmtBinders(t) + if e.Some? then StmtBinders(e.value) else {}
    case Block(first, rest) => StmtBinders(first) + StmtBinders(rest)
    case Evaluate(value) => LetNames(value)
  }

  /** The C names of the loop variables. */
  function LoopNames(c: Stmt): set<string> {
    match c
    case Store(_, _, _) => {}
    case For(name, _, _, body) => {PrintName(name)} + LoopNames(body)
    case LetStmt(_, _, body) => LoopNames(body)
    case IfThenElse(_, t, e) => LoopNames(t) + if e.Some? then LoopNames(e.value) else {}
    case Block(first, rest) => LoopNames(first) + LoopNames(rest)
    case Evaluate(_) => {}
  }

  /** The C name of a loop variable is an identifier, and none that is generated. */
  ghost predicate LoopNamed(name: string) {
    SourceName(name) && !IsNumeral(PrintName(name)) && !IsGenerated(PrintName(name))
  }

  /** Typed scalar code that can be printed, with loops and lets named apart. */
  ghost predicate StmtOk(c: Stmt, g: Context, s: Setup)
    decreases c
  {
    match c
    case Store(name, value, index) =>
      name in s.bufs && ScalarExpr(value, g, s) && ScalarExpr(index, g, s)
    case For(name, min, extent, body) =>
      && ScalarExpr(min, g, s) && ScalarExpr(extent, g, s)
      && LoopNamed(name) && name !in StmtBinders(body) && PrintName(name) !in LoopNames(body)
      && StmtOk(body, g.Bind(name, Int(32)), s)
    case LetStmt(name, value, body) =>
      && ScalarExpr(value, g, s) && !PrintsNegative(value)
      && SourceName(name) && name !in StmtBinders(body)
      && StmtOk(body, g.Bind(name, TypeOf(value)), s)
    case IfThenElse(cond, t, e) =>
      ScalarExpr(cond, g, s) && StmtOk(t, g, s) && (e.Some? ==> StmtOk(e.value, g, s))
    case Block(first, rest) => StmtOk(first, g, s) && StmtOk(rest, g, s)
    case Evaluate(value) => ScalarExpr(value, g, s)
  }

  /** No evaluated expression divides by zero. */
  predicate StmtSafe(c: Stmt, env: Env, m: Memory, call: Functions)
    decreases c, 0
  {
    var w := World(m, call);
    match c
    case Store(_, value, index) => Safe(value, w, env) && Safe(index, w, env)
    case For(name, min, extent, body) =>
      && Safe(min, w, env) && Safe(extent, w, env)
      && LoopSafe(name, Eval(min, w, env), Eval(min, w, env) + Eval(extent, w, env), body, env, m, call)
    case LetStmt(name, value, body) => Safe(value, w, env) && StmtSafe(body, env.Set(name, Eval(value, w, env)), m, call)
    case IfThenElse(cond, t, e) =>
      Safe(cond, w, env) && (if Eval(cond, w, env) != 0 then StmtSafe(t, env, m, call) else e.Some? ==> StmtSafe(e.value, env, m, call))
    case Block(first, rest) => StmtSafe(first, env, m, call) && StmtSafe(rest, env, Run(first, env, m, call), call)
    case Evaluate(value) => Safe(value, w, env)
  }

  predicate LoopSafe(name: string, i: int, end: int, body: Stmt, env: Env, m: Memory, call: Functions)
    decreases body, if i < end then end - i else 0
  {
    i >= end ||
    (StmtSafe(body, env.Set(name, i), m, call) && LoopSafe(name, i + 1, end, body, env, Run(body, env.Set(name, i), m, call), call))
  }

  lemma {:induction false} BindersAreSource(c: Stmt, g: Context, s: Setup)
    requires StmtOk(c, g, s)
    ensures forall n :: n in StmtBinders(c) ==> SourceName(n)
    decreases c
  {
    match c
    case Store(_, value, index) => PrintableSource(value, s); PrintableSource(index, s);
    case For(name, min, extent, body) =>
      PrintableSource(min, s); PrintableSource(extent, s); BindersAreSource(body, g.Bind(name, Int(32)), s);
    case LetStmt(name, value, body) =>
      PrintableSource(value, s);
      BindersAreSource(body, g.Bind(name, TypeOf(value)), s);
    case IfThenElse(cond, t, e) =>
      PrintableSource(cond, s); BindersAreSource(t, g, s); if e.Some? { BindersAreSource(e.value, g, s); }
    case Block(first, rest) => BindersAreSource(first, g, s); BindersAreSource(rest, g, s);
    case Evaluate(value) => PrintableSource(value, s);
  }

  // ---------- names ----------

  /** Variables, buffers and functions have names. */
  predicate Named(g: Context, s: Setup) {
    [] !in g.vars && [] !in s.bufs && forall n :: n in s.protos ==> IsName(n)
  }

  lemma SourceNamed(n: string)
    requires SourceName(n)
    ensures n != []
  {}

  /** What the theorems ask of an expression is enough for its text to be read back. */
  lemma {:induction false} ExprWrites(e: Expr, g: Context, s: Setup)
    requires WellTyped(e, g) && TypeOf(e).lanes == 1 && Printable(e, s) && Named(g, s)
    ensures Writes(e)
    decreases e
  {
    PrintableType(e, s);
    match e
    case Imm(_, _) =>
    case Var(_, _) =>
    case Cast(_, value) => ExprWrites(value, g, s);
    case Bin(_, _, a, b) => ExprWrites(a, g, s); ExprWrites(b, g, s);
    case Not(a) => ExprWrites(a, g, s);
    case Select(c, tv, fv) => ExprWrites(c, g, s); ExprWrites(tv, g, s); ExprWrites(fv, g, s);
    case Load(_, _, index) => ExprWrites(index, g, s);
    case Call(_, t, _, _, args) => ArgsWrite(args, g, t.lanes, s);
    case Let(name, value, body) =>
      SourceNamed(name);
      ExprWrites(value, g, s);
      ExprWrites(body, g.Bind(name, TypeOf(value)), s);
  }

  lemma {:induction false} ArgsWrite(es: seq<Expr>, g: Context, lanes: nat, s: Setup)
    requires WellTypedArgs(es, g, lanes) && lanes == 1 && PrintableArgs(es, s) && Named(g, s)
    ensures WritesAll(es)
    decreases es
  {
    if es != [] {
      ExprWrites(es[0], g, s);
      ArgsWrite(es[1..], g, lanes, s);
    }
  }

  lemma {:induction false} StmtWrites(c: Stmt, g: Context, s: Setup)
    requires StmtOk(c, g, s) && Named(g, s)
    ensures WritesStmt(c)
    decreases c
  {
    match c
    case Store(_, value, index) => ExprWrites(value, g, s); ExprWrites(index, g, s);
    case For(name, min, extent, body) =>
      SourceNamed(name);
      ExprWrites(min, g, s);
      ExprWrites(extent, g, s);
      StmtWrites(body, g.Bind(name, Int(32)), s);
    case LetStmt(name, value, body) =>
      SourceNamed(name);
      ExprWrites(value, g, s);
      StmtWrites(body, g.Bind(name, TypeOf(value)), s);
    case IfThenElse(cond, t, e) =>
      ExprWrites(cond, g, s);
      StmtWrites(t, g, s);
      if e.Some? { StmtWrites(e.value, g, s); }
    case Block(first, rest) => StmtWrites(first, g, s); StmtWrites(rest, g, s);
    case Evaluate(value) => ExprWrites(value, g, s);
  }

  // ---------- substitution ----------

  lemma ExprSubstituted(name: string, n: string, t: Type, e: Expr, g: Context, g': Context, w: World, env: Env,
      env': Env, s: Setup)
    requires Renames(name, n, t, g, g', env, env') && ScalarExpr(e, g, s) && name !in LetNames(e) && n !in LetNames(e)
    ensures var r := Renamed(name, n, t, e);
            && ScalarExpr(r, g', s) && TypeOf(r) == TypeOf(e) && PrintsNegative(r) == PrintsNegative(e) && LetNames(r) == LetNames(e)
            && Eval(r, w, env') == Eval(e, w, env) && (Safe(e, w, env) ==> Safe(r, w, env'))
  {
    SubstituteTyped(name, n, t, e, g, g', env, env');
    SubstituteMeans(name, n, t, e, g, g', w, env, env');
    SubstitutePrintable(name, Var(t, n), e, s);
  }

  function RenamedStmt(name: string, n: string, t: Type, c: Stmt): Stmt { SubstituteStmt(name, Var(t, n), c) }

  /** r means in the second environment what c means in the first, and binds the same names. */
  ghost predicate AsBefore(c: Stmt, r: Stmt, g': Context, env: Env, env': Env, m: Memory, s: Setup) {
    && StmtOk(r, g', s) && StmtBinders(r) == StmtBinders(c) && LoopNames(r) == LoopNames(c)
    && Run(r, env', m, s.call) == Run(c, env, m, s.call)
    && (StmtSafe(c, env, m, s.call) ==> StmtSafe(r, env', m, s.call))
  }

  lemma {:induction false} StmtSubstituted(name: string, n: string, t: Type, c: Stmt, g: Context, g': Context,
      env: Env, env': Env, m: Memory, s: Setup)
    requires Renames(name, n, t, g, g', env, env') && StmtOk(c, g, s) && name !in StmtBinders(c) && n !in StmtBinders(c)
    ensures AsBefore(c, RenamedStmt(name, n, t, c), g', env, env', m, s)
    decreases c, 1
  {
    var w := World(m, s.call);
    match c
    case Store(_, value, index) =>
      ExprSubstituted(name, n, t, value, g, g', w, env, env', s);
      ExprSubstituted(name, n, t, index, g, g', w, env, env', s);
    case IfThenElse(_, _, _) => BranchesSubstituted(name, n, t, c, g, g', env, env', m, s);
    case For(_, _, _, _) => ForSubstituted(name, n, t, c, g, g', env, env', m, s);
    case LetStmt(x, value, body) =>
      ExprSubstituted(name, n, t, value, g, g', w, env, env', s);
      var v := Eval(value, w, env);
      RenamesUnder(name, n, t, g, g', env, env', x, TypeOf(value), v);
      StmtSubstituted(name, n, t, body, g.Bind(x, TypeOf(value)), g'.Bind(x, TypeOf(value)), env.Set(x, v),
          env'.Set(x, v), m, s);
    case Block(first, rest) =>
      StmtSubstituted(name, n, t, first, g, g', env, env', m, s);
      StmtSubstituted(name, n, t, rest, g, g', env, env', Run(first, env, m, s.call), s);
    case Evaluate(value) => ExprSubstituted(name, n, t, value, g, g', w, env, env', s);
  }

  lemma {:induction false} BranchesSubstituted(name: string, n: string, t: Type, c: Stmt, g: Context, g': Context,
      env: Env, env': Env, m: Memory, s: Setup)
    requires c.IfThenElse? && Renames(name, n, t, g, g', env, env') && StmtOk(c, g, s) && name !in StmtBinders(c)
    requires n !in StmtBinders(c)
    ensures AsBefore(c, RenamedStmt(name, n, t, c), g', env, env', m, s)
    decreases c, 0
  {
    ExprSubstituted(name, n, t, c.cond, g, g', World(m, s.call), env, env', s);
    StmtSubstituted(name, n, t, c.thenCase, g, g', env, env', m, s);
    if c.elseCase.Some? { StmtSubstituted(name, n, t, c.elseCase.value, g, g', env, env', m, s); }
  }

  lemma {:induction false} ForSubstituted(name: string, n: string, t: Type, c: Stmt, g: Context, g': Context,
      env: Env, env': Env, m: Memory, s: Setup)
    requires c.For? && Renames(name, n, t, g, g', env, env') && StmtOk(c, g, s) && name !in StmtBinders(c)
    requires n !in StmtBinders(c)
    ensures AsBefore(c, RenamedStmt(name, n, t, c), g', env, env', m, s)
    decreases c, 0
  {
    ForParts(name, n, t, c, g, g', env, env', m, s);
    ForWhole(name, n, t, c, RenamedStmt(name, n, t, c), g, g', env, env', m, s);
  }

  lemma {:induction false} ForWhole(name: string, n: string, t: Type, c: Stmt, r: Stmt, g: Context, g': Context,
      env: Env, env': Env, m: Memory, s: Setup)
    requires c.For? && Renames(name, n, t, g, g', env, env') && StmtOk(c, g, s) && name !in StmtBinders(c)
    requires n !in StmtBinders(c)
    requires r.For? && r.name == c.name && r.body == RenamedStmt(name, n, t, c.body)
    requires SameEnds(c, r, g', env, env', m, s)
    ensures AsBefore(c, r, g', env, env', m, s)
    decreases c.body, 3
  {
    var lo := Eval(c.min, World(m, s.call), env);
    var end := lo + Eval(c.extent, World(m, s.call), env);
    ForBody(name, n, t, c.name, c.body, r.body, lo, end, g, g', env, env', m, s);
    ForRebuilt(c, r, lo, end, g, g', env, env', m, s);
  }

  /** The renamed body, and the renamed iterations. */
  lemma {:induction false} ForBody(name: string, n: string, t: Type, x: string, body: Stmt, r: Stmt, lo: int,
      end: int, g: Context, g': Context, env: Env, env': Env, m: Memory, s: Setup)
    requires Renames(name, n, t, g, g', env, env') && StmtOk(body, g.Bind(x, Int(32)), s)
    requires r == RenamedStmt(name, n, t, body)
    requires name !in StmtBinders(body) && n !in StmtBinders(body) && x != name && x != n
    ensures StmtOk(r, g'.Bind(x, Int(32)), s) && StmtBinders(r) == StmtBinders(body) && LoopNames(r) == LoopNames(body)
    ensures RunLoop(x, lo, end, r, env', m, s.call) == RunLoop(x, lo, end, body, env, m, s.call)
    ensures LoopSafe(x, lo, end, body, env, m, s.call) ==> LoopSafe(x, lo, end, r, env', m, s.call)
    decreases body, 2, if lo < end then end - lo + 1 else 1
  {
    BodySubstituted(name, n, t, x, body, g, g', env, env', m, s);
    LoopSubstituted(name, n, t, x, lo, end, body, g, g', env, env', m, s);
  }

  lemma {:induction false} BodySubstituted(name: string, n: string, t: Type, x: string, body: Stmt, g: Context,
      g': Context, env: Env, env': Env, m: Memory, s: Setup)
    requires Renames(name, n, t, g, g', env, env') && StmtOk(body, g.Bind(x, Int(32)), s)
    requires name !in StmtBinders(body) && n !in StmtBinders(body) && x != name && x != n
    ensures var r := RenamedStmt(name, n, t, body);
            StmtOk(r, g'.Bind(x, Int(32)), s) && StmtBinders(r) == StmtBinders(body) && LoopNames(r) == LoopNames(body)
    decreases body, 2, 0
  {
    RenamesUnder(name, n, t, g, g', env, env', x, Int(32), 0);
    StmtSubstituted(name, n, t, body, g.Bind(x, Int(32)), g'.Bind(x, Int(32)), env.Set(x, 0), env'.Set(x, 0), m, s);
  }

  /** The ends of the renamed loop are those of the loop. */
  ghost predicate SameEnds(c: Stmt, r: Stmt, g': Context, env: Env, env': Env, m: Memory, s: Setup)
    requires c.For? && r.For?
  {
    var w := World(m, s.call);
    && ScalarExpr(r.min, g', s) && ScalarExpr(r.extent, g', s)
    && LetNames(r.min) == LetNames(c.min) && LetNames(r.extent) == LetNames(c.extent)
    && Eval(r.min, w, env') == Eval(c.min, w, env) && Eval(r.extent, w, env') == Eval(c.extent, w, env)
    && (Safe(c.min, w, env) ==> Safe(r.min, w, env')) && (Safe(c.extent, w, env) ==> Safe(r.extent, w, env'))
  }

  lemma ForParts(name: string, n: string, t: Type, c: Stmt, g: Context, g': Context, env: Env, env': Env, m: Memory,
      s: Setup)
    requires c.For? && Renames(name, n, t, g, g', env, env') && StmtOk(c, g, s) && name !in StmtBinders(c)
    requires n !in StmtBinders(c)
    ensures var r := RenamedStmt(name, n, t, c);
            r.For? && r.name == c.name && r.body == RenamedStmt(name, n, t, c.body) && SameEnds(c, r, g', env, env', m, s)
  {
    ExprSubstituted(name, n, t, c.min, g, g', World(m, s.call), env, env', s);
    ExprSubstituted(name, n, t, c.extent, g, g', World(m, s.call), env, env', s);
  }

  lemma ForRebuilt(c: Stmt, r: Stmt, lo: int, end: int, g: Context, g': Context, env: Env, env': Env, m: Memory,
      s: Setup)
    requires c.For? && r.For? && r.name == c.name && SameEnds(c, r, g', env, env', m, s) && StmtOk(c, g, s)
    requires lo == Eval(c.min, World(m, s.call), env) && end == lo + Eval(c.extent, World(m, s.call), env)
    requires StmtOk(r.body, g'.Bind(c.name, Int(32)), s) && StmtBinders(r.body) == StmtBinders(c.body)
    requires LoopNames(r.body) == LoopNames(c.body)
    requires RunLoop(c.name, lo, end, r.body, env', m, s.call) == RunLoop(c.name, lo, end, c.body, env, m, s.call)
    requires LoopSafe(c.name, lo, end, c.body, env, m, s.call) ==> LoopSafe(c.name, lo, end, r.body, env', m, s.call)
    ensures AsBefore(c, r, g', env, env', m, s)
  {}

  lemma {:induction false} LoopSubstituted(name: string, n: string, t: Type, x: string, i: int, end: int, body: Stmt,
      g: Context, g': Context, env: Env, env': Env, m: Memory, s: Setup)
    requires Renames(name, n, t, g, g', env, env') && StmtOk(body, g.Bind(x, Int(32)), s)
    requires name !in StmtBinders(body) && n !in StmtBinders(body) && x != name && x != n
    ensures var r := RenamedStmt(name, n, t, body);
            && RunLoop(x, i, end, r, env', m, s.call) == RunLoop(x, i, end, body, env, m, s.call)
            && (LoopSafe(x, i, end, body, env, m, s.call) ==> LoopSafe(x, i, end, r, env', m, s.call))
    decreases body, 2, if i < end then end - i else 0
  {
    if i < end {
      RenamesUnder(name, n, t, g, g', env, env', x, Int(32), i);
      StmtSubstituted(name, n, t, body, g.Bind(x, Int(32)), g'.Bind(x, Int(32)), env.Set(x, i), env'.Set(x, i), m, s);
      LoopSubstituted(name, n, t, x, i + 1, end, body, g, g', env, env', Run(body, env.Set(x, i), m, s.call), s);
    }
  }

  // ---------- the simulation ----------

  ghost predicate NamesFree(c: Stmt, f: Frame) { forall x :: x in LoopNames(c) ==> x !in f.decl && !IsGenerated(x) }

  lemma StillFree(c: Stmt, f: Frame, f1: Frame)
    requires NamesFree(c, f) && Extends(f, f1)
    ensures NamesFree(c, f1)
  {}

  /** The code runs from f to f1 and from memory cm to cm1, which then holds what m1 does. */
  ghost predicate Runs(p: Printed, next: nat, f: Frame, f1: Frame, cm: Memory, cm1: Memory, m1: Memory, s: Setup) {
    && Exec(p.code, f, cm, s.call) == (f1, cm1) && p.next >= next && Extends(f, f1)
    && State(p.cache, p.next, f1, cm1, s) && MemOk(s.bufs, m1, cm1)
  }

  ghost predicate Start(c: Stmt, g: Context, env: Env, cache: Cache, next: nat, f: Frame, m: Memory, cm: Memory,
      s: Setup) {
    StmtOk(c, g, s) && StmtSafe(c, env, m, s.call) && Surroundings(g, env, cache, next, f, m, cm, s) && NamesFree(c, f)
  }

  lemma PutRuns(name: string, i: int, v: int, m: Memory, cm: Memory, bufs: set<string>)
    requires MemOk(bufs, m, cm) && name in bufs
    ensures MemOk(bufs, Update(m, name, i, v), Update(cm, PrintName(name), i, v))
  {}

  lemma ThenRuns(p: Printed, q: Printed, next: nat, f: Frame, f1: Frame, f2: Frame, cm: Memory, cm1: Memory,
      cm2: Memory, m2: Memory, s: Setup)
    requires Exec(p.code, f, cm, s.call) == (f1, cm1) && Extends(f, f1) && p.next >= next
    requires Runs(q, p.next, f1, f2, cm1, cm2, m2, s)
    ensures Runs(Then(p, q), next, f, f2, cm, cm2, m2, s)
  {
    ExecSum(p.code, q.code, f, cm, s.call);
    ExtendsTrans(f, f1, f2);
  }

  /** The emitted program does to memory what the statement does, and at its end every cached
      right-hand side still evaluates to the variable it is cached as. */
  lemma {:induction false} StmtSim(c: Stmt, g: Context, env: Env, cache: Cache, next: nat, f: Frame, m: Memory,
      cm: Memory, s: Setup) returns (f1: Frame, cm1: Memory)
    requires Start(c, g, env, cache, next, f, m, cm, s)
    ensures Runs(PrintStmt(c, s.allocs, cache, next), next, f, f1, cm, cm1, Run(c, env, m, s.call), s)
    decreases StmtSize(c), 1
  {
    match c
    case Store(_, _, _) => f1, cm1 := StoreSim(c, g, env, cache, next, f, m, cm, s);
    case For(_, _, _, _) => f1, cm1 := ForSim(c, g, env, cache, next, f, m, cm, s);
    case LetStmt(_, _, _) => f1, cm1 := LetStmtSim(c, g, env, cache, next, f, m, cm, s);
    case IfThenElse(_, _, _) => f1, cm1 := IfStmtSim(c, g, env, cache, next, f, m, cm, s);
    case Block(_, _) => f1, cm1 := BlockSim(c, g, env, cache, next, f, m, cm, s);
    case Evaluate(_) =>
      cm1 := cm;
      f1 := EvaluateSim(c, g, env, cache, next, f, m, cm, s);
  }

  lemma EvaluateSim(c: Stmt, g: Context, env: Env, cache: Cache, next: nat, f: Frame, m: Memory, cm: Memory,
      s: Setup) returns (f1: Frame)
    requires c.Evaluate? && Start(c, g, env, cache, next, f, m, cm, s)
    ensures Runs(PrintStmt(c, s.allocs, cache, next), next, f, f1, cm, cm, m, s)
  {
    if IsConst(c.value) {
      f1 := f;
    } else {
      f1 := PrintSim(c.value, g, env, cache, next, f, m, cm, s);
      VoidRuns(Print(c.value, s.allocs, cache, next), f, f1, cm, s);
    }
  }

  lemma VoidRuns(p: Printed, f: Frame, f1: Frame, cm: Memory, s: Setup)
    requires Exec(p.code, f, cm, s.call) == (f1, cm)
    ensures Exec(p.code + [Void(p.atom)], f, cm, s.call) == (f1, cm)
  {
    ExecSum(p.code, [Void(p.atom)], f, cm, s.call);
    ExecSingle(Void(p.atom), f1, cm, s.call);
  }

  /** The cache survives from one statement of a block to the next. */
  lemma {:induction false} BlockSim(c: Stmt, g: Context, env: Env, cache: Cache, next: nat, f: Frame, m: Memory,
      cm: Memory, s: Setup) returns (f1: Frame, cm1: Memory)
    requires c.Block? && Start(c, g, env, cache, next, f, m, cm, s)
    ensures Runs(PrintStmt(c, s.allocs, cache, next), next, f, f1, cm, cm1, Run(c, env, m, s.call), s)
    decreases StmtSize(c), 0
  {
    var p := PrintStmt(c.first, s.allocs, cache, next);
    var m1 := Run(c.first, env, m, s.call);
    var fp, cmp := StmtSim(c.first, g, env, cache, next, f, m, cm, s);
    ExtendsIsLater(f, fp);
    KnownLater(g, env, f, fp);
    StillFree(c.rest, f, fp);
    f1, cm1 := StmtSim(c.rest, g, env, p.cache, p.next, fp, m1, cmp, s);
    ThenRuns(p, PrintStmt(c.rest, s.allocs, p.cache, p.next), next, f, fp, f1, cm, cmp, cm1,
        Run(c.rest, env, m1, s.call), s);
  }

  lemma {:induction false} StoreSim(c: Stmt, g: Context, env: Env, cache: Cache, next: nat, f: Frame, m: Memory,
      cm: Memory, s: Setup) returns (f1: Frame, cm1: Memory)
    requires c.Store? && Start(c, g, env, cache, next, f, m, cm, s)
    ensures Runs(PrintStmt(c, s.allocs, cache, next), next, f, f1, cm, cm1, Run(c, env, m, s.call), s)
  {
    var w := World(m, s.call);
    var x, y := Eval(c.index, w, env), Eval(c.value, w, env);
    var i := Print(c.index, s.allocs, cache, next);
    var v := Print(c.value, s.allocs, i.cache, i.next);
    var fi := PrintSim(c.index, g, env, cache, next, f, m, cm, s);
    Onward(i, TypeOf(c.index), x, g, env, cache, next, f, fi, m, cm, s);
    f1 := PrintSim(c.value, g, env, i.cache, i.next, fi, m, cm, s);
    var put := Put(ViewOf(s.allocs, c.name, TypeOf(c.value)), PrintName(c.name), i.atom, v.atom);
    cm1 := Update(cm, PrintName(c.name), x, y);
    assert Has(f1, i.atom, TypeOf(c.index), x);
    StoreRuns(i.code, v.code, put, f, fi, f1, cm, cm1, s);
    ExtendsTrans(f, fi, f1);
    PutRuns(c.name, x, y, m, cm, s.bufs);
  }

  lemma StoreRuns(a: seq<Code>, b: seq<Code>, put: Code, f: Frame, fa: Frame, fb: Frame, cm: Memory, cm1: Memory,
      s: Setup)
    requires Exec(a, f, cm, s.call) == (fa, cm) && Exec(b, fa, cm, s.call) == (fb, cm)
    requires ExecOne(put, fb, cm, s.call) == (fb, cm1)
    ensures Exec(a + b + [put], f, cm, s.call) == (fb, cm1)
  {
    ExecSum(a + b, [put], f, cm, s.call);
    ExecSum(a, b, f, cm, s.call);
    ExecSingle(put, fb, cm, s.call);
  }

  lemma {:induction false} LetStmtSim(c: Stmt, g: Context, env: Env, cache: Cache, next: nat, f: Frame, m: Memory,
      cm: Memory, s: Setup) returns (f1: Frame, cm1: Memory)
    requires c.LetStmt? && Start(c, g, env, cache, next, f, m, cm, s)
    ensures Runs(PrintStmt(c, s.allocs, cache, next), next, f, f1, cm, cm1, Run(c, env, m, s.call), s)
    decreases StmtSize(c), 0
  {
    var w, t := World(m, s.call), TypeOf(c.value);
    var v := Eval(c.value, w, env);
    var p := Print(c.value, s.allocs, cache, next);
    var fp := PrintSim(c.value, g, env, cache, next, f, m, cm, s);
    TypeSound(c.value, g, w, env);
    TextStands(c.value, cache, next, t, v, fp, s);
    var n := AtomText(p.atom);
    Onward(p, t, v, g, env, cache, next, f, fp, m, cm, s);
    KnownWith(g, env, fp, p.atom, t, v);
    StillFree(c.body, f, fp);
    BodyStarts(c, n, v, g, env, p.cache, p.next, fp, m, cm, s);
    var body := RenamedStmt(c.name, n, t, c.body);
    f1, cm1 := StmtSim(body, g.Bind(n, t), env.Set(n, v), p.cache, p.next, fp, m, cm, s);
    ThenRuns(p, PrintStmt(body, s.allocs, p.cache, p.next), next, f, fp, f1, cm, cm, cm1, Run(c, env, m, s.call), s);
  }

  lemma BodyStarts(c: Stmt, n: string, v: int, g: Context, env: Env, cache: Cache, next: nat, fp: Frame, m: Memory,
      cm: Memory, s: Setup)
    requires c.LetStmt? && StmtOk(c, g, s) && StmtSafe(c, env, m, s.call) && v == Eval(c.value, World(m, s.call), env)
    requires PrintName(n) == n && NamesFree(c.body, fp)
    requires Weaker(g, g.Bind(n, TypeOf(c.value))) && SameOn(g, env, env.Set(n, v))
    requires Surroundings(g.Bind(n, TypeOf(c.value)), env.Set(n, v), cache, next, fp, m, cm, s)
    ensures var body := RenamedStmt(c.name, n, TypeOf(c.value), c.body);
            && Start(body, g.Bind(n, TypeOf(c.value)), env.Set(n, v), cache, next, fp, m, cm, s)
            && Run(body, env.Set(n, v), m, s.call) == Run(c, env, m, s.call)
  {
    var t := TypeOf(c.value);
    var g1, g', env1, env' := g.Bind(c.name, t), g.Bind(n, t), env.Set(c.name, v), env.Set(n, v);
    PrintableType(c.value, s);
    LetRenames(c.name, n, t, g, env, v);
    BindersAreSource(c.body, g1, s);
    StmtSubstituted(c.name, n, t, c.body, g1, g', env1, env', m, s);
    LetStmtValue(c, env, m, s);
  }

  lemma LetRenames(name: string, n: string, t: Type, g: Context, env: Env, v: int)
    requires Weaker(g, g.Bind(n, t)) && SameOn(g, env, env.Set(n, v)) && t.lanes >= 1 && CType(t)
    ensures Renames(name, n, t, g.Bind(name, t), g.Bind(n, t), env.Set(name, v), env.Set(n, v))
  {}

  lemma LetStmtValue(c: Stmt, env: Env, m: Memory, s: Setup)
    requires c.LetStmt?
    ensures var env1 := env.Set(c.name, Eval(c.value, World(m, s.call), env));
            && Run(c, env, m, s.call) == Run(c.body, env1, m, s.call)
            && (StmtSafe(c, env, m, s.call) ==> StmtSafe(c.body, env1, m, s.call))
  {}

  /** Fresh names are never given back. */
  lemma {:induction false} StmtNext(c: Stmt, allocs: Allocations, cache: Cache, next: nat)
    ensures PrintStmt(c, allocs, cache, next).next >= next
    decreases StmtSize(c)
  {
    match c
    case Store(_, value, index) =>
      var i := Print(index, allocs, cache, next);
      NextGrows(index, allocs, cache, next);
      NextGrows(value, allocs, i.cache, i.next);
    case For(_, min, extent, body) =>
      var lo := Print(min, allocs, cache, next);
      var n := Print(extent, allocs, lo.cache, lo.next);
      NextGrows(min, allocs, cache, next);
      NextGrows(extent, allocs, lo.cache, lo.next);
      StmtNext(body, allocs, map[], n.next);
    case LetStmt(name, value, body) =>
      var p := Print(value, allocs, cache, next);
      NextGrows(value, allocs, cache, next);
      StmtNext(SubstituteStmt(name, Var(TypeOf(value), AtomText(p.atom)), body), allocs, p.cache, p.next);
    case IfThenElse(cond, t, e) =>
      var k := Print(cond, allocs, cache, next);
      var p := PrintStmt(t, allocs, map[], k.next);
      NextGrows(cond, allocs, cache, next);
      StmtNext(t, allocs, map[], k.next);
      if e.Some? { StmtNext(e.value, allocs, map[], p.next); }
    case Block(first, rest) =>
      var p := PrintStmt(first, allocs, cache, next);
      StmtNext(first, allocs, cache, next);
      StmtNext(rest, allocs, p.cache, p.next);
    case Evaluate(value) => NextGrows(value, allocs, cache, next);
  }

  lemma FrameLater(next: nat, next': nat, f: Frame, m: Memory, s: Setup)
    requires FrameOk(next, f) && next' >= next
    ensures State(map[], next', f, m, s)
  {}

  lemma LeaveRestores(f: Frame, f1: Frame)
    requires Extends(f, f1) && f.decl.Keys == f.vals.Keys
    ensures f1.Leave(f) == f
  {
    assert f1.Leave(f).vals == f.vals;
  }

  lemma {:induction false} IfStmtSim(c: Stmt, g: Context, env: Env, cache: Cache, next: nat, f: Frame, m: Memory,
      cm: Memory, s: Setup) returns (f1: Frame, cm1: Memory)
    requires c.IfThenElse? && Start(c, g, env, cache, next, f, m, cm, s)
    ensures Runs(PrintStmt(c, s.allocs, cache, next), next, f, f1, cm, cm1, Run(c, env, m, s.call), s)
    decreases StmtSize(c), 0
  {
    var w := World(m, s.call);
    var k := Print(c.cond, s.allocs, cache, next);
    var t := PrintStmt(c.thenCase, s.allocs, map[], k.next);
    f1 := PrintSim(c.cond, g, env, cache, next, f, m, cm, s);
    Onward(k, TypeOf(c.cond), Eval(c.cond, w, env), g, env, cache, next, f, f1, m, cm, s);
    StmtNext(c.thenCase, s.allocs, map[], k.next);
    if c.elseCase.Some? { StmtNext(c.elseCase.value, s.allocs, map[], t.next); }
    StillFree(c, f, f1);
    var elseCode := if c.elseCase.Some? then PrintStmt(c.elseCase.value, s.allocs, map[], t.next).code else [];
    cm1 := BranchSim(c, k.atom, t.code, elseCode, g, env, k.next, t.next, f1, m, cm, s);
    ExecSum(k.code, [If(k.atom, t.code, elseCode)], f, cm, s.call);
    ExecSingle(If(k.atom, t.code, elseCode), f1, cm, s.call);
    FrameLater(k.next, PrintStmt(c, s.allocs, cache, next).next, f1, cm1, s);
  }

  /** Whichever branch runs, the frame is restored behind it. */
  lemma {:induction false} BranchSim(c: Stmt, k: Atom, thenCode: seq<Code>, elseCode: seq<Code>, g: Context, env: Env,
      next: nat, tnext: nat, f: Frame, m: Memory, cm: Memory, s: Setup) returns (cm1: Memory)
    requires c.IfThenElse? && StmtOk(c, g, s) && StmtSafe(c, env, m, s.call) && NamesFree(c, f)
    requires Surroundings(g, env, map[], next, f, m, cm, s)
    requires Has(f, k, TypeOf(c.cond), Eval(c.cond, World(m, s.call), env))
    requires thenCode == PrintStmt(c.thenCase, s.allocs, map[], next).code && tnext >= next
    requires elseCode == if c.elseCase.Some? then PrintStmt(c.elseCase.value, s.allocs, map[], tnext).code else []
    ensures ExecOne(If(k, thenCode, elseCode), f, cm, s.call) == (f, cm1) && MemOk(s.bufs, Run(c, env, m, s.call), cm1)
    decreases StmtSize(c), 0, 0
  {
    BranchValue(c, env, m, s);
    if Eval(c.cond, World(m, s.call), env) != 0 {
      cm1 := ScopeSim(c.thenCase, c, g, env, next, f, m, cm, s);
      TakenExecutes(k, thenCode, elseCode, thenCode, f, cm, cm1, s);
    } else {
      cm1 := ElseSim(c, elseCode, g, env, next, tnext, f, m, cm, s);
      TakenExecutes(k, thenCode, elseCode, elseCode, f, cm, cm1, s);
    }
  }

  lemma TakenExecutes(k: Atom, thenCode: seq<Code>, elseCode: seq<Code>, taken: seq<Code>, f: Frame, cm: Memory,
      cm1: Memory, s: Setup)
    requires taken == if AtomValue(k, f) != 0 then thenCode else elseCode
    requires Exec(taken, f, cm, s.call).0.Leave(f) == f && Exec(taken, f, cm, s.call).1 == cm1
    ensures ExecOne(If(k, thenCode, elseCode), f, cm, s.call) == (f, cm1)
  {}

  lemma {:induction false} ElseSim(c: Stmt, code: seq<Code>, g: Context, env: Env, next: nat, tnext: nat, f: Frame,
      m: Memory, cm: Memory, s: Setup) returns (cm1: Memory)
    requires c.IfThenElse? && StmtOk(c, g, s) && StmtSafe(c, env, m, s.call) && NamesFree(c, f) && tnext >= next
    requires Surroundings(g, env, map[], next, f, m, cm, s) && Eval(c.cond, World(m, s.call), env) == 0
    requires code == if c.elseCase.Some? then PrintStmt(c.elseCase.value, s.allocs, map[], tnext).code else []
    ensures Exec(code, f, cm, s.call).0.Leave(f) == f && Exec(code, f, cm, s.call).1 == cm1
    ensures MemOk(s.bufs, if c.elseCase.Some? then Run(c.elseCase.value, env, m, s.call) else m, cm1)
    decreases StmtSize(c), 0, 0, 1
  {
    if c.elseCase.Some? {
      FrameLater(next, tnext, f, cm, s);
      cm1 := ScopeSim(c.elseCase.value, c, g, env, tnext, f, m, cm, s);
    } else {
      cm1 := cm;
      LeaveRestores(f, f);
    }
  }

  /** A branch in a scope of its own. */
  lemma {:induction false} ScopeSim(b: Stmt, c: Stmt, g: Context, env: Env, next: nat, f: Frame, m: Memory,
      cm: Memory, s: Setup) returns (cm1: Memory)
    requires StmtSize(b) < StmtSize(c) && StmtOk(b, g, s) && StmtSafe(b, env, m, s.call) && NamesFree(b, f)
    requires Surroundings(g, env, map[], next, f, m, cm, s)
    ensures var (f1, cm') := Exec(PrintStmt(b, s.allocs, map[], next).code, f, cm, s.call); f1.Leave(f) == f && cm' == cm1
    ensures MemOk(s.bufs, Run(b, env, m, s.call), cm1)
    decreases StmtSize(c), 0, 0, 0
  {
    var f1;
    f1, cm1 := StmtSim(b, g, env, map[], next, f, m, cm, s);
    LeaveRestores(f, f1);
  }

  lemma BranchValue(c: Stmt, env: Env, m: Memory, s: Setup)
    requires c.IfThenElse?
    ensures Run(c, env, m, s.call) ==
      if Eval(c.cond, World(m, s.call), env) != 0 then Run(c.thenCase, env, m, s.call)
      else if c.elseCase.Some? then Run(c.elseCase.value, env, m, s.call) else m
  {}

  lemma {:induction false} ForSim(c: Stmt, g: Context, env: Env, cache: Cache, next: nat, f: Frame, m: Memory,
      cm: Memory, s: Setup) returns (f1: Frame, cm1: Memory)
    requires c.For? && Start(c, g, env, cache, next, f, m, cm, s)
    ensures Runs(PrintStmt(c, s.allocs, cache, next), next, f, f1, cm, cm1, Run(c, env, m, s.call), s)
    decreases StmtSize(c), 0, 2
  {
    var x, y := Eval(c.min, World(m, s.call), env), Eval(c.extent, World(m, s.call), env);
    var lo := Print(c.min, s.allocs, cache, next);
    var n := Then(lo, Print(c.extent, s.allocs, lo.cache, lo.next));
    var p := PrintStmt(c.body, s.allocs, map[], n.next);
    f1 := EndsSim(c, g, env, cache, next, f, m, cm, s);
    cm1 := IterationsSim(c, p, x, y, g, env, n.next, f, f1, m, cm, s);
    PrintForIs(c, s.allocs, cache, next);
    ForRuns(c, n, lo.atom, p, x, y, next, f, f1, m, cm, cm1, env, s);
  }

  lemma {:induction false} IterationsSim(c: Stmt, p: Printed, x: int, y: int, g: Context, env: Env, next: nat,
      f: Frame, f1: Frame, m: Memory, cm: Memory, s: Setup) returns (cm1: Memory)
    requires c.For? && StmtOk(c, g, s) && StmtSafe(c, env, m, s.call) && NamesFree(c, f) && Extends(f, f1)
    requires x == Eval(c.min, World(m, s.call), env) && y == Eval(c.extent, World(m, s.call), env)
    requires Surroundings(g, env, map[], next, f1, m, cm, s) && p == PrintStmt(c.body, s.allocs, map[], next)
    ensures ExecLoop(PrintName(c.name), x, x + y, p.code, f1, cm, s.call) == (f1, cm1)
    ensures MemOk(s.bufs, Run(c, env, m, s.call), cm1) && State(map[], p.next, f1, cm1, s) && p.next >= next
    decreases StmtSize(c), 0, 1
  {
    StillFree(c, f, f1);
    LoopIsSafe(c, x, y, env, m, s);
    cm1 := LoopSim(c, p.code, x, x + y, g, env, next, f1, m, cm, s);
    LoopMeans(c, x, y, env, m, cm1, s);
    BodyIsLater(c.body, next, f1, cm1, s);
  }

  lemma LoopIsSafe(c: Stmt, x: int, y: int, env: Env, m: Memory, s: Setup)
    requires c.For? && StmtSafe(c, env, m, s.call)
    requires x == Eval(c.min, World(m, s.call), env) && y == Eval(c.extent, World(m, s.call), env)
    ensures LoopSafe(c.name, x, x + y, c.body, env, m, s.call)
  {}

  lemma LoopMeans(c: Stmt, x: int, y: int, env: Env, m: Memory, cm1: Memory, s: Setup)
    requires c.For? && x == Eval(c.min, World(m, s.call), env) && y == Eval(c.extent, World(m, s.call), env)
    requires MemOk(s.bufs, RunLoop(c.name, x, x + y, c.body, env, m, s.call), cm1)
    ensures MemOk(s.bufs, Run(c, env, m, s.call), cm1)
  {
    ForValue(c, env, m, s);
  }

  lemma BodyIsLater(c: Stmt, next: nat, f: Frame, m: Memory, s: Setup)
    requires State(map[], next, f, m, s)
    ensures var p := PrintStmt(c, s.allocs, map[], next); State(map[], p.next, f, m, s) && p.next >= next
  {
    StmtNext(c, s.allocs, map[], next);
    FrameLater(next, PrintStmt(c, s.allocs, map[], next).next, f, m, s);
  }

  lemma ForRuns(c: Stmt, n: Printed, lo: Atom, p: Printed, x: int, y: int, next: nat, f: Frame, f1: Frame, m: Memory,
      cm: Memory, cm1: Memory, env: Env, s: Setup)
    requires c.For? && Reaches(n, next, f, f1, cm, s) && AtomValue(lo, f1) == x && AtomValue(n.atom, f1) == y
    requires ExecLoop(PrintName(c.name), x, x + y, p.code, f1, cm, s.call) == (f1, cm1)
    requires MemOk(s.bufs, Run(c, env, m, s.call), cm1) && State(map[], p.next, f1, cm1, s) && p.next >= n.next
    ensures Runs(Printed(p.atom, map[], p.next, n.code + [Loop(PrintName(c.name), lo, n.atom, p.code)]), next, f, f1,
        cm, cm1, Run(c, env, m, s.call), s)
  {
    LoopRuns(n.code, PrintName(c.name), lo, n.atom, p.code, x, y, f, f1, cm, cm1, s);
  }

  lemma ForValue(c: Stmt, env: Env, m: Memory, s: Setup)
    requires c.For?
    ensures var lo := Eval(c.min, World(m, s.call), env);
            Run(c, env, m, s.call) == RunLoop(c.name, lo, lo + Eval(c.extent, World(m, s.call), env), c.body, env, m, s.call)
  {}

  lemma PrintForIs(c: Stmt, allocs: Allocations, cache: Cache, next: nat)
    requires c.For?
    ensures var lo := Print(c.min, allocs, cache, next);
            var n := Then(lo, Print(c.extent, allocs, lo.cache, lo.next));
            var p := PrintStmt(c.body, allocs, map[], n.next);
            PrintStmt(c, allocs, cache, next) == Printed(p.atom, map[], p.next, n.code + [Loop(PrintName(c.name), lo.atom, n.atom, p.code)])
  {}

  lemma LoopRuns(before: seq<Code>, id: string, lo: Atom, n: Atom, body: seq<Code>, x: int, y: int, f: Frame,
      f1: Frame, cm: Memory, cm1: Memory, s: Setup)
    requires Exec(before, f, cm, s.call) == (f1, cm) && AtomValue(lo, f1) == x && AtomValue(n, f1) == y
    requires ExecLoop(id, x, x + y, body, f1, cm, s.call) == (f1, cm1)
    ensures Exec(before + [Loop(id, lo, n, body)], f, cm, s.call) == (f1, cm1)
  {
    ExecSum(before, [Loop(id, lo, n, body)], f, cm, s.call);
    ExecSingle(Loop(id, lo, n, body), f1, cm, s.call);
  }

  lemma {:induction false} EndsSim(c: Stmt, g: Context, env: Env, cache: Cache, next: nat, f: Frame, m: Memory,
      cm: Memory, s: Setup) returns (f1: Frame)
    requires c.For? && Start(c, g, env, cache, next, f, m, cm, s)
    ensures var w := World(m, s.call);
            var lo := Print(c.min, s.allocs, cache, next);
            var n := Then(lo, Print(c.extent, s.allocs, lo.cache, lo.next));
            && Reaches(n, next, f, f1, cm, s)
            && Has(f1, lo.atom, TypeOf(c.min), Eval(c.min, w, env)) && Has(f1, n.atom, TypeOf(c.extent), Eval(c.extent, w, env))
            && Surroundings(g, env, map[], n.next, f1, m, cm, s)
  {
    var w := World(m, s.call);
    var x, y := Eval(c.min, w, env), Eval(c.extent, w, env);
    var lo := Print(c.min, s.allocs, cache, next);
    var n := Print(c.extent, s.allocs, lo.cache, lo.next);
    var fl := PrintSim(c.min, g, env, cache, next, f, m, cm, s);
    Onward(lo, TypeOf(c.min), x, g, env, cache, next, f, fl, m, cm, s);
    f1 := PrintSim(c.extent, g, env, lo.cache, lo.next, fl, m, cm, s);
    Onward(n, TypeOf(c.extent), y, g, env, lo.cache, lo.next, fl, f1, m, cm, s);
    ThenYields(lo, n, TypeOf(c.extent), y, next, f, fl, f1, cm, s);
  }

  /** The loop variable joins what is known. */
  lemma IterationStarts(c: Stmt, i: int, g: Context, env: Env, next: nat, f: Frame, m: Memory, cm: Memory, s: Setup)
    requires c.For? && LoopNamed(c.name) && PrintName(c.name) !in LoopNames(c.body) && NamesFree(c, f)
    requires Surroundings(g, env, map[], next, f, m, cm, s)
    ensures var f' := f.Define(PrintName(c.name), Int(32), i);
            && Surroundings(g.Bind(c.name, Int(32)), env.Set(c.name, i), map[], next, f', m, cm, s)
            && NamesFree(c.body, f')
  {
    var id := PrintName(c.name);
    var f' := f.Define(id, Int(32), i);
    var g', env' := g.Bind(c.name, Int(32)), env.Set(c.name, i);
    PrintedIsPlain(c.name);
    assert id in LoopNames(c);
    KnownInside(c.name, i, g, env, f, f');
    forall k | k >= next ensures Generated(k) !in f'.decl {
      if Generated(k) == id { assert IsGenerated(id); }
    }
  }

  lemma KnownInside(name: string, i: int, g: Context, env: Env, f: Frame, f': Frame)
    requires Known(g, env, f) && f' == f.Define(PrintName(name), Int(32), i) && PrintName(name) !in f.decl
    requires LoopNamed(name)
    ensures Known(g.Bind(name, Int(32)), env.Set(name, i), f')
  {
    var g', env' := g.Bind(name, Int(32)), env.Set(name, i);
    forall x | x in g'.vars ensures Knows(f', x, g'.vars[x], env'.Get(x)) {
      if x == name {
        KnowsLoop(name, i, f);
      } else {
        assert Knows(f, x, g.vars[x], env.Get(x));
        KnowsStill(x, g.vars[x], env.Get(x), PrintName(name), i, f);
      }
    }
  }

  lemma KnowsLoop(name: string, i: int, f: Frame)
    requires LoopNamed(name)
    ensures Knows(f.Define(PrintName(name), Int(32), i), name, Int(32), i)
  {
    PrintedIsPlain(name);
  }

  lemma KnowsStill(x: string, t: Type, v: int, id: string, i: int, f: Frame)
    requires Knows(f, x, t, v) && id !in f.decl
    ensures Knows(f.Define(id, Int(32), i), x, t, v)
  {}

  lemma {:induction false} LoopSim(c: Stmt, code: seq<Code>, i: int, end: int, g: Context, env: Env, next: nat,
      f: Frame, m: Memory, cm: Memory, s: Setup) returns (cm1: Memory)
    requires c.For? && StmtOk(c, g, s) && NamesFree(c, f) && LoopSafe(c.name, i, end, c.body, env, m, s.call)
    requires Surroundings(g, env, map[], next, f, m, cm, s) && code == PrintStmt(c.body, s.allocs, map[], next).code
    ensures ExecLoop(PrintName(c.name), i, end, code, f, cm, s.call) == (f, cm1)
    ensures MemOk(s.bufs, RunLoop(c.name, i, end, c.body, env, m, s.call), cm1)
    decreases StmtSize(c), 0, 0, if i < end then end - i else 0
  {
    if i >= end {
      cm1 := cm;
    } else {
      var m1 := Run(c.body, env.Set(c.name, i), m, s.call);
      var cmb := IterationSim(c, code, i, g, env, next, f, m, cm, s);
      FrameLater(next, next, f, cmb, s);
      cm1 := LoopSim(c, code, i + 1, end, g, env, next, f, m1, cmb, s);
    }
  }

  lemma {:induction false} IterationSim(c: Stmt, code: seq<Code>, i: int, g: Context, env: Env, next: nat, f: Frame,
      m: Memory, cm: Memory, s: Setup) returns (cm1: Memory)
    requires c.For? && StmtOk(c, g, s) && NamesFree(c, f) && StmtSafe(c.body, env.Set(c.name, i), m, s.call)
    requires Surroundings(g, env, map[], next, f, m, cm, s) && code == PrintStmt(c.body, s.allocs, map[], next).code
    ensures var (fb, cmb) := Exec(code, f.Define(PrintName(c.name), Int(32), i), cm, s.call); fb.Leave(f) == f && cmb == cm1
    ensures MemOk(s.bufs, Run(c.body, env.Set(c.name, i), m, s.call), cm1)
    decreases StmtSize(c), 0, 0, 0
  {
    var f' := f.Define(PrintName(c.name), Int(32), i);
    IterationStarts(c, i, g, env, next, f, m, cm, s);
    var fb;
    fb, cm1 := StmtSim(c.body, g.Bind(c.name, Int(32)), env.Set(c.name, i), map[], next, f', m, cm, s);
    assert PrintName(c.name) in LoopNames(c);
    IterationLeaves(f, f', fb, PrintName(c.name), i);
  }

  lemma IterationLeaves(f: Frame, f': Frame, fb: Frame, id: string, i: int)
    requires f' == f.Define(id, Int(32), i) && id !in f.decl && Extends(f', fb) && f.decl.Keys == f.vals.Keys
    ensures f'.Leave(f) == f && fb.Leave(f) == f
  {
    assert f'.Leave(f).vals == f.vals && fb.Leave(f).vals == f.vals;
  }

  /** A whole program, printed with nothing cached and nothing declared but its parameters,
      leaves the memory that the statement leaves. */
  lemma ProgramIsRight(c: Stmt, g: Context, env: Env, f: Frame, m: Memory, cm: Memory, s: Setup)
    requires StmtOk(c, g, s) && StmtSafe(c, env, m, s.call) && Known(g, env, f) && FrameOk(0, f) && NamesFree(c, f)
    requires MemOk(s.bufs, m, cm)
    ensures var (f1, cm1) := Exec(PrintStmt(c, s.allocs, map[], 0).code, f, cm, s.call);
            MemOk(s.bufs, Run(c, env, m, s.call), cm1)
  {
    var f1, cm1 := StmtSim(c, g, env, map[], 0, f, m, cm, s);
  }
}
