/** Rewriting unaligned or strided vector loads into loads of aligned native vectors, from
    which the wanted lanes are picked. */
module AlignLoads {
  import opened IR
  import opened BoundsRules
  import opened RuleSoundness

  /** A vector as the pass builds it: a load of a ramp, some lanes of another vector, or
      vectors one after the other. */
  datatype Vec =
    | Loaded(base: Expr, stride: int, lanes: nat)
    | Slice(vec: Vec, start: nat, step: nat, lanes: nat)
    | Concat(parts: seq<Vec>)

  function Lanes(v: Vec): nat {
    match v
    case Loaded(_, _, lanes) => lanes
    case Slice(_, _, _, lanes) => lanes
    case Concat(parts) => LanesOf(parts)
  }

  function LanesOf(vs: seq<Vec>): nat { if vs == [] then 0 else Lanes(vs[0]) + LanesOf(vs[1..]) }

  /** Every lane picked exists. */
  predicate Fits(v: Vec) {
    match v
    case Loaded(_, _, _) => true
    case Slice(vec, start, step, lanes) => Fits(vec) && (lanes > 0 ==> start + step * (lanes - 1) < Lanes(vec))
    case Concat(parts) => FitsAll(parts)
  }

  predicate FitsAll(vs: seq<Vec>) { vs == [] || (Fits(vs[0]) && FitsAll(vs[1..])) }

  /** The value in one lane, for a memory of one buffer. */
  function LaneOf(v: Vec, lane: int, mem: int -> int, w: World, env: Env): int
    decreases v, 0
  {
    match v
    case Loaded(base, stride, _) => mem(Eval(base, w, env) + stride * lane)
    case Slice(vec, start, step, _) => LaneOf(vec, start + step * lane, mem, w, env)
    case Concat(parts) => LaneOfParts(parts, lane, mem, w, env)
  }

  function LaneOfParts(vs: seq<Vec>, lane: int, mem: int -> int, w: World, env: Env): int
    decreases vs, 0
  {
    if vs == [] then 0
    else if lane < Lanes(vs[0]) then LaneOf(vs[0], lane, mem, w, env)
    else LaneOfParts(vs[1..], lane - Lanes(vs[0]), mem, w, env)
  }

  // ---------- the rewriting ----------

  /** What the pass knows: the lanes of a native vector, the residue of an index modulo
      them where it can be found (nothing if the buffer itself may be unaligned), and the
      simplifier. */
  datatype Target = Target(native: int, residue: Expr -> Option<int>, simplify: Expr -> Expr)

  function Plus(c: Target, base: Expr, i: int): Expr { c.simplify(Bin(Add, Int(32), base, Imm(Int(32), i))) }
  function Minus(c: Target, base: Expr, i: int): Expr { c.simplify(Bin(Sub, Int(32), base, Imm(Int(32), i))) }

  /** A known offset from an aligned address that is not zero. */
  predicate Misaligned(c: Target, base: Expr) { c.residue(base).Some? && c.residue(base).value != 0 }

  predicate Handled(stride: int) { stride == 1 || stride == 2 || stride == 3 }

  /** Residues are right in this run. */
  ghost predicate ResidueSound(c: Target, w: World, env: Env) {
    c.native > 0 && forall e :: c.residue(e).Some? ==> c.residue(e).value == Eval(e, w, env) % c.native
  }

  ghost predicate SimplifySound(c: Target, w: World) { forall e, env :: Eval(c.simplify(e), w, env) == Eval(e, w, env) }

  /** Residues are right in some run.  So whatever offset is found is in range, and aligning
      by it leaves no other offset to be found, now or a whole number of vectors on. */
  ghost predicate Coherent(c: Target) {
    && c.native > 0
    && (forall e :: c.residue(e).Some? ==> 0 <= c.residue(e).value < c.native)
    && forall e, k :: Misaligned(c, e) ==> !Misaligned(c, Plus(c, Minus(c, e, c.residue(e).value), k * c.native))
  }

  lemma SoundIsCoherent(c: Target, w: World, env: Env)
    requires ResidueSound(c, w, env) && SimplifySound(c, w)
    ensures Coherent(c)
  {
    forall e, k | Misaligned(c, e) ensures !Misaligned(c, Plus(c, Minus(c, e, c.residue(e).value), k * c.native)) {
      var r := c.residue(e).value;
      PlusValue(c, Minus(c, e, r), k * c.native, w, env);
      MinusValue(c, e, r, w, env);
      AlignedResidue(Eval(e, w, env), c.native, k);
    }
  }

  lemma PlusValue(c: Target, base: Expr, i: int, w: World, env: Env)
    requires SimplifySound(c, w)
    ensures Eval(Plus(c, base, i), w, env) == Eval(base, w, env) + i
  {
    var k := Imm(Int(32), i);
    assert Eval(k, w, env) == i;
    assert Eval(c.simplify(Bin(Add, Int(32), base, k)), w, env) == Eval(Bin(Add, Int(32), base, k), w, env);
  }

  lemma MinusValue(c: Target, base: Expr, i: int, w: World, env: Env)
    requires SimplifySound(c, w)
    ensures Eval(Minus(c, base, i), w, env) == Eval(base, w, env) - i
  {
    var k := Imm(Int(32), i);
    assert Eval(k, w, env) == i;
    assert Eval(c.simplify(Bin(Sub, Int(32), base, k)), w, env) == Eval(Bin(Sub, Int(32), base, k), w, env);
  }

  lemma AlignedResidue(x: int, n: int, k: int)
    requires n > 0
    ensures (x - x % n + k * n) % n == 0
  {
    var q := x / n;
    assert x - x % n + k * n == n * (q + k);
    MultipleHasNoResidue(n, q + k);
  }

  lemma MultipleHasNoResidue(n: int, q: int)
    requires n > 0
    ensures (n * q) % n == 0
  {
    Euclid(n * q, n);
    var p := (n * q) / n;
    assert n * (q - p) == (n * q) % n;
    if q != p { SmallMultiple(n, q - p); }
  }

  /** How far a load is from one that is left alone. */
  ghost function Rank(c: Target, base: Expr, stride: int, lanes: nat): nat {
    if !Handled(stride) then 0
    else if stride != 1 then 5
    else if lanes < c.native then 3
    else if lanes > c.native then (if Settled(c, base, lanes) then 1 else 4)
    else if Misaligned(c, base) then 2
    else 0
  }

  /** Two native vectors, neither known to be misaligned. */
  ghost predicate Settled(c: Target, base: Expr, lanes: nat) {
    lanes == 2 * c.native && !Misaligned(c, Plus(c, base, 0)) && !Misaligned(c, Plus(c, base, c.native))
  }

  function Shift(c: Target, base: Expr, stride: int): int {
    if c.residue(base).Some? && c.residue(base).value < stride then c.residue(base).value else 0
  }

  lemma AligningSettles(c: Target, base: Expr)
    requires Coherent(c) && Misaligned(c, base)
    ensures Settled(c, Minus(c, base, c.residue(base).value), 2 * c.native)
  {
    var aligned := Minus(c, base, c.residue(base).value);
    assert !Misaligned(c, Plus(c, aligned, 0 * c.native));
    assert !Misaligned(c, Plus(c, aligned, 1 * c.native));
    assert 0 * c.native == 0 && 1 * c.native == c.native;
  }

  /** AlignLoads::visit(const Load *), for a load of a ramp of constant stride. */
  function Rewritten(c: Target, base: Expr, stride: int, lanes: nat): Vec
    requires Coherent(c)
    decreases Rank(c, base, stride, lanes), 1, 0
  {
    if !Handled(stride) then Loaded(base, stride, lanes)
    else if stride != 1 then
      var shift := Shift(c, base, stride);
      Slice(Rewritten(c, Minus(c, base, shift), 1, lanes * stride), shift, stride, lanes)
    else if lanes < c.native then Slice(Rewritten(c, base, 1, c.native), 0, 1, lanes)
    else if lanes > c.native then Concat(Slices(c, base, lanes, 0))
    else if Misaligned(c, base) then
      AligningSettles(c, base);
      var offset := c.residue(base).value;
      Slice(Rewritten(c, Minus(c, base, offset), 1, lanes * 2), offset, 1, lanes)
    else Loaded(base, 1, lanes)
  }

  /** The native vectors from lane i on; the last may be shorter. */
  function Slices(c: Target, base: Expr, lanes: nat, i: nat): seq<Vec>
    requires Coherent(c) && lanes > c.native && AtVector(c, i)
    decreases Rank(c, base, 1, lanes), 0, if i < lanes then lanes - i else 0
  {
    if i >= lanes then []
    else
      var n := if c.native < lanes - i then c.native else lanes - i;
      SliceRank(c, base, lanes, i, n);
      NextSlice(c, i);
      [Rewritten(c, Plus(c, base, i), 1, n)] + Slices(c, base, lanes, i + c.native)
  }

  /** Whole vectors on from the first. */
  predicate AtVector(c: Target, i: int) { c.native > 0 && i % c.native == 0 }

  lemma NextSlice(c: Target, i: nat)
    requires AtVector(c, i)
    ensures AtVector(c, i + c.native)
  {
    var n := c.native;
    Euclid(i, n);
    assert i + n == n * (i / n + 1);
    MultipleHasNoResidue(n, i / n + 1);
  }

  /** Each part is closer to being left alone than the whole. */
  lemma SliceRank(c: Target, base: Expr, lanes: nat, i: nat, n: nat)
    requires Coherent(c) && i < lanes && lanes > c.native && AtVector(c, i)
    requires n == if c.native < lanes - i then c.native else lanes - i
    ensures Rank(c, Plus(c, base, i), 1, n) < Rank(c, base, 1, lanes)
  {
    if Settled(c, base, lanes) { TwoSlices(c.native, i); }
  }

  lemma TwoSlices(n: int, i: nat)
    requires n > 0 && i % n == 0 && i < 2 * n
    ensures i == 0 || i == n
  {
    var q := i / n;
    Euclid(i, n);
    if q >= 2 { MulMonotone(2, q, n); }
    if q < 0 { MulMonotone(q, -1, n); }
  }

  // ---------- correctness ----------

  predicate LaneReads(v: Vec, base: Expr, stride: int, lane: int, mem: int -> int, w: World, env: Env) {
    LaneOf(v, lane, mem, w, env) == mem(Eval(base, w, env) + stride * lane)
  }

  /** The vector has the lanes of the load, each holding what the load reads there. */
  ghost predicate Loads(v: Vec, base: Expr, stride: int, lanes: nat, w: World, env: Env) {
    && Lanes(v) == lanes && Fits(v)
    && forall lane, mem: int -> int :: 0 <= lane < lanes ==> LaneReads(v, base, stride, lane, mem, w, env)
  }

  lemma StridedLane(vec: Vec, base: int, shift: nat, stride: nat, lanes: nat)
    requires shift < stride && Lanes(vec) == lanes * stride
    ensures lanes > 0 ==> shift + stride * (lanes - 1) < Lanes(vec)
    ensures forall lane :: 0 <= lane < lanes ==> 0 <= shift + stride * lane < lanes * stride
  {
    forall lane | 0 <= lane < lanes ensures 0 <= shift + stride * lane < lanes * stride { LaneBelow(shift, stride, lane, lanes); }
    if lanes > 0 { LaneBelow(shift, stride, lanes - 1, lanes); }
  }

  lemma LaneBelow(shift: nat, stride: nat, lane: nat, lanes: nat)
    requires shift < stride && lane < lanes
    ensures 0 <= shift + stride * lane < lanes * stride
  {
    assert stride * (lane + 1) <= stride * lanes;
    assert stride * (lane + 1) == stride * lane + stride;
  }

  lemma SliceLane(v: Vec, dense: Expr, base: Expr, shift: nat, stride: nat, lane: int, lanes: nat, mem: int -> int,
      w: World, env: Env)
    requires Eval(dense, w, env) == Eval(base, w, env) - shift
    requires LaneReads(v, dense, 1, shift + stride * lane, mem, w, env)
    ensures LaneReads(Slice(v, shift, stride, lanes), base, stride, lane, mem, w, env)
  {}

  /** Picking every stride-th lane of a dense vector that starts `shift` before. */
  lemma SliceLoads(v: Vec, dense: Expr, base: Expr, shift: nat, stride: nat, lanes: nat, total: nat, w: World, env: Env)
    requires Loads(v, dense, 1, total, w, env) && Eval(dense, w, env) == Eval(base, w, env) - shift
    requires lanes > 0 ==> shift + stride * (lanes - 1) < total
    requires forall lane :: 0 <= lane < lanes ==> 0 <= shift + stride * lane < total
    ensures Loads(Slice(v, shift, stride, lanes), base, stride, lanes, w, env)
  {
    forall lane, mem: int -> int | 0 <= lane < lanes
      ensures LaneReads(Slice(v, shift, stride, lanes), base, stride, lane, mem, w, env) {
      SliceLane(v, dense, base, shift, stride, lane, lanes, mem, w, env);
    }
  }

  /** The rewritten load yields, lane by lane, what the load would have. */
  lemma {:induction false} RewrittenLoads(c: Target, base: Expr, stride: int, lanes: nat, w: World, env: Env)
    requires ResidueSound(c, w, env) && SimplifySound(c, w) && Coherent(c)
    ensures Loads(Rewritten(c, base, stride, lanes), base, stride, lanes, w, env)
    decreases Rank(c, base, stride, lanes), 1, 0
  {
    if !Handled(stride) {
    } else if stride != 1 {
      var shift := Shift(c, base, stride);
      var v := Rewritten(c, Minus(c, base, shift), 1, lanes * stride);
      RewrittenLoads(c, Minus(c, base, shift), 1, lanes * stride, w, env);
      MinusValue(c, base, shift, w, env);
      StridedLane(v, Eval(base, w, env), shift, stride, lanes);
      SliceLoads(v, Minus(c, base, shift), base, shift, stride, lanes, lanes * stride, w, env);
    } else if lanes < c.native {
      RewrittenLoads(c, base, 1, c.native, w, env);
      SliceLoads(Rewritten(c, base, 1, c.native), base, base, 0, 1, lanes, c.native, w, env);
    } else if lanes > c.native {
      SlicesLoad(c, base, lanes, 0, w, env);
      ConcatLoads(Slices(c, base, lanes, 0), base, lanes, w, env);
    } else if Misaligned(c, base) {
      AligningSettles(c, base);
      var offset := c.residue(base).value;
      RewrittenLoads(c, Minus(c, base, offset), 1, lanes * 2, w, env);
      MinusValue(c, base, offset, w, env);
      SliceLoads(Rewritten(c, Minus(c, base, offset), 1, lanes * 2), Minus(c, base, offset), base, offset, 1, lanes,
          lanes * 2, w, env);
    }
  }

  predicate PartReads(vs: seq<Vec>, base: Expr, i: int, lane: int, mem: int -> int, w: World, env: Env) {
    LaneOfParts(vs, lane - i, mem, w, env) == mem(Eval(base, w, env) + lane)
  }

  ghost predicate PartsLoad(vs: seq<Vec>, base: Expr, i: nat, lanes: nat, w: World, env: Env) {
    && i + LanesOf(vs) == lanes && FitsAll(vs)
    && forall lane, mem: int -> int :: i <= lane < lanes ==> PartReads(vs, base, i, lane, mem, w, env)
  }

  lemma {:induction false} SlicesLoad(c: Target, base: Expr, lanes: nat, i: nat, w: World, env: Env)
    requires ResidueSound(c, w, env) && SimplifySound(c, w) && Coherent(c) && lanes > c.native && AtVector(c, i)
    requires i <= lanes
    ensures PartsLoad(Slices(c, base, lanes, i), base, i, lanes, w, env)
    decreases Rank(c, base, 1, lanes), 0, lanes - i
  {
    if i < lanes {
      var n := if c.native < lanes - i then c.native else lanes - i;
      SliceRank(c, base, lanes, i, n);
      NextSlice(c, i);
      var v := Rewritten(c, Plus(c, base, i), 1, n);
      RewrittenLoads(c, Plus(c, base, i), 1, n, w, env);
      PlusValue(c, base, i, w, env);
      if i + c.native <= lanes {
        SlicesLoad(c, base, lanes, i + c.native, w, env);
        FirstPart(v, Slices(c, base, lanes, i + c.native), Plus(c, base, i), base, i, n, lanes, w, env);
      } else {
        var none: seq<Vec> := [];
        assert Slices(c, base, lanes, i + c.native) == none;
        FirstPart(v, none, Plus(c, base, i), base, i, n, lanes, w, env);
      }
    }
  }

  lemma ConcatLoads(vs: seq<Vec>, base: Expr, lanes: nat, w: World, env: Env)
    requires PartsLoad(vs, base, 0, lanes, w, env)
    ensures Loads(Concat(vs), base, 1, lanes, w, env)
  {
    forall lane, mem: int -> int | 0 <= lane < lanes ensures LaneReads(Concat(vs), base, 1, lane, mem, w, env) {
      assert PartReads(vs, base, 0, lane, mem, w, env);
    }
  }

  lemma FirstLane(v: Vec, rest: seq<Vec>, at: Expr, base: Expr, i: nat, lane: int, mem: int -> int, w: World, env: Env)
    requires Eval(at, w, env) == Eval(base, w, env) + i
    requires if lane - i < Lanes(v) then LaneReads(v, at, 1, lane - i, mem, w, env) else PartReads(rest, base, i + Lanes(v), lane, mem, w, env)
    ensures PartReads([v] + rest, base, i, lane, mem, w, env)
  {
    var vs := [v] + rest;
    assert vs[0] == v && vs[1..] == rest;
  }

  lemma FirstPart(v: Vec, rest: seq<Vec>, at: Expr, base: Expr, i: nat, n: nat, lanes: nat, w: World, env: Env)
    requires Loads(v, at, 1, n, w, env) && Eval(at, w, env) == Eval(base, w, env) + i
    requires PartsLoad(rest, base, i + n, lanes, w, env)
    ensures PartsLoad([v] + rest, base, i, lanes, w, env)
  {
    forall lane, mem: int -> int | i <= lane < lanes ensures PartReads([v] + rest, base, i, lane, mem, w, env) {
      if lane - i < n {
        assert LaneReads(v, at, 1, lane - i, mem, w, env);
      } else {
        assert PartReads(rest, base, i + n, lane, mem, w, env);
      }
      FirstLane(v, rest, at, base, i, lane, mem, w, env);
    }
    PartsFit(v, rest);
  }

  lemma PartsFit(v: Vec, rest: seq<Vec>)
    requires Fits(v) && FitsAll(rest)
    ensures LanesOf([v] + rest) == Lanes(v) + LanesOf(rest) && FitsAll([v] + rest)
  {
    var vs := [v] + rest;
    assert vs[0] == v && vs[1..] == rest;
  }

  // ---------- alignment ----------

  /** Every load in the vector is one native vector whose residue is found to be zero. */
  predicate AllNative(v: Vec, c: Target) {
    match v
    case Loaded(base, stride, lanes) => stride == 1 && lanes == c.native && c.residue(base) == Some(0)
    case Slice(vec, _, _, _) => AllNative(vec, c)
    case Concat(parts) => AllNativeIn(parts, c)
  }

  predicate AllNativeIn(vs: seq<Vec>, c: Target) { vs == [] || (AllNative(vs[0], c) && AllNativeIn(vs[1..], c)) }

  /** Every load in the vector reads one native vector, at an address that is a whole number
      of native vectors from the start of the buffer. */
  predicate AtAligned(v: Vec, native: int, w: World, env: Env)
    requires native > 0
  {
    match v
    case Loaded(base, stride, lanes) => stride == 1 && lanes == native && Eval(base, w, env) % native == 0
    case Slice(vec, _, _, _) => AtAligned(vec, native, w, env)
    case Concat(parts) => AtAlignedIn(parts, native, w, env)
  }

  predicate AtAlignedIn(vs: seq<Vec>, native: int, w: World, env: Env)
    requires native > 0
  {
    vs == [] || (AtAligned(vs[0], native, w, env) && AtAlignedIn(vs[1..], native, w, env))
  }

  /** Where the residue of an index is found, so it is a constant away. */
  ghost predicate FindsOffsets(c: Target) {
    forall e, k :: c.residue(e).Some? ==> c.residue(Plus(c, e, k)).Some? && c.residue(Minus(c, e, k)).Some?
  }

  /** If the residue of the index can be found, every load that is emitted is of exactly one
      native vector, and its residue is found to be zero. */
  lemma {:induction false} RewrittenIsNative(c: Target, base: Expr, stride: int, lanes: nat)
    requires Coherent(c) && Handled(stride) && FindsOffsets(c) && c.residue(base).Some?
    ensures AllNative(Rewritten(c, base, stride, lanes), c)
    decreases Rank(c, base, stride, lanes), 1, 0
  {
    if stride != 1 {
      var shift := Shift(c, base, stride);
      RewrittenIsNative(c, Minus(c, base, shift), 1, lanes * stride);
    } else if lanes < c.native {
      RewrittenIsNative(c, base, 1, c.native);
    } else if lanes > c.native {
      SlicesAreNative(c, base, lanes, 0);
    } else if Misaligned(c, base) {
      AligningSettles(c, base);
      RewrittenIsNative(c, Minus(c, base, c.residue(base).value), 1, lanes * 2);
    }
  }

  lemma {:induction false} SlicesAreNative(c: Target, base: Expr, lanes: nat, i: nat)
    requires Coherent(c) && lanes > c.native && AtVector(c, i) && FindsOffsets(c) && c.residue(base).Some?
    ensures AllNativeIn(Slices(c, base, lanes, i), c)
    decreases Rank(c, base, 1, lanes), 0, if i < lanes then lanes - i else 0
  {
    if i < lanes {
      var n := if c.native < lanes - i then c.native else lanes - i;
      SliceRank(c, base, lanes, i, n);
      NextSlice(c, i);
      RewrittenIsNative(c, Plus(c, base, i), 1, n);
      SlicesAreNative(c, base, lanes, i + c.native);
    }
  }

  lemma {:induction false} NativeIsAligned(v: Vec, c: Target, w: World, env: Env)
    requires ResidueSound(c, w, env) && AllNative(v, c)
    ensures AtAligned(v, c.native, w, env)
  {
    match v
    case Loaded(_, _, _) =>
    case Slice(vec, _, _, _) => NativeIsAligned(vec, c, w, env);
    case Concat(parts) => NativeAreAligned(parts, c, w, env);
  }

  lemma {:induction false} NativeAreAligned(vs: seq<Vec>, c: Target, w: World, env: Env)
    requires ResidueSound(c, w, env) && AllNativeIn(vs, c)
    ensures AtAlignedIn(vs, c.native, w, env)
  {
    if vs != [] {
      NativeIsAligned(vs[0], c, w, env);
      NativeAreAligned(vs[1..], c, w, env);
    }
  }

  /** If the residue of the index can be found, every load that is emitted reads exactly one
      native vector at an aligned address, in every run in which the residues are right. */
  lemma RewrittenIsAligned(c: Target, base: Expr, stride: int, lanes: nat, w: World, env: Env)
    requires ResidueSound(c, w, env) && SimplifySound(c, w) && Coherent(c)
    requires Handled(stride) && FindsOffsets(c) && c.residue(base).Some?
    ensures AtAligned(Rewritten(c, base, stride, lanes), c.native, w, env)
  {
    RewrittenIsNative(c, base, stride, lanes);
    NativeIsAligned(Rewritten(c, base, stride, lanes), c, w, env);
  }

  // ---------- the visitor ----------

  /** The visit as it runs: the parts of a long load are pushed one after the other. */
  method VisitLoad(c: Target, base: Expr, stride: int, lanes: nat) returns (r: Vec)
    requires Coherent(c)
    ensures r == Rewritten(c, base, stride, lanes)
    decreases Rank(c, base, stride, lanes), 1
  {
    if !Handled(stride) { return Loaded(base, stride, lanes); }
    if stride != 1 {
      var shift := if c.residue(base).Some? && c.residue(base).value < stride then c.residue(base).value else 0;
      var dense := VisitLoad(c, Minus(c, base, shift), 1, lanes * stride);
      return Slice(dense, shift, stride, lanes);
    }
    if lanes < c.native {
      var whole := VisitLoad(c, base, 1, c.native);
      return Slice(whole, 0, 1, lanes);
    }
    if lanes > c.native {
      var slices := VisitSlices(c, base, lanes);
      return Concat(slices);
    }
    if c.residue(base).Some? && c.residue(base).value != 0 {
      AligningSettles(c, base);
      var offset := c.residue(base).value;
      var aligned := VisitLoad(c, Minus(c, base, offset), 1, lanes * 2);
      return Slice(aligned, offset, 1, lanes);
    }
    r := Loaded(base, 1, lanes);
  }

  lemma SlicesFrom(c: Target, base: Expr, lanes: nat, i: nat, n: nat, slices: seq<Vec>)
    requires Coherent(c) && lanes > c.native && AtVector(c, i) && AtVector(c, i + c.native) && i < lanes
    requires n == if c.native < lanes - i then c.native else lanes - i
    ensures slices + Slices(c, base, lanes, i)
         == slices + [Rewritten(c, Plus(c, base, i), 1, n)] + Slices(c, base, lanes, i + c.native)
  {}

  method VisitSlices(c: Target, base: Expr, lanes: nat) returns (slices: seq<Vec>)
    requires Coherent(c) && lanes > c.native
    ensures slices == Slices(c, base, lanes, 0)
    decreases Rank(c, base, 1, lanes), 0
  {
    slices := [];
    var i := 0;
    while i < lanes
      invariant i >= 0 && AtVector(c, i)
      invariant slices + Slices(c, base, lanes, i) == Slices(c, base, lanes, 0)
      decreases if i < lanes then lanes - i else 0
    {
      var n := if c.native < lanes - i then c.native else lanes - i;
      SliceRank(c, base, lanes, i, n);
      NextSlice(c, i);
      SlicesFrom(c, base, lanes, i, n, slices);
      var part := VisitLoad(c, Plus(c, base, i), 1, n);
      slices := slices + [part];
      i := i + c.native;
    }
  }
}
