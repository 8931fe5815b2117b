# Halide's bounds inference and program rewriting, modelled in Dafny

Halide compiles image-processing pipelines. This project models the parts of its compiler
that decide how much of every stage is computed and that rewrite programs while keeping
their meaning, and proves that they are right, or exactly when they are.

- **Interval analysis** (`Interval`, `Bounds`, `BoundsSound`, `IntervalSoundness`,
  `IntervalShape`, `BoundsVisitor`, `BoundsGaps`): for an expression, two expressions over
  the parameters between which its value lies.
- **Regions** (`Boxes`, `BoxesTouched`, `RegionSoundness`, `RegionScopes`, `RegionTheorem`,
  `RegionVisitor`, `RegionGaps`): for a statement and a function, a conditional box that
  holds every point of the function that the statement reads or writes.
- **Function bounds and bounds inference** (`Pipeline`, `FunctionBounds`, `BoundsInference`,
  `PipelineReads`, `PipelineRegions`, `PipelineTheorem`, `PipelineGap`): intervals for the
  values of functions, and the lets that define the region of every stage; computing every
  stage over its region gives the values of the recursive definitions.
- **Common subexpression elimination** (`Cse`, `CseMeaning`, `CseTheorems`, `CseAgain`,
  `CseSharing`, `CseVisitors`, `CseGap`).
- **C code generation** (`TwosComplement`, `Text`, `CodeGenC`, `CodeGenMeaning`,
  `CodeGenText`, `CodeGenSim`, `CodeGenSubst`, `CodeGenTheorem`, `CodeGenStmts`,
  `CodeGenVisitor`, `CodeGenGaps`): single assignments with a cache of right-hand sides by
  their text, and the lowering of Euclidean division.
- **Load alignment** (`AlignLoads`).

`IR` holds the expressions and their meaning, `Trees` and `Scopes` what several parts share,
and `Witnesses` inputs that satisfy the hypotheses of the main theorems. Each visitor of the
original is a class or a method with loops, proved equal to a function; the theorems are
about these functions.

## What is assumed

- Types below 32 bits wrap; signed types of 32 bits and more are mathematical integers, since
  their overflow is undefined; wide unsigned types are natural numbers. Vectors are read one
  lane at a time. Division and remainder are Euclidean and give 0 for a zero divisor.
- `can_prove` says true only to what always holds (`ProverSound`). `simplify` keeps values
  and mentions no new variable or function (`SimplifierSound`). The residues that load
  alignment finds are right (`ResidueSound`).
- Lets are not reused, and no variable is called like the end of a let (`Hygienic`).
- No remainder by zero is taken where bounds are computed (`Defined`, `Runs`).
- `Regular` states, for each rule of the interval analysis, when it drops or misreads no end.
  Where a rule does, `BoundsGaps` says exactly when its interval is still right. Casts
  behind a constant may wrap as long as its sign is read right (`SignIs`).
- `Sane` asks this of every expression whose bounds a region depends on, and one number of
  dimensions for each function. `WellFormed` asks it of every stage of a pipeline, with
  functions in realization order, distinct names for regions, and no region that depends on
  the value of a function (`Settled`).
- `StmtOk` asks of a program for the C back end that it is typed and scalar, of types that C
  has, with lets and loops named apart; that no let value prints as a negative literal; and
  that a divisor taken for a power of two is that power (`PowerIsRight`): exactly it for a
  quotient, which is a shift by fewer bits than the type has, and it or its opposite and
  below 2^31 for a remainder. `StmtSafe` asks of a run that it divides by no zero, and that
  what is converted to bool is zero or odd (`Stored`). `CodeGenGaps` and `StoredIsWrapped`
  say when, exactly, masks, shifts, conversions and let texts are right.

## Findings

Where the code falls short of its documentation, the code is modelled as it is. Each of these
has a proved input on which it fails, and a condition for when it does not.

- **A missing end scaled by a negative constant** (src/Bounds.cpp:321-322, 373-374): the
  infinite end changes sides but not sign, so nothing is contained. `MulByNegative`,
  `DivByNegative`: right if and only if the other operand has both ends, at every width.
- **A remainder by a half-bounded divisor** (408-411): the divisor's own interval is returned.
  `ModByHalfBounded`: right if and only if it reaches zero or below and its upper end, if it
  has one, is of an unsigned type or the greatest value.
- **A select with a half-bounded arm** (511-520): that arm's interval is returned.
  `SelectHalfBounded`: right if and only if it spans the other arm's.
- **A half-open sum or difference below 32 bits** (231-247, 270-293): only the end that exists
  is checked for overflow. `AddHalfOpen`, `SubHalfOpen`: right if and only if the end kept is
  the type's own or no result wraps past the other side. `NarrowSumWraps`: 100 + 100.
- **Signs read through wrapping casts** (27-42, 318-322, 371-374, 423): `(int32)(int8)200` is
  -56 and reads as positive. `MulBySign`, `DivBySign`, `ModBySign` give the exact conditions
  at every width, `WrappedConstantScales` an input. Below 32 bits a product is also right
  where a corner does not fit, and `DivBySignAtMin` has the one quotient that wraps.
- **MIN / -1 below 32 bits** (368-402): the quotient wraps at an end. `DivMinByMinusOne` is
  exact for a single divisor. `DivByRangeAtMin`, for a range of divisors of one sign: right
  if and only if it does not meet MIN / -1 or its upper end reaches the greatest quotient
  (`Peak`). `DivRangeWraps` is an input.
- **Constants found behind narrowing casts** (44-77, 160-186): a constant cast with its
  operand need not bound it. `CastOfClamp`, `CastOfClampBelow`: it does if and only if the
  cast keeps the order on its side. `NarrowedTooFar`: `cast<uint8>(x)` with a value of 200 is given the bound 10.
- **Crossed guards in `boxes_overlap`** (907-912): the guards test one end of each interval and
  the comparisons read the other two. `GuardsServe`, `CrossedGuards`: a comparison with an
  infinite end, which is an error, happens if and only if the two guards differ.
- **Large let values with a missing end** (1056-1083): the ends get names, and the missing one
  is bound to an infinity in a let, which then passes for a finite end. `LargeLetEnds`, for
  signed types of 32 bits or more: the interval of the variable holds every value if and only
  if the ends are substituted or both are finite. `LargeLetMissesRead` is a read outside the
  reported box.
- **Conditions that call functions** (523-541): a condition that no variable in scope changes
  is kept in the bounds, hence in the let that defines a producer's region, which is evaluated
  before any function has been computed. `RegionReadsUncomputed` is a pipeline that reads
  a point that was never computed. `KeptConditionCalls` says exactly when ends come to call a
  function, and `PipelineIsRight` holds for definitions without such conditions.
- **Let-bound names that also occur free** (src/CSE.cpp:116-123): an expression is looked up
  before its let variables are replaced. `ClashChangesValue`: `(x + y) + (let x = z in x + y)`
  becomes `let t = x + y in t + t`. `EliminatePreserves` holds when no name is both.
- **Negative literals as let values** (src/CodeGen_C.cpp:309-329, 1302-1308): substituting the
  text of a value as a variable's name mangles its minus sign. `LiteralsReadBack`,
  `LetTextReads`: it is read back if and only if it is no negative literal. `NegativeLetReads`:
  `let x = -5 in x + 1` becomes `___5 + 1`, and nothing declares `___5`.
- **Masks wider than an int** (src/CodeGen_C.cpp:810-815): the mask `(1 << k) - 1` is computed
  in a C int. `MaskMustFit`: whatever an undefined shift leaves, the remainder is right if and
  only if k is below 31; `NoIntMasks`: from 2^32 on no int is the mask. `WideRemainder` is the
  64-bit remainder that is emitted with it.
- **Conversions to bool** (269-271, 775-777): C compares with zero where the program takes the
  lowest bit. `StoredIsWrapped`: they agree if and only if the value is zero or odd.
  `BoolCastAtTwo`: `cast<bool>(2)`; `BoolSumOfOnes`: true + true.
- **Powers of two behind wrapping casts** (src/IROperator.cpp:126-154, src/CodeGen_C.cpp:797-815):
  the power is looked for under the casts. `ShiftIsQuotient`: the shift is the quotient if and
  only if the divisor is 2^k; `MaskIsRemainder`: the mask is the remainder if and only if its
  magnitude is. `WrappedPowerShifts`: -1 / (int8)128 is 1, and is emitted as -1 >> 7.

## Model

| member | source | states |
|---|---|---|
| IntervalSoundness.BoundsSound | src/Bounds.cpp:80-735 | for every expression, scope and pair of environments that agree with it, the two ends evaluate to values of the type around the expression's value, and mention parameters only |
| IntervalShape.RegularGood | src/Bounds.cpp:80-735 | the interval is proper and over the parameters whether or not any evaluation reaches the expression |
| RuleSoundness.AddSound | src/Bounds.cpp:212-249 | from intervals around the operands, an interval around their sum, wrapped below 32 bits |
| RuleSoundness.SubSound | src/Bounds.cpp:251-295 | the same for the difference, of signed and unsigned types |
| RuleSoundness.MulSound | src/Bounds.cpp:297-355 | the same for the product, by four corners or by a factor of known or unknown sign; below 32 bits the corner tests keep every product from wrapping |
| RuleSoundness.DivSound | src/Bounds.cpp:357-402 | the same for the Euclidean quotient, by one divisor or a range of one sign |
| RuleSoundness.DivCorners | src/Bounds.cpp:388-398 | the quotients of a rectangle that does not touch zero lie between those of its corners |
| RuleSoundness.ModSound | src/Bounds.cpp:404-441 | remainders lie between 0 and the largest absolute divisor less one, even where that does not fit the type |
| RuleSoundness.CastSound | src/Bounds.cpp:134-199 | the interval of a cast contains the wrapped value, in the widening, narrowing and overflowing cases |
| RuleSoundness.FindConstantBoundSound | src/Bounds.cpp:44-77 | the constant found bounds the expression on the side asked for, if every cast on the way keeps all values |
| RuleSoundness.StaticSignSound | src/Bounds.cpp:27-42 | a sign found is the sign of the value |
| RuleSoundness.RampSound | src/Bounds.cpp:557-566 | every lane of a ramp lies in the interval |
| Intervals.MakeExtValue | src/Interval.cpp:11-91 | the eagerly simplified minimum or maximum evaluates to the minimum or maximum |
| Intervals.MakeBoundFacts | src/Interval.cpp:11-101 | with infinities: a value is below the joined end exactly if it is below one of the two, and so on |
| BoundsVisitor.Bounds.Accept | src/Bounds.cpp:80-772 | the visitor, which pushes and pops its scope, leaves the specified interval and its scope as it was |
| BoundsVisitor.BoundsOfExprInScope | src/Bounds.cpp:774-788 | the visitor's result for a given scope is the specified interval |
| Scopes.PushHides | src/Scope.h:105-156 | a name just pushed is seen with its value, and no other name changes |
| Scopes.PopUndoesPush | src/Scope.h:140-165 | popping restores what was visible before the push |
| BoundsGaps.MulByNegative | src/Bounds.cpp:309-327 | a product by a negative constant is in its interval if and only if the other operand has both ends |
| BoundsGaps.DivByNegative | src/Bounds.cpp:368-377 | the same for a quotient |
| BoundsGaps.MulBySign | src/Bounds.cpp:309-327 | products by a constant are right for all x if and only if its sign was read right, or there is at most one x, or below 32 bits a corner does not fit |
| BoundsGaps.DivBySign | src/Bounds.cpp:368-377 | the same for quotients, or all are equal, where neither end is MIN / -1 |
| BoundsGaps.DivBySignAtMin | src/Bounds.cpp:368-377 | down to MIN, a divisor of -1 that reads as positive is right if and only if the upper end is at most MIN + 1 |
| BoundsGaps.DivMinByMinusOne | src/Bounds.cpp:368-386 | quotients by one divisor are right if and only if they are not MIN / -1 next to others |
| BoundsGaps.DivByRangeAtMin | src/Bounds.cpp:368-402 | quotients below 32 bits by a range of divisors are right if and only if none is MIN / -1 or the upper end reaches the greatest |
| BoundsGaps.ModByHalfBounded | src/Bounds.cpp:408-411 | what is returned for a half-bounded divisor contains all remainders if and only if the stated ends hold |
| BoundsGaps.ModBySign | src/Bounds.cpp:421-425 | a divisor range whose lower end reads as positive is handled right if and only if it reaches no further below zero than above, or is empty, or its upper end less one wraps |
| BoundsGaps.SelectHalfBounded | src/Bounds.cpp:510-520 | the half-bounded arm's interval serves if and only if it spans the other's |
| BoundsGaps.AddHalfOpen | src/Bounds.cpp:225-248 | a half-open narrow sum is right for all operands if and only if nothing wraps past the end kept |
| BoundsGaps.SubHalfOpen | src/Bounds.cpp:262-294 | the same for a difference |
| BoundsGaps.CastOfClamp | src/Bounds.cpp:44-77 | the constant found for a clamped and cast value bounds all values if and only if the cast keeps the order below it |
| BoundsGaps.CastOfClampBelow | src/Bounds.cpp:44-77 | the same for a value clamped from below |
| BoundsGaps.NarrowSumWraps | src/Bounds.cpp:231-247 | an eight-bit sum outside its interval |
| BoundsGaps.WrappedConstantScales | src/Bounds.cpp:319-322 | a product outside its interval, for a constant that wraps to a negative value |
| BoundsGaps.NarrowedTooFar | src/Bounds.cpp:160-186 | a cast whose value 200 is outside its interval, which ends at 10 |
| BoundsGaps.DivRangeWraps | src/Bounds.cpp:385-399 | an eight-bit quotient outside its interval |
| Boxes.MergeIsHull | src/Bounds.cpp:807-882 | under every assignment each merged interval is the hull of those of the boxes in use |
| Boxes.MergeUsedValue | src/Bounds.cpp:872-881 | the merged box is in use exactly if one of the two is |
| Boxes.MergeCovers | src/Bounds.cpp:807-882 | a point covered by either box is covered by the merged one |
| Boxes.BoxCell.MergeBoxes | src/Bounds.cpp:807-882 | the loop that overwrites the first box computes the specified merge |
| Boxes.BoxContains | src/Bounds.cpp:919-942 | true implies containment whatever the parameters; an error exactly if an end that is compared is missing |
| Boxes.BoxesOverlap | src/Bounds.cpp:890-917 | false implies disjointness whatever the parameters; an error exactly if a guard lets a missing end through |
| Boxes.GuardsServe | src/Bounds.cpp:907-912 | the guards keep missing ends out if and only if both come out the same |
| Boxes.CrossedGuards | src/Bounds.cpp:907-912 | two half-bounded intervals that the guards let through |
| RegionTheorem.TouchSound | src/Bounds.cpp:944-1293 | every point that a statement reads or writes, in any evaluation, is covered by the box reported for its function |
| RegionTheorem.TouchKeeps | src/Bounds.cpp:944-1293 | the traversal loses nothing reported before and keeps boxes over the names in sight |
| RegionTheorem.BoxesTouchedSound | src/Bounds.cpp:1298-1333 | the same for reads and writes collected apart and then combined |
| RegionScopes.LiveLoop | src/Bounds.cpp:1250-1274 | inside a loop the scope is right for the loop variable, whether its ends are found by name or computed |
| RegionScopes.LiveLet | src/Bounds.cpp:1038-1085 | inside a let the scope is right, whether the ends are substituted or named |
| RegionScopes.LiveTrim | src/Bounds.cpp:1097-1197 | inside a branch the scope trimmed by the condition is right |
| RegionScopes.TrimContains | src/Bounds.cpp:1125-1193 | a value that meets the comparison stays inside its trimmed interval |
| RegionSoundness.ForkBoxCovers | src/Bounds.cpp:1203-1247 | after a fork on a parameter-only condition, the box covers the points of whichever branch is taken |
| RegionGaps.LargeLetEnds | src/Bounds.cpp:1056-1083 | the interval of a let variable holds all its values if and only if the ends are substituted or both finite |
| RegionGaps.LargeLetMissesRead | src/Bounds.cpp:1056-1083 | a let whose body reads a point outside the reported box |
| RegionVisitor.TouchVisitor.Visit | src/Bounds.cpp:944-1293 | the visitor, which swaps and updates its map of boxes and its scope, leaves the specified boxes |
| RegionVisitor.BoxesTouchedIn | src/Bounds.cpp:1298-1333 | both traversals and their combination give the specified boxes |
| FunctionBounds.ValueBoundsSound | src/Bounds.cpp:1390-1445 | each recorded interval contains the function's value at every argument tuple and under every specialization |
| FunctionBounds.ValueBoundsGood | src/Bounds.cpp:1390-1445 | each recorded interval is proper and over the parameters |
| FunctionBounds.ImpureUnbounded | src/Bounds.cpp:1411-1437 | a function that is not pure gets no entry |
| FunctionBounds.ComputeFunctionValueBounds | src/Bounds.cpp:1404-1445 | the loop over functions and values computes the specified bounds |
| Pipeline.ReferenceMeets | src/Bounds.cpp:1408-1437 | in the world of the recursive definitions every pure function satisfies its own |
| PipelineReads.StageExprsAreChosen | src/BoundsInference.cpp:137-220 | exactly the values of the definition in force are listed under conditions that hold |
| PipelineReads.SameReads | src/Bounds.cpp:963-1030 | an expression's value depends on functions only at the points it is said to read |
| PipelineRegions.StageRequires | src/BoundsInference.cpp:672-722 | whatever a value in force reads at a point of the stage's region is required of its producer |
| PipelineTheorem.RegionsHold | src/BoundsInference.cpp:450-459 | inside the lets the region variables of every stage hold the ends of its box |
| PipelineTheorem.ReadsAreComputed | src/BoundsInference.cpp:672-795 | at a point of its region a stage reads an earlier stage inside that stage's region only |
| PipelineTheorem.LetsRunFirst | src/BoundsInference.cpp:853-869 | evaluated before any function is computed, the lets give the regions they would give afterwards |
| PipelineTheorem.ExecutedIsRight | src/BoundsInference.cpp:672-869 | after each stage all stages so far are right in their regions |
| PipelineTheorem.PipelineIsRight | src/BoundsInference.cpp:672-869 | the emitted statement reaches its body in the environment of the lets; there every asked point of every output is computed, and every stage has the values of the recursive definitions at every point of its region |
| PipelineTheorem.InferredLetsScoped | src/BoundsInference.cpp:450-459 | each injected let refers to parameters and to lets placed further out |
| PipelineTheorem.ComputedBoundsSuffice | src/BoundsInference.cpp:672-723 | the function bounds of compute_function_value_bounds meet what the pipeline theorem asks |
| PipelineGap.RegionReadsUncomputed | src/Bounds.cpp:523-541 | a pipeline whose inferred region misses a point that is read, because a kept condition calls a function |
| PipelineGap.KeptConditionCalls | src/Bounds.cpp:523-541 | ends come to call a function exactly if the kept condition does and the arms differ |
| BoundsInference.Inference.Infer | src/BoundsInference.cpp:594-869 | the pass fails exactly on unbounded regions, and else wraps the body in the specified lets |
| BoundsInference.Inference.Relate | src/BoundsInference.cpp:672-795 | the nested loops over consumers and producers fill in the specified boxes of every stage |
| BoundsInference.Inference.WrapOutermost | src/BoundsInference.cpp:853-869 | the first stage's lets come innermost |
| BoundsInference.Inference.DefineBounds | src/BoundsInference.cpp:450-459 | the lets of one stage, a single point being named once |
| CseMeaning.NumberIsCanon | src/CSE.cpp:96-166 | numbering keeps entries distinct, let-free and children first, and the number found is that of the let-free form |
| CseMeaning.CanonMeans | src/CSE.cpp:96-166 | the let-free form has the expression's value |
| CseTheorems.EliminatePreserves | src/CSE.cpp:229-279 | the result has the input's value in every environment |
| CseTheorems.EliminateScopes | src/CSE.cpp:260-274 | each let mentions only free variables and lets further out |
| CseTheorems.EliminateKeepsForm | src/CSE.cpp:229-279 | input and result have the same let-free form |
| CseAgain.EliminateAgain | src/CSE.cpp:229-279 | elimination is idempotent: the same expressions are extracted in the same order, and the result is eliminated to itself |
| CseSharing.CountsArePositions | src/CSE.cpp:178-199 | the counts found with a set of visited expressions are the numbers of positions in the rebuilt lets and body |
| CseSharing.NothingIsSharedTwice | src/CSE.cpp:244-274 | no two positions of the result hold the same extractable expression |
| CseSharing.VariablesAreUsed | src/CSE.cpp:244-274 | each variable introduced stands at as many positions as were counted, at least two |
| CseGap.ClashChangesValue | src/CSE.cpp:116-123 | an expression whose value changes, with a name both let-bound and free |
| CseVisitors.GVN.Mutate | src/CSE.cpp:96-147 | the mutator with its tables computes the specified numbering |
| CseVisitors.ComputeUseCounts.Include | src/CSE.cpp:178-199 | the visitor's counts in the entries are the specified ones |
| CseVisitors.CommonSubexpressionElimination | src/CSE.cpp:229-279 | the whole pass, with its replacer that remembers and forgets, computes the specified elimination |
| TwosComplement.LoweringIsEuclidean | src/CodeGen_Internal.cpp:203-251 | at every width, the corrected truncating quotient and remainder are the Euclidean ones, and the remainder lies in [0, abs(b)) |
| TwosComplement.MaskIsMod | src/CodeGen_C.cpp:810-815 | masking a two's-complement value is the remainder by a power of two |
| TwosComplement.SignMask | src/CodeGen_Internal.cpp:225-226 | shifting by the width less one gives the sign mask |
| CodeGenSim.ChainIsDiv | src/CodeGen_Internal.cpp:203-229 | the emitted assignments, each wrapping in its type, compute the Euclidean quotient |
| CodeGenMeaning.StoredIsWrapped | src/CodeGen_C.cpp:269-271 | C stores what the program's conversion gives if and only if the type has more bits than one or the value is zero or odd |
| CodeGenText.TextReadsBack | src/CodeGen_C.cpp:738-1245 | the text of a right-hand side reads back as that right-hand side |
| CodeGenText.TextFinds | src/CodeGen_C.cpp:738-751 | looking the text up in the cache finds a variable if and only if the right-hand side was assigned to it |
| CodeGenText.TextAdds | src/CodeGen_C.cpp:738-751 | and so it stays when a text is added |
| CodeGenSim.AssignmentYields | src/CodeGen_C.cpp:738-751 | whether the right-hand side was remembered or not, the identifier holds its value and the cache stays right |
| CodeGenSim.LiteralsReadBack | src/CodeGen_C.cpp:309-329 | a literal printed as a name reads back if and only if it is not negative |
| CodeGenTheorem.PrintSim | src/CodeGen_C.cpp:728-870 | the code emitted for an expression computes its value, and afterwards every remembered right-hand side still evaluates to its identifier |
| CodeGenStmts.StmtSim | src/CodeGen_C.cpp:1247-1541 | the same for statements: stores, lets, loops and branches, which clear the cache |
| CodeGenStmts.ProgramIsRight | src/CodeGen_C.cpp:1247-1541 | the emitted program leaves memory as the statement does |
| CodeGenVisitor.CodeGen.EmitAssignment | src/CodeGen_C.cpp:738-751 | looked up by text, a right-hand side is found or assigned to a fresh name as specified |
| CodeGenVisitor.CodeGen.Emit | src/CodeGen_C.cpp:728-870 | the visitor with its stream, counter and cache by text emits the specified code |
| CodeGenVisitor.CodeGen.EmitStmt | src/CodeGen_C.cpp:1271-1548 | the same for statements |
| CodeGenVisitor.Compile | src/CodeGen_C.cpp:1247-1541 | every run of what a fresh visitor emits for a program leaves memory as the program does |
| CodeGenStmts.StmtWrites | src/CodeGen_C.cpp:738-751 | programs that the theorem admits have texts that read back |
| CodeGenGaps.MaskMustFit | src/CodeGen_C.cpp:810-815 | the emitted mask is right for all values, whatever an undefined shift leaves, if and only if k is below 31 |
| CodeGenGaps.NoIntMasks | src/CodeGen_C.cpp:810-815 | from 2^32 on every int is a wrong mask |
| CodeGenGaps.WideRemainder | src/CodeGen_C.cpp:810-815 | a 64-bit remainder is emitted with a mask that is wrong |
| CodeGenGaps.ShiftIsQuotient | src/CodeGen_C.cpp:797-802 | the shift by k is the quotient of all values if and only if the divisor is 2^k |
| CodeGenGaps.MaskIsRemainder | src/CodeGen_C.cpp:810-815 | the mask of k bits is the remainder of all values if and only if the divisor's magnitude is 2^k |
| CodeGenGaps.WrappedPowerShifts | src/IROperator.cpp:126-154 | a quotient by a constant that wraps to -128 is emitted as a shift by 7, which is wrong |
| CodeGenGaps.BoolCastAtTwo | src/CodeGen_C.cpp:775-777 | cast<bool>(2) is 0 and the emitted code stores 1 |
| CodeGenGaps.BoolSumOfOnes | src/CodeGen_C.cpp:785-787 | true + true is 0 and is stored as 1 |
| CodeGenGaps.LetTextReads | src/CodeGen_C.cpp:1302-1308 | the variable put in place of a let's is read as the value's text if and only if that is no negative literal |
| CodeGenGaps.NegativeLetReads | src/CodeGen_C.cpp:1302-1308 | a let whose emitted code reads a name that is not declared |
| AlignLoads.RewrittenLoads | src/AlignLoads.cpp:41-133 | the rewritten load yields lane by lane what the load would, for every memory, base, lane count and stride |
| AlignLoads.RewrittenIsAligned | src/AlignLoads.cpp:85-131 | if the residue of the index is found, every load emitted reads one native vector at an address that is a multiple of its lanes |
| AlignLoads.SliceRank | src/AlignLoads.cpp:110-122 | each part of a long load is closer to being left alone, so the recursion ends |
| AlignLoads.SoundIsCoherent | src/AlignLoads.cpp:77-83 | residues that are right in one evaluation are all that the recursion needs to end |
| AlignLoads.VisitLoad | src/AlignLoads.cpp:41-133 | the visitor, with its loop over slices, builds the specified vector |
| Witnesses.BoundsSoundApplies | src/Bounds.cpp:297-355 | an expression that meets every hypothesis of the soundness of intervals |
| Witnesses.EliminationApplies | src/CSE.cpp:229-279 | an expression and a supply of names that meet the hypotheses of elimination |
| Witnesses.TouchSoundApplies | src/Bounds.cpp:1250-1274 | a loop that reads a function and meets every hypothesis of region soundness |
| Witnesses.PipelineApplies | src/BoundsInference.cpp:672-795 | a pipeline of two stages that is well formed |

## Left out

- Floating point, strings, handles, tracing and memoization: values are integers.
- Wide unsigned arithmetic is over the natural numbers; overflow of wide types is not modelled.
- BoundsSound: asks for `Regular` operands; `BoundsGaps` says when the excluded rules are right.
- BoundsSound: both arms of an if_then_else are assumed defined where the bounds of an expression that contains it are taken.
- TouchSound: a fork's condition is a scalar over parameters; a let value too large to substitute has both ends (`LargeLetEnds` is exact); loop arithmetic with an infinite end carries the infinity on, where the original reports an error.
- TouchSound: a comparison with an infinite end trims to the other end, where the original (src/Bounds.cpp:1140-1190) takes the minimum or maximum with an infinity, which is an error.
- LargeLetEnds: signed types of 32 bits or more; in others the value of an unbound infinity decides.
- TouchSound: functions without dimensions have empty boxes, in which there is nothing to contain.
- Names for the ends of large let values come from a supply of unique names; here they are made from the let's own name and assumed unused.
- Memory and the values of functions do not change while a statement's region is considered.
- PipelineIsRight: pure functions at the outermost loop. Inlining, update definitions, extern stages, explicit bounds, storage folding and inner loop levels are not part of this model, nor is the loop nest that computes a stage: it is taken to compute every point of the region.
- PipelineIsRight: the order in which the boxes of consumers are merged is a parameter, as it depends on the order of a map.
- EliminatePreserves: no let-bound name occurs free; there is no exact condition for when a clash is harmless.
- Expressions are trees: pointer sharing and the early exit on expressions seen before are not modelled.
- PrintSim: the lowered division is a fixed list of assignments, where the original builds an expression with shared parts and prints it; operands are printed where they first occur.
- Compile: names are not empty, and names of functions are identifiers.
- StmtSim: scalar code with loads and stores into buffers of one type; allocations, assertions, parallel loops, calls with side effects and calls that are passed the user context are not part of this model.
- RewrittenLoads: loads from external images and with other strides are left alone, as in the original; a last part of a single lane, for which the original cannot build a ramp, is modelled like any other.
- Associative reductions, name mangling, stream dispatch, stencil multiplexers, buffer layout and the checks on buffer sizes are not part of this model.
