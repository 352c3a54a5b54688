# Verified models of the GLPK solver cores

A Dafny model of the parts of GLPK 4.x (as bundled with GOBLIN, directory
`glpk_src`) whose correctness is not visible from one routine: the LP presolver
and its postsolver, the implicit enumeration suite and the branch-and-cut driver
built on it, the Forrest-Tomlin update of a basis factorization, the sparse
Cholesky factorization, the AVL tree, the interior point method and the memory
pool. `dafny verify dfyconfig.toml` checks everything.

Doubles are modelled as `real`, `±DBL_MAX` as an explicit infinity, and the
tolerances of the presolver are zero. The driver keeps its `1e-7` pruning margin and
the factorization update keeps `eps_tol` and `upd_tol` as parameters. Routines
that only belong to the surroundings (a simplex code for the reduced problem,
solvers for the factor F and for the normal equations, the square root, the
answers of the application procedure) are parameters with a stated contract.

## Components

**LP presolver** (`lpp_*.dfy`). `LP` is a problem with named rows and columns, `Sol`
a solution with statuses, primal and dual values. `BasicOptimal` is the full set
of optimality conditions plus the count of basic variables. `Reduces(P, T, R, T')`
is what every reduction keeps: P and R are equivalent (same optimal value, both
infeasible, both without an optimum together), and popping the new entries turns every
`BasicOptimal` solution of R into one of P; multipliers with the right signs are kept, too (`LpDual`). The `Workspace` class
carries the rows, columns, queues and history that the `Process*` methods update;
`Recovered` holds the arrays that the `Recover*` methods write. `Nonsingular` (`LpBasis`) says
that the basis has a trivial kernel, and is carried through the same history. `LpSimplex.Simplex2`
puts load, presolve, build, solve, postsolve and unload together, `LpSense` adds the optimization
sense and the objective coefficients of rows. `LpBox` and `LpLocal` say what one row can do over the ranges of
its columns; `LpTrace` describes runs of the presolver step by step.

**Sparse Cholesky** (`chol_*.dfy`). `Filled` is full symbolic elimination; the symbolic
phase merges only the rows whose leftmost off-diagonal element is in column k. `CholDefinite`
says which matrices the numeric phase factorizes; `Quadratic` holds what is general about positive
definite matrices, among it that systems with them have solutions.

**Forrest-Tomlin update** (`inv_*.dfy`). `Vmat` holds V by rows, by columns and by
separate pivots with its two permutations; `HMul` applies the eta file.

**Enumeration suite** (`ies_*.dfy`). A node is a `Patch` against its parent; `Decode` reads
a path of patches and `Encodes` says which patch describes an instance. `saved`
(ghost) remembers what each node held when its patch lists were last made;
`Inv` ties patches, counts and names to it. `IesRuns` states the guarantees over
whole runs; class `Tree` performs the operations on the mutable fields, and its ghost logs
record what the hook routines are told. `IesMatrix` covers the constraint matrix of the problem
object, and class `IesSuite.Suite` keeps tree, master coefficients and matrix together through
every operation.

**Branch and cut** (`bcs_*.dfy`). `Searching` says that every feasible point better than
`best` by more than the margin lies in the region of an active node. A bound from the solver is
about all variables of the workspace, whether or not the subproblem contains them. A solver may also
report that it found neither an optimum nor infeasibility, where the source stops with a failed check.
`BcsBound` measures the work that the open subproblems can still cause.

**AVL tree** (`avl_*.dfy`). The memory maps node numbers to records with `up`, `flag`, `rank`,
`bal`, `left` and `right`. The invariant is stated node by node: every subtree holds an interval of
positions of the in-order sequence (`Placed`), ranks are positions inside it (`Ranked`), and balances
are differences of assigned heights (`Balanced`), which may be off by one at one link while a loop goes
upstairs. `AvlShape` proves that this is the usual recursive notion. Rotations take the side of the
heavy child as a parameter instead of being written twice.

**Interior point** (`ipm*.dfy`). `Ipm` has Mehrotra's starting point, the step with its exact effect
on both residuals and the main loop; `IpmMeasure` the quantities and tests of the loop and what passing them
means; `IpmCodes` the exact condition of each code, `IpmMain` scaling, the run and unscaling. `IpmNormal` says for which matrices the normal equations can be
solved, which is what the routines assume of their solver.

**Memory pool** (`dmp.dfy`). The block allocator over an explicit word memory.

## Model

| member | source | states |
|---|---|---|
| LpSimplex.Simplex2 | glpk_src/glplpx6a.c:1513-1651 | for the problem in minimization form: fault exactly for an empty problem or misordered double bounds; `NoPfs` only if the problem is infeasible; `NoDfs` only if it has no optimum and no multipliers with the right signs exist, so never when every column has two finite bounds; on `Ok` the unloaded solution satisfies all optimality conditions of the ORIGINAL problem, is optimal with the reported objective, has a non-singular basis, every status agrees with its bound type and the basis is numbered as a permutation; on `Failed` the solver gave up on the problem built from what the presolver left |
| LpSense.Simplex2Any | glpk_src/glplpx6a.c:1513-1651 | the same for minimization and maximization and with objective coefficients at rows, in terms of the problem object: on `Ok` the values are best, the reported value is its own objective, the dual equality of every column holds for its cost plus what the row costs contribute, basic items have dual value zero, and at lower and upper bounds the dual values have the signs of minimization or of maximization; `NoDfs` means that no multipliers with the signs of that sense exist |
| LpSense.LoadedBest | glpk_src/glplpp1.c:429-507 | after rows are substituted into the objective and the sign is changed for maximization, minimizing the loaded problem is optimizing the problem object |
| LpSense.BestTurned | glpk_src/glplpp1.c:815-846 | a solution of the loaded problem with the signs of its dual values changed back satisfies the optimality conditions of the problem object in its own sense |
| LpSense.KktTurned | glpk_src/glplpp1.c:725-750 | an optimal basic solution of the resultant problem in its own sense is one of its minimization form after the change of signs |
| LpBasis.RowTakes | glpk_src/glplpp2.c:466-484 | a row that becomes non-basic together with one basic column of its own keeps the basis non-singular |
| LpBasis.RowSngton2Basis | glpk_src/glplpp2.c:634-727 | in every case of status and flags the recovered basis is non-singular if the one before was |
| LpBasis.ColSngton1Basis | glpk_src/glplpp2.c:906-960 | exchanging the row and its slack column keeps the basis non-singular |
| LpBasis.ForcingRowBasis | glpk_src/glplpp2.c:1356-1420 | the column chosen by the largest ratio may enter the basis for the forcing row: it stays non-singular |
| LpPresolve.Presolve | glpk_src/glplpp2.c:1585-1659 | terminates; code 1 exactly if the run comes to a row that no values of its columns within their ranges satisfy, and then the problem is infeasible; code 2 exactly if it comes to a column whose cost, or the dual value of its only row, pushes towards a missing bound, and then there is no optimum and there are no multipliers; on code 0 the history rebuilds every optimal basic solution, the problems are equivalent, no empty, free or singleton row and no empty or fixed column is left, and every row and column that is left was analysed without result at some step of the run and has not changed since |
| LpPresolve.RowStep | glpk_src/glplpp2.c:1598-1626 | for the row at the head of the queue: code 1 exactly if no values of its columns within their ranges satisfy it; an empty, free or singleton row goes; a row that can at best reach one of its bounds goes with all its columns; any other keeps exactly the bounds that values of its columns can violate; the meaning is kept, unqueued rows and columns stay clean and unchanged, and the lexicographic measure (rows + columns, finite row bounds, queue lengths) drops |
| LpPresolve.ColStep | glpk_src/glplpp2.c:1628-1656 | for the column at the head of the queue: code 2 exactly if it is empty and its cost pushes to a missing bound, or its only row keeps it within its bounds and would need a dual value towards a missing bound; an empty or fixed column, a slack of an equality and an implied free column go; nothing else changes except that a free row goes; meaning, cleanliness and measure as for rows |
| LpTrace.SeenAfterRow | glpk_src/glplpp2.c:1598-1626 | after a row step everything outside the queues has been analysed some time in the run and has not changed since |
| LpTrace.SeenAfterCol | glpk_src/glplpp2.c:1628-1656 | the same after a column step |
| LpLocal.MeetsIff | glpk_src/glplpp2.c:1508-1517 | some values of the columns within their ranges satisfy a row exactly if its implied activity range does not miss its bounds |
| LpLocal.BelowIff | glpk_src/glplpp2.c:1468-1507 | the activity can be below a value exactly if the implied lower bound is missing or below it |
| LpBox.Reaches | glpk_src/glplpp2.c:1468-1507 | the extreme value of a linear function over ranges is taken, and every value is if it is infinite |
| LpDual.StripDual | glpk_src/glplpp2.c:1533-1558 | dropping a redundant row bound keeps the existence of multipliers with the right signs |
| LpDual.SngtonDual | glpk_src/glplpp2.c:560-632 | the same when a singleton row becomes column bounds |
| LpDual.SlackDual | glpk_src/glplpp2.c:846-904 | the same when a slack column is dropped |
| LpDual.FreedDual | glpk_src/glplpp2.c:1112-1149 | the same when an implied free column is freed and its row fixed |
| LpDual.ForceDual | glpk_src/glplpp2.c:1258-1354 | the same when a forcing row fixes its columns |
| LpDual.FreedNoDual | glpk_src/glplpp2.c:1112-1135 | code 2 of an implied free column: no multipliers exist |
| LpPostsolve.Recovered.Replay | glpk_src/glplpp2.c:1675-1711 | popping the history on the solution arrays yields exactly the fold of the recover functions; every status check passes when that fold is defined |
| LpSimplex.ReplaySolves | glpk_src/glplpp2.c:1675-1711 | for every history built by presolve, replaying it on any solution with the optimality conditions of the clean reduced problem is defined at every entry (no status check fails, each row and column is set once) and gives an optimal basic solution of the original with the same objective, as many basic variables as rows, and a non-singular basis if the given one was |
| LpCompose.ReducesTrans | glpk_src/glplpp2.c:1675-1711 | the guarantees of consecutive reductions compose along the last-in first-out history |
| LpModel.BasicOptimalIsOptimal | glpk_src/glplpp2.c:1356-1420 | the optimality conditions by status (bounds, dual equalities, signs, complementarity) imply minimality over all feasible points, by the Lagrangian identity |
| LpKktForce.ForcingRowStep | glpk_src/glplpp2.c:1356-1420 | recovering a forcing row by the largest ratio repairs every wrong dual sign at once: the solution of the forced problem becomes an optimal basic solution of the problem with the row |
| LpKktForce.PickSpec | glpk_src/glplpp2.c:1370-1386 | the loop over the list finds the first of the largest ratios among the columns of wrong dual sign, or none exactly when all signs are right |
| LpAnalyze.ProcessForcingRow | glpk_src/glplpp2.c:1258-1354 | fixing the columns of a forcing row one by one, through the other queues, amounts to the single forced problem; the row is removed and the meaning is kept |
| LpAnalyze.AnalyzeRow | glpk_src/glplpp2.c:1468-1560 | code 1 exactly when no values of the columns within their ranges satisfy the row, and then the problem is infeasible; a row that can at best reach one of its bounds is removed as forcing together with its columns; otherwise exactly the bounds that cannot be violated are dropped; the meaning is kept |
| LpAnalyze.AnalysisMeans | glpk_src/glplpp2.c:1508-1558 | the comparisons of implied and own bounds decide exactly what values of the columns within their ranges can do to the row |
| LpTolerance.FailsExactly | glpk_src/glplpp2.c:1508-1558 | with the tolerances of the source the check `lb != ub` before a bound is dropped fails exactly for equality rows whose activity range sticks out on both sides, on one of them by an amount between 1e-7 and 1.001e-7 times (1 + abs bound) |
| LpTolerance.ExampleFails | glpk_src/glplpp2.c:1533-1545 | a well-formed problem with one equality row and two columns on which that check fails |
| LpForcing.ComputeExtreme | glpk_src/glplpp2.c:1472-1507 | the scan yields the exact least or greatest row activity over the column bounds, infinite exactly when some needed bound is |
| LpForcing.PinningDone | glpk_src/glplpp2.c:1258-1354 | after all columns of a forcing row are pinned the history restores solutions of the problem before the row was found |
| LpEquivCols.ForceEquiv | glpk_src/glplpp2.c:1517-1532 | a forcing row fixes its columns at the forcing bounds without changing the optimum |
| LpEquivCols.StripEquiv | glpk_src/glplpp2.c:1533-1558 | a row bound that the activity cannot violate can be dropped without changing feasible points or optimum |
| LpEquivCols.RowInfeasible | glpk_src/glplpp2.c:1508-1516 | an activity range that misses a row bound means the problem is infeasible |
| LpKktRows.StripStep | glpk_src/glplpp2.c:1533-1558 | a solution of the problem with the weaker row bound is a solution of the problem before |
| LpProcessPlain.ProcessEmptyRow | glpk_src/glplpp2.c:59-73 | code 1 exactly when the empty row excludes zero, and then the problem is infeasible; otherwise the row goes and the meaning is kept |
| LpKktRows.EmptyRowStep | glpk_src/glplpp2.c:75-84 | an empty row comes back basic with value zero and keeps optimality |
| LpProcessSngton.ProcessEmptyCol | glpk_src/glplpp2.c:128-172 | code 2 exactly when the cost pushes to an infinite bound, and then there is no optimum and there are no multipliers; otherwise the column is fixed at the best bound, with cost zero at the one nearest to zero, with dual equal to its cost |
| LpEquivCols.EmptyColUnbounded | glpk_src/glplpp2.c:128-172 | with such a cost every feasible point can be improved, so no optimum exists |
| LpKktCols.EmptyColStep | glpk_src/glplpp2.c:174-181 | the recovered empty column keeps optimality |
| LpProcessPlain.ProcessFreeRow | glpk_src/glplpp2.c:211-234 | the free row goes, its columns are queued, the saved coefficients are its whole row |
| LpKktRows.FreeRowStep | glpk_src/glplpp2.c:236-254 | the free row comes back basic with its activity and keeps optimality |
| LpProcessPlain.ProcessFixedCol | glpk_src/glplpp2.c:325-359 | the column is substituted into the objective constant and all row bounds, exactly the rows that held it are queued, the meaning is kept |
| LpKktCols.FixedColStep | glpk_src/glplpp2.c:361-381 | the fixed column comes back with its value and reduced cost, all row values are raised by its part, optimality is kept |
| LpEquiv.FixedColEquiv | glpk_src/glplpp2.c:325-359 | substituting a fixed column keeps the optimum with the objective constant |
| LpProcessSngton.ProcessRowSngton1 | glpk_src/glplpp2.c:430-464 | code 1 exactly when no value of the column within its range satisfies the row; otherwise the equality with one column fixes and removes it |
| LpCompose.RowSngton1Restores | glpk_src/glplpp2.c:466-484 | the pair fixed column and equality singleton, popped in this order, makes exactly one of them basic and keeps optimality |
| LpProcessSngton.ProcessRowSngton2 | glpk_src/glplpp2.c:560-632 | code 1 exactly when no value of the column within its range satisfies the row; otherwise the row becomes column bounds, a column closed to a point is substituted, and the row goes |
| LpKktRows.RowSngton2Step | glpk_src/glplpp2.c:634-727 | from the status and dual sign of the column, with the flags saying which bound was tightened, row or column takes the active bound; all cases are covered and keep optimality |
| LpKktRows.TightenOrdered | glpk_src/glplpp2.c:560-632 | consistent implied bounds leave the column bounds ordered |
| LpProcessSlack.ProcessColSngton1 | glpk_src/glplpp2.c:846-904 | the column of an equality becomes a slack: its cost moves to the other columns and the constant, its bounds to the row |
| LpEquivCols.SlackEquiv | glpk_src/glplpp2.c:846-904 | dropping the slack keeps the optimum |
| LpKktCols.ColSngton1Step | glpk_src/glplpp2.c:906-960 | row and slack are recovered from the row's status and sign of the coefficient; the aborting cases never occur; optimality is kept |
| LpProcessImplied.ProcessColSngton2 | glpk_src/glplpp2.c:1032-1149 | an implied free column is removed with its row set to its active side, exactly if the row and its other columns keep it within its bounds; code 2 exactly if the row would need a dual value towards a missing bound, and then there is no optimum; otherwise nothing changes |
| LpProcessImplied.ComputeImplied | glpk_src/glplpp2.c:1055-1100 | the loop computes the implied lower or upper bound of the column from the row and the other columns |
| LpProcessImplied.ImpliedBoundHolds | glpk_src/glplpp2.c:1055-1110 | every point within the row and the other columns' bounds respects the implied bound |
| LpProcessImplied.TestExact | glpk_src/glplpp2.c:1101-1111 | the test succeeds exactly if the row and the other columns keep the column within its bounds |
| LpEquivCols.FreedEquiv | glpk_src/glplpp2.c:1116-1148 | fixing the row at its active side and dropping the implied free column keeps the optimum |
| LpEquivCols.FreedUnbounded | glpk_src/glplpp2.c:1119-1132 | a multiplier towards an infinite side of the row means there is no optimum |
| LpKktForce.ColSngton2Step | glpk_src/glplpp2.c:1151-1163 | the row returns to its true bounds at the active side and optimality is kept although the column bounds were ignored |
| LpWorkspace.Workspace.RemoveRowAt | glpk_src/glplpp1.c:220-256 | the row and its elements go, its columns are queued, nothing else changes |
| LpWorkspace.Workspace.RemoveColAt | glpk_src/glplpp1.c:271-307 | the column and its elements go, its rows are queued, nothing else changes |
| LpWorkspace.CleanSettled | glpk_src/glplpp1.c:220-411 | whatever is not queued after a step and was clean before it stays clean |
| LpSimplex.LoadOrig | glpk_src/glplpp1.c:429-507 | loading yields the problem itself with every row and column queued |
| LpSimplex.BuildEquivalent | glpk_src/glplpp1.c:599-679 | renumbering the remaining rows and columns keeps feasible points and objective both ways |
| LpSimplex.LoadSol | glpk_src/glplpp1.c:720-750 | a solution of the built problem, loaded through the references, satisfies the optimality conditions of the reduced problem |
| LpSimplex.UnloadChecks | glpk_src/glplpp1.c:780-821 | every recovered status conforms to its bound type and exactly m are basic |
| LpSimplex.NumberBasis | glpk_src/glplpp1.c:805-821 | the basic and non-basic lists number all variables once and are inverse to the positions |
| CholSymb.Symb | glpk_src/glpchol.c:116-180 | fails exactly for a pattern that is not upper triangular; otherwise row k is full symbolic elimination, each column once |
| CholSymb.MergedIsFilled | glpk_src/glpchol.c:90-106 | merging only rows whose leftmost off-diagonal is in column k gives the same pattern as merging every earlier row with an element in column k |
| CholSymb.ClimbToLeftmost | glpk_src/glpchol.c:90-106 | an element inherited from any earlier row is inherited from one whose leftmost element is in column k |
| CholSymb.EliminateRow | glpk_src/glpchol.c:146-173 | the chain walk builds row k of the filled pattern |
| CholNumb.Numb | glpk_src/glpchol.c:285-362 | every row satisfies U'U = A off the diagonal, and on it unless the pivot was replaced; a pivot is replaced exactly when what is left on the diagonal is below eps * eps * (largest diagonal element or eps); the return value counts the replaced pivots |
| CholMain.Factorize | glpk_src/glpchol.c:116-362 | symbolic phase, sorting and numeric phase together: fails exactly for a matrix not given by its upper triangle; with no pivot replaced U'U is the symmetric matrix in every element, and the matrix is positive definite; conversely, for a positive definite matrix what is left on every diagonal is positive, so that a pivot is replaced exactly between zero and the threshold |
| CholDefinite.LeftPositive | glpk_src/glpchol.c:333-344 | what elimination leaves on a diagonal of a positive definite matrix is positive, also after earlier pivots have been replaced by larger numbers |
| CholDefinite.FactorsDefinite | glpk_src/glpchol.c:285-362 | a matrix that equals U'U with a non-singular upper triangle U is positive definite |
| CholNumb.FactorRow | glpk_src/glpchol.c:312-356 | one row is completed, the sublist heads move to the next column, the work array is zero again, and the pivot is what elimination leaves or the huge number, exactly below the threshold |
| CholNumb.EliminateRow | glpk_src/glpchol.c:315-332 | every head of a row in column k stands at column k, and the work array holds row k minus the contributions of all earlier rows |
| CholNumb.RestOutside | glpk_src/glpchol.c:347-350 | outside the symbolic pattern nothing is left of the row, so clearing the pattern clears the work array |
| CholNumb.FilledIsGood | glpk_src/glpchol.c:312-356 | the sorted output of the symbolic phase is a pattern the numeric phase can rely on |
| CholNumb.Factors | glpk_src/glpchol.c:285-362 | with no pivot replaced, U'U equals the symmetric matrix in every entry |
| InvMain.Inv.Update | glpk_src/glpinv.c:456-713 | code 3 exactly when the eta file is full, code 1 exactly when the new column ends above its diagonal, and then the new matrix is structurally singular, code 2 exactly when the new pivot of the row at the position of column j is below the tolerance; on code 0 triangularity, permutations, row lists, column lists and pivots again describe one matrix and H_new times V_new (plus what was dropped below `eps_tol`) equals H_old times V_old with column j replaced; no element below eps_tol is stored in the new row |
| InvMain.ColumnRestored | glpk_src/glpinv.c:498-710 | the new factor times a column of the new V is that column of the old V with column j replaced |
| InvMain.UpdatedOk | glpk_src/glpinv.c:566-710 | the permuted V is upper triangular with nonzero pivots after the spike row was eliminated and stored |
| InvMain.TooHigh | glpk_src/glpinv.c:559-565 | a new column that ends above its diagonal makes the matrix structurally singular |
| InvUpdate.Eliminate | glpk_src/glpinv.c:619-641 | eliminating the row records the multipliers, zeroes it left of its pivot and keeps row plus multipliers times rows equal to the taken row |
| InvLists.ShiftPositions | glpk_src/glpinv.c:566-574 | the cyclic shift keeps both permutation arrays inverse to each other |
| InvLists.ShiftedUpper | glpk_src/glpinv.c:566-577 | after the shift every row but the spike row is strictly right of its diagonal |
| InvLists.ReplacedAgree | glpk_src/glpinv.c:498-558 | after replacing the column the row lists and column lists hold the same elements |
| InvEta.HSolve | glpk_src/glpinv.c:218-229 | solving with the eta file inverts the product |
| InvEta.HSolveT | glpk_src/glpinv.c:230-241 | the transposed solve inverts the transposed product |
| InvEta.Adjoint | glpk_src/glpinv.c:207-243 | the transposed product is the adjoint of the product for every eta file |
| InvTran.VSolve | glpk_src/glpluf.c:1774-1788 | back substitution over the row permutation solves V x = b |
| InvTran.VSolveT | glpk_src/glpluf.c:1789-1802 | forward substitution solves the transposed system |
| InvTran.Ftran | glpk_src/glpinv.c:277-311 | the result solves F H V x = b, and the saved column holds exactly the elements of H^-1 F^-1 b that are non-zero and not below eps_tol |
| InvTran.Btran | glpk_src/glpinv.c:336-352 | the result x' solves B'x' = x: its product with every column c of the basis B = F H V is component c of the given vector |
| InvTran.BasisProduct | glpk_src/glpinv.c:313-352 | the product of a basis column with any vector is the component of V'H'F' applied to that vector |
| InvTran.Exchange | glpk_src/glpinv.c:277-311 | ftran with saving followed by a successful update represents the old basis with column j replaced by the saved part of the given column, up to elements of one row below eps_tol that were dropped; with eps_tol zero column j is the given column itself |
| IesRuns.ReviveRestores | glpk_src/glpies2.c:605-935 | over any run: entering a node gives exactly the instance (items, bounds, coefficients, statuses, constant) it had when its patch lists were last made |
| IesRuns.RunInv | glpk_src/glpies2.c:103-1489 | in every state of every run counts equal the number of adding patches, no patch names a deleted item, and every node decodes to what was saved |
| IesRuns.StepInv | glpk_src/glpies2.c:103-1489 | each operation keeps this invariant |
| IesRuns.SavedStays | glpk_src/glpies2.c:396-427 | what a node holds changes only when its own patch lists are made anew |
| IesModel.RoundTrip | glpk_src/glpies2.c:103-386 | decoding a path followed by the patch made for an instance gives that instance, also for items deleted at one level and added again at another |
| IesModel.Inherits | glpk_src/glpies2.c:463-503 | a node with empty patch lists holds what its parent holds |
| IesTree.MakePatch | glpk_src/glpies2.c:103-386 | the loops over the path produce a patch that encodes the instance against the path |
| IesTree.ApplyPatches | glpk_src/glpies2.c:605-935 | the loops over the path produce the decoded instance |
| IesSave.SuspendKeeps | glpk_src/glpies2.c:163-197 | storing the patch of the current node keeps the invariant, with counts raised for its added items |
| IesSave.DeactivateKeeps | glpk_src/glpies2.c:463-503 | making a node inactive keeps the invariant |
| IesRevive.ResumeActive | glpk_src/glpies2.c:396-427 | freeing the patch lists of a revived active node lowers the counts and keeps the invariant |
| IesRevive.CreateKeeps | glpk_src/glpies2.c:463-503 | a new node keeps the invariant and holds its parent's problem |
| IesDelete.DropKeeps | glpk_src/glpies1.c:632-662 | deleting an unreferenced item keeps what every node decodes to |
| IesDelete.RemoveKeeps | glpk_src/glpies2.c:1395-1447 | removing a leaf keeps the invariant and every other node's problem |
| IesDelete.AddItemKeeps | glpk_src/glpies1.c:149-230 | a new master item starts unreferenced and keeps the invariant |
| IesClass.Tree.Revive | glpk_src/glpies2.c:605-935 | the instance of the given node is what was saved for it; the left node's instance is saved first; other nodes keep theirs |
| IesClass.Tree.CreateNode | glpk_src/glpies2.c:463-503 | the new node holds the parent's current problem, also when the parent was the current active node |
| IesClass.Tree.Deactivate | glpk_src/glpies2.c:463-503 | the node becomes inactive with its instance saved |
| IesClass.Tree.AddMaster | glpk_src/glpies1.c:149-230 | a fresh item with count zero joins the master set |
| IesClass.Tree.DelMaster | glpk_src/glpies1.c:632-662 | an unreferenced unbound item leaves the master set |
| IesClass.Tree.AddItems | glpk_src/glpies2.c:1080-1182 | the items join the instance with their own bounds and coefficients; exactly the new rows are basic, and the status of a new column names a bound it has, except for a double-bounded column with the lower bound greater in absolute value |
| IesModel.DefaultStatus | glpk_src/glpies2.c:63-92 | the default status names a bound of the item if and only if it is not a double-bounded column with abs(lb) > abs(ub) |
| IesModel.DefaultStatusFails | glpk_src/glpies2.c:77-81 | a double-bounded column that gets the status of a free one |
| IesClass.Tree.DelItems | glpk_src/glpies2.c:1320-1377 | the items leave the instance, and leave the master set exactly when unreferenced and not kept by the filter |
| IesClass.Tree.SetAttr | glpk_src/glpies3.c:666-722 | exactly one item of the instance changes |
| IesClass.Tree.SetConst | glpk_src/glpies3.c:832-847 | only the constant term of the current active node changes; all other nodes keep their content |
| IesClass.Tree.StoreStatuses | glpk_src/glpies3.c:1024-1039 | after solving, exactly the statuses of the current instance change |
| IesClass.Tree.DeleteNode | glpk_src/glpies2.c:1395-1447 | the leaf goes; the items that leave the master set are exactly those that only it added (for the current node: those of the instance that no node counts) and the filter does not keep; the parent's count drops by one; all other nodes keep their place, count and what they hold |
| IesClass.Tree.PruneBranch | glpk_src/glpies2.c:1476-1489 | exactly the node and those of its ancestors that are left without children go; all other nodes keep what they hold |
| IesMatrix.Instance.Extend | glpk_src/glpies2.c:951-1020 | appending new rows without the new columns, then the new columns, gives the matrix that loading anew would give |
| IesMatrix.Instance.Keep | glpk_src/glpies2.c:1357-1377 | deleting rows and columns in place gives the matrix of the remaining ones |
| IesMatrix.Instance.LoadMatrix | glpk_src/glpies2.c:565-583 | the matrix holds each master element whose row and column are bound, at their positions, and nothing else |
| IesMatrix.CutLoaded | glpk_src/glpies2.c:1357-1377 | renumbering survives deletion |
| IesMatrix.RowFilled | glpk_src/glpies2.c:1150-1180 | filling one more row extends the loaded part |
| IesMatrix.ColFilled | glpk_src/glpies2.c:1265-1295 | filling one more column extends the loaded part |
| IesMatrix.UnboundLoaded | glpk_src/glpies1.c:632-662 | deleting master items takes their coefficients away and unbinds their positions; the rest of the matrix stays as loaded |
| IesMatrix.NewItemLoaded | glpk_src/glpies1.c:149-230 | a new master item that is bound nowhere does not change the matrix |
| IesSuite.AsLoaded | glpk_src/glpies2.c:565-583 | in every state that the operations of the suite reach, while a node is current: the positions list the rows and columns of the node, each once, and the kept matrix is the only one that loading from the master set could give |
| IesSuite.Suite.Revive | glpk_src/glpies2.c:605-1023 | entering a node keeps what stays, appends what is missing, and the matrix is as loaded; leaving changes nothing |
| IesSuite.Suite.AddItems | glpk_src/glpies2.c:1080-1297 | the given rows and columns are appended, the last one first, and the matrix is as loaded |
| IesSuite.Suite.DelItems | glpk_src/glpies2.c:1320-1377 | what is not marked is renumbered, deleted master items lose their coefficients, and the matrix is as loaded |
| IesSuite.Suite.AddMaster | glpk_src/glpies1.c:149-230 | a new master row or column brings exactly its own coefficients and leaves the matrix as loaded |
| IesSuite.Suite.DelMaster | glpk_src/glpies1.c:632-662 | the item goes with its coefficients, its position is unbound, and the matrix is as loaded where both sides are bound |
| IesSuite.Suite.PruneBranch | glpk_src/glpies2.c:1476-1489 | exactly the branch goes; items that leave with it are unbound, and the matrix is as loaded where both sides are bound |
| BcsClass.Driver.Pass | glpk_src/glpbcs1.c:829-949 | every pass of the main loop keeps the search invariant and does to the tree and to the best value what the answers of solver and application call for (enlarge, drop, accept, branch), also while dynamic variables are missing in the subproblem; it fails, with nothing changed, exactly if the solver found neither an optimum nor infeasibility or if the branching variable was not created with two bounds; it reports the end exactly if it settles the only open subproblem, and then no tree node and no row is left, only unreferenced columns, and the found solution is optimal within the margin; a node is dropped by bound exactly if its value exceeds best - 1e-7 abs(best) |
| BcsClass.Driver.Search | glpk_src/glpbcs1.c:829-968 | the whole loop with the final deletion, for any solver and application whose answers are true and may change with the pass: when it ends the best value is attained and every feasible point costs at least best - 1e-7 abs(best), and every job, constraint and variable ever created was released exactly once; it stops early only for an undefined answer or a one-sided integer variable; unless it fails it ends after a number of passes bounded by the boxes of the integer variables and the missing columns, plus the passes that generate constraints; with integer objective values and abs(best) below 1e7 the best value is the exact optimum |
| BcsClass.SolveDynamic | glpk_src/glpbcs1.c:829-968 | the whole driver on a linear problem with a dynamic variable ends with its optimum and everything released once |
| BcsClass.DynamicOracle | glpk_src/glpbcs1.c:829-949 | the answers used there meet the hypothesis on solver and application |
| BcsClass.PassLoad | glpk_src/glpbcs1.c:829-949 | every pass without new constraints lowers the work that the open subproblems can cause |
| BcsClass.ExactOptimum | glpk_src/glpbcs1.c:857-870 | with integer objective values the pruning margin loses nothing |
| BcsBound.BinaryLoad | glpk_src/glpbcs1.c:829-949 | a problem with k binary variables and no missing columns takes at most 2^(k+1) - 1 passes |
| BcsBound.LoadSplit | glpk_src/glpbcs1.c:921-937 | the two children of a branching cause less work than their parent, because each has a smaller integer box |
| BcsBound.LoadGrew | glpk_src/glpbcs1.c:310-420 | pricing a missing column in uses up work |
| BcsDriver.PricedOut | glpk_src/glpbcs1.c:310-420 | an exact answer for a subproblem in which a variable with non-zero reduced cost is missing is a truthful one |
| BcsClass.Driver.DeleteVars | glpk_src/glpbcs1.c:955-968 | after the columns are released the master set and the tree are empty, and the logs of the hook routines hold every item number and every node number given out exactly once |
| BcsClass.Driver.constructor | glpk_src/glpbcs1.c:133-167 | the search starts with the whole feasible set in the root |
| BcsClass.Driver.Branch | glpk_src/glpbcs1.c:921-937 | two derived nodes, equal to the current one but for the rounded bound of one column, replace it; all other active nodes keep their problems; no integer point is lost |
| BcsClass.Driver.IncludeRows | glpk_src/glpbcs1.c:247-284 | every constraint the application has created is included, with default attributes, as a new row of the current subproblem; no feasible point of it is lost |
| BcsClass.Driver.ChooseJob | glpk_src/glpbcs1.c:682-696 | the chosen node is the last active one, none exactly when nothing is active |
| BcsClass.NothingOpen | glpk_src/glpbcs1.c:829-949 | with no active node left every feasible point has objective at least best minus the margin |
| BcsClass.NoNodes | glpk_src/glpbcs1.c:938-944 | a tree without active nodes whose childless nodes were pruned is empty |
| BcsClass.NoRowsLeft | glpk_src/glpbcs1.c:47-125 | once the tree is empty every constraint has been released |
| BcsDriver.FathomByBound | glpk_src/glpbcs1.c:857-870 | a node whose relaxation, over all variables of the workspace within their bounds, is no better than the margin allows may be dropped |
| BcsDriver.PruneStep | glpk_src/glpbcs1.c:938-948 | pruning a fathomed node keeps the search invariant |
| BcsDriver.BranchStep | glpk_src/glpbcs1.c:921-937 | replacing a node by its two children keeps the search invariant |
| BcsModel.ChildrenCover | glpk_src/glpbcs1.c:625-667 | every integer point of a node lies in the region of its down or up child |
| BcsModel.BranchBounds | glpk_src/glpbcs1.c:625-667 | the checks of the routine hold; the new bounds are the integers next to the branching value, and a child is of fixed type exactly if its bounds are equal |
| AvlClass.AvlTree.InsertByKey | glpk_src/glpavl.c:142-204 | for any tree and any key, ties included: the invariant holds again, the in-order sequence gains exactly the new node, all other nodes keep identity and key; in a sorted tree the new node stands just before the first key not less than its own, and the tree stays sorted |
| AvlClass.AvlTree.InsertByPos | glpk_src/glpavl.c:413-476 | the new node gets exactly the given position, and the invariant holds again |
| AvlClass.AvlTree.DeleteNode | glpk_src/glpavl.c:537-633 | exactly the given node leaves the in-order sequence, every other node keeps identity, key and relative place, and the invariant holds again |
| AvlClass.AvlTree.RotateSubtree | glpk_src/glpavl.c:652-729 | all four rotations keep links, positions and ranks, restore the balances, and change the height of the subtree exactly by what the balance of the heavy child says |
| AvlDouble.TwiceIsBoth | glpk_src/glpavl.c:673-691 | a double rotation is a single rotation of the heavy child followed by one of the node, but for the balances |
| AvlRotate.TurnLinks | glpk_src/glpavl.c:652-729 | after a single rotation on either side all up links, flags and child links agree |
| AvlClass.AvlTree.GrowUp | glpk_src/glpavl.c:172-202 | the loop upstairs restores every balance and the stored height after an insertion |
| AvlClass.AvlTree.ShrinkUp | glpk_src/glpavl.c:595-629 | the loop upstairs restores every balance and the stored height after a deletion |
| AvlClass.AvlTree.LowerRanks | glpk_src/glpavl.c:578-585 | the loop upstairs lowers exactly the ranks of the nodes that hold the deleted one in their left subtrees |
| AvlClass.AvlTree.Interchange | glpk_src/glpavl.c:547-577 | the pointer assignments exchange the places of the node and the next one and nothing else, whether or not they are neighbours |
| AvlExchange.WrittenIsExchanged | glpk_src/glpavl.c:551-577 | each record after the assignments is the one that a renaming of the two nodes gives |
| AvlInsert.BumpStep | glpk_src/glpavl.c:147-160 | the ranks raised on the way down are those of the ancestors that hold the place in their left subtrees |
| AvlModel.Below | glpk_src/glpavl.c:142-204 | the positions of a subtree form one interval: a node inside it has its whole subtree and its parent there |
| AvlClass.AvlTree.FindNext | glpk_src/glpavl.c:233-256 | the result is the node at the next position, or none after the last |
| AvlClass.AvlTree.FindPrev | glpk_src/glpavl.c:285-308 | the result is the node at the previous position, or none before the first |
| AvlClass.AvlTree.FindByKey | glpk_src/glpavl.c:329-347 | in a sorted tree the first node of the run of equal keys is found, although equal keys may lie on both sides of a node; none exactly when no key is equal |
| AvlClass.AvlTree.NextByKey | glpk_src/glpavl.c:369-380 | the next node if its key is equal, otherwise none |
| AvlClass.AvlTree.FindByPos | glpk_src/glpavl.c:502-518 | the node at the given position; the search never runs off the tree |
| AvlShape.TreeShape | glpk_src/glpavl.c:70-81 | the invariant means a recursive AVL tree: in-order sequence, ranks as 1 + left size, balances as height differences in {-1, 0, 1}, stored size and height; its size is at least Fib(height + 2) - 1 |
| IpmMain.Ipm1 | glpk_src/glpipm.c:846-934 | scaling, the run and unscaling: the right-hand sides come back as they were; the run on the scaled problem starts at Mehrotra's point, makes one Mehrotra step after another, at most 100, as long as no code applies, and returns the last point if optimal and the one of least merit otherwise; code 0 exactly if both residual norms are below 1e-8 (1 + norm of the right-hand side) and the gap below 1e-8 (1 + abs c'x), otherwise code 1 exactly if the merit is at least 1e-8 and 1e5 times that of an earlier point, otherwise code 2 exactly if thirty steps did not halve the least merit or the ratio of infeasibility to x'z grew 1e6 times at an infeasible point, otherwise code 3 exactly after 101 points; on code 0, for the problem as given, dual infeasibility and gap are within 1e-8 and no feasible point is cheaper by more than 1e-8 (1 + abs c'x) + 1e-8 (1 + norm c) times its norm |
| Ipm.Iterate | glpk_src/glpipm.c:859-927 | the main loop for any merit function and tests: every iterate is one Mehrotra step from the one before, the run goes on exactly while the tests say so, residuals of every point are fractions at most one of the initial ones, and unless the run stopped as optimal the returned point has the least merit of all iterates |
| IpmMeasure.NearlyOptimal | glpk_src/glpipm.c:879-885 | a point that passes the optimality test costs at most the tolerances more than any feasible point |
| IpmMeasure.ObjectiveSplit | glpk_src/glpipm.c:88-98 | the objective of every feasible point is b'y + z'x + (c - A'y - z)'x |
| IpmCodes.NeverWorse | glpk_src/glpipm.c:556-612 | the relative primal and dual infeasibilities never grow over a run |
| IpmCodes.NoZeroDivision | glpk_src/glpipm.c:893-900 | the ratio rmu / rmu0 is evaluated only where rmu0 is positive |
| IpmCodes.TestMeans | glpk_src/glpipm.c:879-907 | the tests with their divisions and the array phi_min give exactly these codes |
| IpmCodes.PhiIsMerit | glpk_src/glpipm.c:598-606 | the merit function is the sum of the three weighted terms |
| IpmCodes.NotAtOnce | glpk_src/glpipm.c:886-892 | code 1 never comes at the first point |
| IpmMain.FactorsNormalize | glpk_src/glpipm.c:310-335 | the scale factors are positive and give every row norm one unless it is almost zero |
| IpmMain.ScaleFactors | glpk_src/glpipm.c:310-335 | the loops compute these factors |
| IpmMain.DivideBy | glpk_src/glpipm.c:796-817 | dividing by the factors undoes the scaling |
| IpmMain.Unscaled | glpk_src/glpipm.c:796-817 | an optimal point of the scaled problem is, unscaled, as good for the problem as given |
| IpmMain.SolverExists | glpk_src/glpipm.c:372-392 | for every matrix of full row rank the normal equations of the scaled problem have an exact solver |
| IpmNormal.ExactExists | glpk_src/glpipm.c:372-392 | an exact solver of the normal equations for all positive D and all right-hand sides exists if and only if the matrix has full row rank |
| IpmNormal.NormalDefinite | glpk_src/glpipm.c:347-356 | A D A' is positive definite for every A of full row rank and positive D |
| Quadratic.Solvable | glpk_src/glpipm.c:372-392 | a system with a positive definite matrix has a solution for every right-hand side |
| Ipm.LeastIsLeast | glpk_src/glpipm.c:865-876 | phi_min is a lower bound of the merit of all points so far |
| Ipm.Solver.MakeStep | glpk_src/glpipm.c:686-777 | the step goes 0.9 of the largest feasible length along the sum of the affine and the centering corrector direction; x and z stay positive, b - Ax is multiplied by exactly 1 - 0.9 alfa_p and c - A'y - z by exactly 1 - 0.9 alfa_d; to first order the step makes all x[j]z[j] + dx_aff[j]dz_aff[j] equal to one number t with t mu^2 = mu_aff^3 |
| Ipm.Solver.SolveNs | glpk_src/glpipm.c:421-440 | from a solution of the normal equations the three blocks of the Newton system hold |
| Ipm.NewtonSolved | glpk_src/glpipm.c:421-440 | the substitution formulas solve the whole Newton system for every positive point |
| Ipm.StepLength | glpk_src/glpipm.c:705-717 | the step is the largest in (0, 1] that keeps the vector non-negative |
| Ipm.Solver.InitialPoint | glpk_src/glpipm.c:476-517 | x~ = A'inv(AA')b solves Ax = b, z~ = c - A'y is in the null space of A, and both are shifted by Mehrotra's amounts: 1.5 times the deepest negative component (1.5 if there is none) plus half the ratio of the shifted inner product to the sum of the other shifted vector; the result is positive |
| Ipm.StepReached | glpk_src/glpipm.c:686-777 | infeasibility never grows over any number of steps |
| Dmp.LiveAtoms | glpk_src/glpdmp.c:91-159 | live atoms lie inside a block and overlap neither each other, free atoms nor a block header |
| Dmp.UserWrites | glpk_src/glpdmp.c:91-159 | writing into a live atom cannot damage the pool's lists |
| Dmp.RoomForExtent | glpk_src/glpdmp.c:105-121 | the room check by size also leaves room for the larger pointer-sized extent |
| Dmp.AtomsAligned | glpk_src/glpdmp.c:193-219 | in a variable-sized pool, and for lengths that are multiples of 8, all atoms start at multiples of 8 |
| Dmp.Pool.GetAtom | glpk_src/glpdmp.c:91-129 | a free atom if there is one, otherwise a new one apart from all others, in a new block only if needed and from the control program only if none is in stock; atoms keep their places and lengths, nothing but block headers is written, count is raised |
| Dmp.Pool.FreeAtom | glpk_src/glpdmp.c:148-159 | the atom becomes the first free one, one word inside it is written, count drops |
| Dmp.Pool.GetAtomv | glpk_src/glpdmp.c:184-221 | a new atom at an offset that is a multiple of 8, of the least multiple of 8 that holds the given length and a pointer, behind what is used of the newest block, or behind the header of a new one exactly if there is no room; all others keep their places and lengths |
| Dmp.Pool.FreeAll | glpk_src/glpdmp.c:240-253 | no atom is live, and exactly the blocks of the pool are kept in stock for reuse |

## Left out

- Floating point: reals are exact and the presolver's tolerances are zero, except in LpTolerance; glplpp2.c:1108 multiplies where its twin at 1103 adds, which makes no difference with zero tolerances.
- Linked lists of the presolver's elements: coefficients are finite maps visited in an arbitrary order, except the list of a forcing row, whose order breaks ties.
- Scaling factors and symbolic names of LPX objects; a double-bounded range with equal ends counts as fixed.
- LpSimplex.Simplex2: the simplex code for the reduced problem is a parameter that may give up; maximization is covered by LpSense.Simplex2Any.
- InvMain.Inv.Update: the sparse vector area is not represented, so neither are capacities, defragmentation, overflow with code 4, non-zero counters and the order inside lists.
- The factor F and its solvers: parameters with the contract that they invert F and its adjoint.
- Minimum degree ordering and the fill marks of the Cholesky routines; sorting is done by columns in order instead of by transposing twice.
- IesClass.Tree.DeleteNode: the source faults when an item that only the deleted node referenced is bound in another current node; the model reports `ok = false` there and promises nothing further.
- Cleaning of the master set: a deleted item leaves the model's set at once; stale `prev` links (glpies1.c:539-543) and the node-local counters m, n are not represented.
- The order in which missing rows and columns are appended on reviving a node is arbitrary; the branch-and-cut modules use the tree without the matrix.
- The default status that the source gives to a double-bounded column (glpies2.c:79-80) is taken as it is; it need not be a legal status of the LP code.
- BcsClass.Driver.Pass: which columns pricing includes, and in which order an application without preference branches, is arbitrary; passes that generate constraints are not bounded in number, because the source does not bound them.
- IpmMain.Ipm1: the square root and the solver of the normal equations are parameters that are exact, so code 4 (glpipm.c:914-917) does not occur; the matrix is a function that is scaled as a value and not in place; reports and F are not modelled.
- AvlClass.AvlTree.InsertByPos: the key of the new node, a null pointer in the source, is 0; the fields `type` and `link` of nodes are not represented, and a deleted node's number is not used again.
- Filling fresh atoms with question marks.
- Messages, timing, file readers, modelling language, and the getters: easy or I/O.
