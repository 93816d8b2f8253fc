# MPC controller core, modelled in Dafny

This project models the model-predictive controller of a path-following
vehicle (`src/MPC.cpp`). At every control tick the controller receives the
vehicle state `(x, y, psi, v, cte, epsi)` and the coefficients of a cubic
fitted to the reference path. It then builds a nonlinear program over a
horizon of `N = 11` steps of `dt = 0.1` s and hands it to a solver. From
the solution it returns the steering angle and the throttle of step 0.
It can also predict the state one step ahead with the kinematic bicycle
model (`Lf = 2.67`).

The model has five modules:

- `Layout`: the flat decision vector. It holds six state blocks of `n`
  entries, then the steering and throttle blocks of `n - 1` entries, with
  their offsets, `n_vars = 6n + 2(n - 1)` and `n_constraints = 6n`. Every
  offset is a function of the horizon `n`; `N = 11` is the constant the
  controller uses.
- `Kinematics`: `Lf`, `dt`, the fitted path, and the slope whose
  arctangent is the desired heading. That slope is written as in the
  source, with `coeffs[3]` in both its linear and its quadratic term.
  `sin`, `cos` and `atan` are parameters (`Trig`), so every result holds
  whatever they compute.
- `Evaluator`: the objective and constraint evaluator (`FG_eval`).
  - `FgEval.Evaluate` fills `fg` with the same loops as the source.
  - It is proved to leave the cost `Cost` in `fg[0]` and the constraint
    vector `Constraints` in `fg[1..]`.
  - The cost is never negative, and it is zero exactly at the reference.
  - Every statement that writes a constraint row appends the slot it
    wrote to a ghost log (`WriteLog`), next to the write itself. Each
    method states how the log grows and that no slot outside the ones it
    logged changes. The log that `Evaluate` leaves covers `1..6n` with each
    slot exactly once.
- `Setup`: the initial guess, the variable bounds and the constraint
  bounds, each built by the source's loops into an array.
- `Mpc`: the `MPC` class.
  - `Init` stores the reference targets.
  - `Solve` assembles the problem, passes the targets to the evaluator
    and calls the solver, which is a parameter. It returns the first
    actuation, whatever status the solver reports.
  - `Predict` is the one-step prediction. It is proved to agree with the
    evaluator's dynamics rows.
  - A module-level lemma characterises the feasible decision vectors.

Numbers are Dafny `real`s. Floating-point rounding is not modelled.

## Model

| member | source | states |
|---|---|---|
| Layout.XStart | src/MPC.cpp:16 | the x block starts at 0 |
| Layout.YStart | src/MPC.cpp:17 | the y block starts `n` entries later, at `n` |
| Layout.PsiStart | src/MPC.cpp:18 | the psi block starts at `2n` |
| Layout.VStart | src/MPC.cpp:19 | the v block starts at `3n` |
| Layout.CteStart | src/MPC.cpp:20 | the cte block starts at `4n` |
| Layout.EpsiStart | src/MPC.cpp:21 | the epsi block starts at `5n` |
| Layout.DeltaStart | src/MPC.cpp:22 | the steering block starts at `6n`, right after the six state blocks |
| Layout.AStart | src/MPC.cpp:23 | the throttle block starts `n - 1` entries after the steering block, at `7n - 1` |
| Layout.NVars | src/MPC.cpp:134 | `n_vars` is where the throttle block's `n - 1` entries end, i.e. `6n + 2(n - 1)` |
| Layout.NConstraints | src/MPC.cpp:136 | `n_constraints` is `6n`, the offset of the steering block |
| Layout.Slot | src/MPC.cpp:126-131 | each channel has one of the six positions 0..5 of the incoming state vector |
| Layout.At | src/MPC.cpp:16-22 | entry `t < n` of any state block lies below `n_constraints`, so it names a constraint row |
| Layout.OffsetsIncreasing | src/MPC.cpp:16-23 | the block offsets strictly increase from `x_start = 0`; the state part ends where `delta_start` begins at `6n`; `a_start + (n - 1) == n_vars` |
| Layout.StateBlocksTile | src/MPC.cpp:16-22 | every (channel, step) pair with step `< n` names a distinct index below `6n`, and every index below `6n` is such a pair |
| Layout.IndexDecomposes | src/MPC.cpp:16-22 | an index of the state part is step `Step(k)` of block `ChannelOf(k)`, with that step below `n` |
| Layout.InitialSlotsAreStepZero | src/MPC.cpp:16-22 | an index of the state part is one of the six `*_start` offsets iff it is step 0 of its block |
| Kinematics.PathSlopeIsDerivative | src/MPC.cpp:95 | the slope `c1 + 2 c2 x + 3 c3 x^2` is the derivative of the fitted cubic `f_x`: the difference quotient equals it plus terms that vanish with the step |
| Kinematics.HeadingSlopeMatchesPathIff | src/MPC.cpp:95-96 | the slope inside `psi_des` equals the path's slope iff `x == 0` or `coeffs[2] == coeffs[3]` |
| Kinematics.HeadingIncrementAgrees | src/MPC.cpp:101 | the heading increment `v * delta / Lf * dt` of the evaluator equals the `v / Lf * delta * dt` of the predictor |
| Kinematics.PathHeight | src/MPC.cpp:95 | `f_x` is the cubic `c0 + c1 x + c2 x^2 + c3 x^3` (in Horner form) |
| Kinematics.HeadingSlope | src/MPC.cpp:96 | the slope inside `psi_des`, as written with `coeffs[3]` twice, is the path's slope plus `2 (c3 - c2) x` |
| Evaluator.FgEval.TrackingTerm | src/MPC.cpp:48-50 | one step's weighted tracking error is never negative |
| Evaluator.FgEval.Tracking | src/MPC.cpp:47-51 | the reference-tracking part of the cost is never negative |
| Evaluator.FgEval.EffortTerm | src/MPC.cpp:55-56 | one step's weighted actuation is never negative |
| Evaluator.FgEval.Effort | src/MPC.cpp:54-57 | the actuator-effort part of the cost is never negative |
| Evaluator.FgEval.SmoothTerm | src/MPC.cpp:61-62 | one step's weighted actuation change is never negative |
| Evaluator.FgEval.Smooth | src/MPC.cpp:60-63 | the actuation-change part of the cost is never negative |
| Evaluator.FgEval.Cost | src/MPC.cpp:44-63 | the objective `fg[0]` is never negative |
| Evaluator.FgEval.TrackingZeroIff | src/MPC.cpp:47-51 | the tracking part is zero iff cte, epsi and v equal their references at every step |
| Evaluator.FgEval.EffortZeroIff | src/MPC.cpp:54-57 | the effort part is zero iff every steering and throttle value is zero |
| Evaluator.FgEval.SmoothZeroWhenIdle | src/MPC.cpp:60-63 | the actuation-change part is zero when every actuator is zero |
| Evaluator.FgEval.CostZeroIff | src/MPC.cpp:44-63 | the objective is zero iff the trajectory sits at the reference and applies no actuation |
| Evaluator.FgEval.Advance | src/MPC.cpp:99-104 | the kinematic model's value of channel `c` one step after step `i`: at zero speed x, y and psi stay where they are, and the speed stays the same iff the throttle is zero |
| Evaluator.FgEval.Defect | src/MPC.cpp:99-104 | a defect row is zero iff the state at step `i + 1` equals the model's value from step `i` |
| Evaluator.FgEval.Constraint | src/MPC.cpp:65-104 | constraint row `t == 0` is the current value of its channel; a row `t > 0` is zero iff the state at `t` equals the model's value from step `t - 1` |
| Evaluator.FgEval.InitialRowValues | src/MPC.cpp:66-71 | in the constraint vector, the step-0 row of each channel is its current value |
| Evaluator.FgEval.StepRowValues | src/MPC.cpp:99-104 | in the constraint vector, the step-`i + 1` row of each channel is its defect from step `i` |
| Evaluator.FgEval.Constraints | src/MPC.cpp:65-105 | the constraint vector has `6n` rows: row `x_start + t` etc. is the step-0 state when `t == 0`, and otherwise the defect of the kinematic model from step `t - 1` |
| Evaluator.FgEval.Evaluate | src/MPC.cpp:41-106 | after the call, `fg[0]` is the objective and `fg[1..]` is the constraint vector; the log gains exactly `AllWrites(n)`, the six initial rows and then six rows per step in the source's order |
| Evaluator.FgEval.AddTrackingCost | src/MPC.cpp:47-51 | the first cost loop adds the weighted tracking errors 16, 12 and 1 over all `n` steps to `fg[0]` and touches no other entry |
| Evaluator.FgEval.AddEffortCost | src/MPC.cpp:54-57 | the second cost loop adds the weighted squared actuations 8 and 6 over `n - 1` steps |
| Evaluator.FgEval.AddSmoothCost | src/MPC.cpp:60-63 | the third cost loop adds the weighted squared actuation changes 400 and 10 over `n - 2` steps |
| Evaluator.FgEval.SetInitialRows | src/MPC.cpp:65-71 | rows `1 + *_start` receive the step-0 state; the log gains those six slots in the source's order; `fg[0]`, every row of a later step and every slot outside the six keep their values |
| Evaluator.FgEval.SetInitialRow | src/MPC.cpp:66-71 | one statement writes row `1 + *_start`, which then holds the channel's current value; exactly that slot is appended to the log and no other entry changes |
| Evaluator.FgEval.SetDefectRows | src/MPC.cpp:74-105 | after the defect loop every row of steps `0..n-1` holds its constraint value, the log gains the six defect slots of each step in turn, and no other slot changes |
| Evaluator.FgEval.SetStepRows | src/MPC.cpp:76-104 | one iteration writes the six defects of step `i + 1` in the source's order and appends their slots to the log; the rows of steps `0..i` stay done; `fg[0]`, every row of a later step and every slot outside the six keep their values |
| Evaluator.FgEval.SetDefectRow | src/MPC.cpp:99-104 | one statement of the loop body writes row `2 + *_start + i`, which then holds that channel's defect; exactly that slot is appended to the log and no other entry changes |
| Evaluator.RowsDoneComplete | src/MPC.cpp:65-105 | once the rows of every step are written, `fg[1..]` is the whole constraint vector |
| Evaluator.ConstraintWritesSplit | src/MPC.cpp:65-105 | the write trace is the six initial rows followed by six rows per loop iteration |
| Evaluator.InitialWritesAreStepZero | src/MPC.cpp:66-71 | the six initial rows `1 + *_start` are the step-0 rows, all within `1..6n` |
| Evaluator.DefectWritesAreStep | src/MPC.cpp:99-104 | the six rows written in iteration `i` are the step-`i + 1` rows of the six blocks, all within `1..6n` |
| Evaluator.WritesInRange | src/MPC.cpp:65-105 | after `k` iterations, `6(k + 1)` rows have been written, each within `1..6n` and at a step `<= k` |
| Evaluator.WritesCover | src/MPC.cpp:65-105 | after `k` iterations every row of steps `0..k` has been written |
| Evaluator.WritesDistinct | src/MPC.cpp:65-105 | no row is written twice |
| Evaluator.WritesExactlyOnce | src/MPC.cpp:41-106 | the slots `Evaluate` logs hold every constraint row `1..6n` exactly once and never slot 0, which holds the cost |
| Setup.InitialGuess | src/MPC.cpp:140-150 | the guess has `n_vars` entries: the current state at the six step-0 slots and zero elsewhere |
| Setup.VariableBounds | src/MPC.cpp:153-176 | the state entries are bounded by `±1.0e19`, the steering entries by `±0.436332` and the throttle entries by `±1.0` |
| Setup.ConstraintBounds | src/MPC.cpp:180-199 | the lower and upper bounds both hold the current state at the six step-0 rows and zero elsewhere |
| Setup.FillBounds | src/MPC.cpp:158-161 | a bounds loop sets `[from, to)` to `-bound` / `bound` and leaves every other entry alone |
| Setup.PinState | src/MPC.cpp:145-150 | the six step-0 slots receive the current state and nothing else changes |
| Setup.VarBoundsOrdered | src/MPC.cpp:153-176 | every variable bound is a symmetric interval with lower `<` upper |
| Setup.ConstraintBoundsAreEqualities | src/MPC.cpp:180-199 | every constraint row is an equality: lower == upper |
| Setup.FirstActuationWithinLimits | src/MPC.cpp:166-176 | any solution within the variable bounds returns steering within `±0.436332` and throttle within `±1.0` |
| Setup.GuessWithinBounds | src/MPC.cpp:140-176 | the initial guess lies within the variable bounds whenever the current state lies within `±1.0e19` |
| Mpc.MPC.Init | src/MPC.cpp:115-119 | the three reference targets are stored |
| Mpc.MPC.Solve | src/MPC.cpp:121-240 | the solver receives the initial guess, the variable bounds, the constraint bounds and an evaluator built from the coefficients and the stored targets; the result is `[x[delta_start], x[a_start]]` of the solver's solution, whatever its status |
| Mpc.MPC.Predict | src/MPC.cpp:242-260 | the predicted vector has the state's length, and entries 4 onward are left as the fresh vector holds them |
| Mpc.MPC.PredictAtRest | src/MPC.cpp:254-257 | at zero speed, position and heading are unchanged and the speed becomes `a * dt` |
| Mpc.MPC.PredictMatchesDefects | src/MPC.cpp:99-102 | the evaluator's x, y, psi and v rows of step `i + 1` vanish iff that state is what `Predict` computes from step `i` |
| Mpc.FeasibleIff | src/MPC.cpp:65-105 | a decision vector meets every constraint bound iff its step-0 state is the current state and every defect of the dynamics is zero |
| Mpc.FeasibleIsConsistent | src/MPC.cpp:65-105 | a vector within the constraint bounds starts at the current state and has every defect zero |
| Mpc.ConsistentIsFeasible | src/MPC.cpp:65-105 | a vector that starts at the current state with every defect zero lies within the constraint bounds |
| Mpc.GuessMeetsInitialRows | src/MPC.cpp:140-199 | the initial guess already meets the six step-0 constraint rows exactly |

## Left out

- The Ipopt solve call, its options string and its solution statuses
  other than success. `Solve` receives the solver as a function of the
  problem, and the status is reduced to `Success` / `Failure`.
- Automatic differentiation (CppAD's `AD<double>`) and the sparsity options
  are left out. The evaluator computes values over `real`.
- Floating-point rounding and `pow` are left out. `pow(x, 2)` and
  `pow(x, 3)` are exact products.
- `sin`, `cos` and `atan` are uninterpreted parameters (`Trig`).
- Printing the cost (`std::cout`) is output only and is left out.
- Eigen vectors are modelled as `seq<real>`. CppAD's `Dvector` is modelled
  as `array<real>` where the source fills it by loops.
- `src/MPC.h` is not part of this model. The class fields are the three
  stored targets.
- The `int` loop counters compared with `size_t` bounds are left out. The
  integers are unbounded, which is exact for every horizon the layout
  admits.
- Mpc.MPC.Solve: requires that the solver returns more than `a_start`
  entries (at least `a_start + 1`), so that `x[a_start]` exists. The
  source relies on this without checking. The unused `ok`
  flag is kept but has no effect.
- Mpc.MPC.Predict: entries 4 onward of the source's fresh vector are
  uninitialised. Here they are a parameter `unset`, so the contract says
  only that they are not computed.
- Evaluator.FgEval.SmoothZeroWhenIdle: states one direction only. A
  constant non-zero actuation also gives a zero change cost.
- The horizon is a parameter `n >= 2` of the layout and the evaluator.
  `Solve` uses `N = 11`.
