/**
 * The controller object: it stores the reference targets, assembles the
 * optimisation problem from the current state and the fitted path, hands it
 * to the solver and returns the first actuation of the solution; it also
 * predicts the vehicle state one step ahead.
 *
 * The nonlinear solver is not modelled: `Solve` receives it as a function
 * from the problem it is given to the result it reports.
 */
module Mpc {
  import opened Layout
  import opened Kinematics
  import opened Evaluator
  import opened Setup

  /** Outcome reported by the solver; only success is told apart. */
  datatype Status = Success | Failure

  /** What the solver returns: its status, the decision vector and the objective. */
  datatype SolveResult = SolveResult(status: Status, x: seq<real>, objValue: real)

  /** Everything handed to the solver. */
  datatype Problem = Problem(
    guess: seq<real>,
    varLower: seq<real>, varUpper: seq<real>,
    consLower: seq<real>, consUpper: seq<real>,
    eval: FgEval)

  class MPC {
    var refCte: real
    var refEpsi: real
    var refV: real

    constructor ()
    {
    }

    /** Stores the reference cross-track error, heading error and speed. */
    method Init(cteRef: real, epsiRef: real, vRef: real)
      modifies this
      ensures refCte == cteRef && refEpsi == epsiRef && refV == vRef
    {
      refCte := cteRef;
      refEpsi := epsiRef;
      refV := vRef;
    }

    /**
     * Builds the problem for horizon `N` from `state` (x, y, psi, v, cte,
     * epsi) and the path coefficients, solves it and returns the steering
     * and throttle of step 0, whatever status the solver reports.
     */
    method Solve(state: seq<real>, coeffs: seq<real>, solver: Problem -> SolveResult)
      returns (actuators: seq<real>, ghost problem: Problem)
      requires |state| >= 6
      requires forall p :: AStart(N) < |solver(p).x|
      ensures problem.eval == FgEval(coeffs, refCte, refEpsi, refV)
      ensures IsInitialGuess(problem.guess, N, state)
      ensures IsVarBounds(problem.varLower, problem.varUpper, N)
      ensures IsConstraintBounds(problem.consLower, problem.consUpper, N, state)
      ensures actuators == [solver(problem).x[DeltaStart(N)], solver(problem).x[AStart(N)]]
    {
      var ok := true;
      var vars := InitialGuess(N, state);
      var varsLower, varsUpper := VariableBounds(N);
      var consLower, consUpper := ConstraintBounds(N, state);
      var fgEval := FgEval(coeffs, refCte, refEpsi, refV);
      var handed := Problem(vars[..], varsLower[..], varsUpper[..], consLower[..], consUpper[..], fgEval);
      problem := handed;
      var solution := solver(handed);
      ok := ok && solution.status == Success;
      actuators := [solution.x[DeltaStart(N)], solution.x[AStart(N)]];
    }

    /**
     * The state `dt` seconds ahead under the kinematic model. Only entries
     * 0..3 (x, y, psi, v) are computed; the others are whatever the fresh
     * vector held, given here as `unset`.
     */
    function Predict(state: seq<real>, actuators: seq<real>, dt: real, trig: Trig, unset: seq<real>): (next: seq<real>)
      requires |state| >= 4 && |actuators| >= 2 && |unset| == |state|
      ensures |next| == |state|
      ensures next[4..] == unset[4..]
    {
      var x, y, psi, v := state[0], state[1], state[2], state[3];
      var delta, a := actuators[0], actuators[1];
      [x + (v * trig.cos(psi) * dt),
       y + (v * trig.sin(psi) * dt),
       psi + (v / Lf * delta * dt),
       v + (a * dt)] + unset[4..]
    }

    /** A vehicle at rest stays where it is, keeps its heading, and gains speed `a * dt`. */
    lemma PredictAtRest(state: seq<real>, actuators: seq<real>, dt: real, trig: Trig, unset: seq<real>)
      requires |state| >= 4 && |actuators| >= 2 && |unset| == |state| && state[3] == 0.0
      ensures var next := Predict(state, actuators, dt, trig, unset);
        next[0] == state[0] && next[1] == state[1] && next[2] == state[2] && next[3] == actuators[1] * dt
    {
    }

    /**
     * The evaluator's x, y, psi and v rows at step `i + 1` vanish exactly when
     * the state there is what `Predict` computes from step `i` over one step.
     */
    lemma PredictMatchesDefects(eval: FgEval, vars: seq<real>, n: nat, trig: Trig, i: nat)
      requires n >= 2 && |vars| == NVars(n) && |eval.coeffs| >= 4 && i < n - 1
      ensures var s := [vars[At(X, i, n)], vars[At(Y, i, n)], vars[At(Psi, i, n)], vars[At(V, i, n)]];
        var next := Predict(s, [vars[DeltaAt(i, n)], vars[AAt(i, n)]], Dt, trig, s);
        && (eval.Defect(vars, n, trig, X, i) == 0.0 <==> vars[At(X, i + 1, n)] == next[0])
        && (eval.Defect(vars, n, trig, Y, i) == 0.0 <==> vars[At(Y, i + 1, n)] == next[1])
        && (eval.Defect(vars, n, trig, Psi, i) == 0.0 <==> vars[At(Psi, i + 1, n)] == next[2])
        && (eval.Defect(vars, n, trig, V, i) == 0.0 <==> vars[At(V, i + 1, n)] == next[3])
    {
      var s := [vars[At(X, i, n)], vars[At(Y, i, n)], vars[At(Psi, i, n)], vars[At(V, i, n)]];
      var delta, a := vars[DeltaAt(i, n)], vars[AAt(i, n)];
      var next := Predict(s, [delta, a], Dt, trig, s);
      assert next[0] == eval.Advance(vars, n, trig, X, i);
      assert next[1] == eval.Advance(vars, n, trig, Y, i);
      HeadingIncrementAgrees(s[3], delta, Dt);
      assert next[2] == eval.Advance(vars, n, trig, Psi, i);
      assert next[3] == eval.Advance(vars, n, trig, V, i);
    }
  }

  /** `g` lies within the bounds `lower` and `upper`, row by row. */
  ghost predicate WithinBounds(g: seq<real>, lower: seq<real>, upper: seq<real>)
  {
    |lower| == |g| == |upper| && forall k :: 0 <= k < |g| ==> lower[k] <= g[k] <= upper[k]
  }

  /** The step-0 state of `vars` is the current state and every defect of the dynamics is zero. */
  ghost predicate PinnedAndConsistent(eval: FgEval, vars: seq<real>, n: nat, trig: Trig, state: seq<real>)
    requires n >= 2 && |vars| == NVars(n) && |eval.coeffs| >= 4 && |state| >= 6
  {
    && (forall c :: vars[Start(c, n)] == state[Slot(c)])
    && (forall c, i: nat :: i < n - 1 ==> eval.Defect(vars, n, trig, c, i) == 0.0)
  }

  /**
   * A decision vector meets every constraint bound exactly when its step-0
   * state is the current state and every defect of the dynamics is zero.
   */
  lemma FeasibleIff(eval: FgEval, vars: seq<real>, n: nat, trig: Trig,
                    lower: seq<real>, upper: seq<real>, state: seq<real>)
    requires n >= 2 && |vars| == NVars(n) && |eval.coeffs| >= 4 && |state| >= 6
    requires IsConstraintBounds(lower, upper, n, state)
    ensures WithinBounds(eval.Constraints(vars, n, trig), lower, upper)
        <==> PinnedAndConsistent(eval, vars, n, trig, state)
  {
    if WithinBounds(eval.Constraints(vars, n, trig), lower, upper) {
      FeasibleIsConsistent(eval, vars, n, trig, lower, upper, state);
    }
    if PinnedAndConsistent(eval, vars, n, trig, state) {
      ConsistentIsFeasible(eval, vars, n, trig, lower, upper, state);
    }
  }

  /** A vector within the constraint bounds starts at the current state and obeys the dynamics. */
  lemma FeasibleIsConsistent(eval: FgEval, vars: seq<real>, n: nat, trig: Trig,
                             lower: seq<real>, upper: seq<real>, state: seq<real>)
    requires n >= 2 && |vars| == NVars(n) && |eval.coeffs| >= 4 && |state| >= 6
    requires IsConstraintBounds(lower, upper, n, state)
    requires WithinBounds(eval.Constraints(vars, n, trig), lower, upper)
    ensures PinnedAndConsistent(eval, vars, n, trig, state)
  {
    var g := eval.Constraints(vars, n, trig);
    StateBlocksTile(n);
    forall c
      ensures vars[Start(c, n)] == state[Slot(c)]
    {
      assert g[At(c, 0, n)] == eval.Constraint(vars, n, trig, c, 0);
    }
    forall c, i: nat | i < n - 1
      ensures eval.Defect(vars, n, trig, c, i) == 0.0
    {
      var k := At(c, i + 1, n);
      assert g[k] == eval.Constraint(vars, n, trig, c, i + 1);
      InitialSlotsAreStepZero(n, k);
      assert i + 1 - 1 == i;
    }
  }

  /** A vector that starts at the current state and obeys the dynamics is within the constraint bounds. */
  lemma ConsistentIsFeasible(eval: FgEval, vars: seq<real>, n: nat, trig: Trig,
                             lower: seq<real>, upper: seq<real>, state: seq<real>)
    requires n >= 2 && |vars| == NVars(n) && |eval.coeffs| >= 4 && |state| >= 6
    requires IsConstraintBounds(lower, upper, n, state)
    requires PinnedAndConsistent(eval, vars, n, trig, state)
    ensures WithinBounds(eval.Constraints(vars, n, trig), lower, upper)
  {
    var g := eval.Constraints(vars, n, trig);
    forall k | 0 <= k < NConstraints(n)
      ensures lower[k] <= g[k] <= upper[k]
    {
      var c, t := ChannelOf(k, n), Step(k, n);
      IndexDecomposes(k, n);
      assert g[At(c, t, n)] == eval.Constraint(vars, n, trig, c, t);
      InitialSlotsAreStepZero(n, k);
      if t > 0 {
        assert eval.Defect(vars, n, trig, c, t - 1) == 0.0;
      }
    }
  }

  /** The initial guess already satisfies the six step-0 constraint rows. */
  lemma GuessMeetsInitialRows(eval: FgEval, g: seq<real>, n: nat, trig: Trig,
                              lower: seq<real>, upper: seq<real>, state: seq<real>)
    requires n >= 2 && |eval.coeffs| >= 4 && |state| >= 6
    requires IsInitialGuess(g, n, state) && IsConstraintBounds(lower, upper, n, state)
    ensures forall c :: lower[At(c, 0, n)] == eval.Constraint(g, n, trig, c, 0) == upper[At(c, 0, n)]
  {
    forall c
      ensures lower[At(c, 0, n)] == eval.Constraint(g, n, trig, c, 0) == upper[At(c, 0, n)]
    {
      assert At(c, 0, n) == Start(c, n);
    }
  }
}
