/**
 * The objective and constraint evaluator that the optimiser calls.
 *
 * `fg[0]` receives the cost; `fg[1 + k]` receives constraint `k`, where the
 * constraint vector has one row per state entry: row `At(c, 0, n)` is the
 * identity on the current value of channel `c`, and row `At(c, t + 1, n)`
 * is the defect between the state at step `t + 1` and the kinematic model
 * applied to step `t`.
 */
module Evaluator {
  import opened Layout
  import opened Kinematics

  // Cost weights.
  const CteWeight: real := 16.0
  const EpsiWeight: real := 12.0
  const SpeedWeight: real := 1.0
  const SteerWeight: real := 8.0
  const ThrottleWeight: real := 6.0
  const SteerRateWeight: real := 400.0
  const ThrottleRateWeight: real := 10.0

  /** The evaluator's data: the path coefficients and the reference targets. */
  datatype FgEval = FgEval(coeffs: seq<real>, refCte: real, refEpsi: real, refV: real)
  {
    /** Tracking cost of step `t`. */
    function TrackingTerm(vars: seq<real>, n: nat, t: nat): (r: real)
      requires n >= 2 && |vars| == NVars(n) && t < n
      ensures r >= 0.0
    {
      CteWeight * Sq(vars[CteStart(n) + t] - refCte)
      + EpsiWeight * Sq(vars[EpsiStart(n) + t] - refEpsi)
      + SpeedWeight * Sq(vars[VStart(n) + t] - refV)
    }

    /** Tracking cost of the first `k` steps: a sum of weighted squares, so never negative. */
    function Tracking(vars: seq<real>, n: nat, k: nat): (r: real)
      requires n >= 2 && |vars| == NVars(n) && k <= n
      ensures r >= 0.0
    {
      if k == 0 then 0.0 else Tracking(vars, n, k - 1) + TrackingTerm(vars, n, k - 1)
    }

    /** Actuator effort of step `t`. */
    function EffortTerm(vars: seq<real>, n: nat, t: nat): (r: real)
      requires n >= 2 && |vars| == NVars(n) && t < n - 1
      ensures r >= 0.0
    {
      SteerWeight * Sq(vars[DeltaStart(n) + t]) + ThrottleWeight * Sq(vars[AStart(n) + t])
    }

    /** Actuator effort of the first `k` steps, never negative. */
    function Effort(vars: seq<real>, n: nat, k: nat): (r: real)
      requires n >= 2 && |vars| == NVars(n) && k <= n - 1
      ensures r >= 0.0
    {
      if k == 0 then 0.0 else Effort(vars, n, k - 1) + EffortTerm(vars, n, k - 1)
    }

    /** Change of actuation between step `t` and step `t + 1`. */
    function SmoothTerm(vars: seq<real>, n: nat, t: nat): (r: real)
      requires n >= 2 && |vars| == NVars(n) && t < n - 2
      ensures r >= 0.0
    {
      SteerRateWeight * Sq(vars[DeltaStart(n) + t + 1] - vars[DeltaStart(n) + t])
      + ThrottleRateWeight * Sq(vars[AStart(n) + t + 1] - vars[AStart(n) + t])
    }

    /** Change of actuation over the first `k` consecutive pairs, never negative. */
    function Smooth(vars: seq<real>, n: nat, k: nat): (r: real)
      requires n >= 2 && |vars| == NVars(n) && k <= n - 2
      ensures r >= 0.0
    {
      if k == 0 then 0.0 else Smooth(vars, n, k - 1) + SmoothTerm(vars, n, k - 1)
    }

    /**
     * The objective: tracking over `n` steps, effort over `n - 1`, smoothness
     * over `n - 2`. It is never negative.
     */
    function Cost(vars: seq<real>, n: nat): (r: real)
      requires n >= 2 && |vars| == NVars(n)
      ensures r >= 0.0
    {
      Tracking(vars, n, n) + Effort(vars, n, n - 1) + Smooth(vars, n, n - 2)
    }

    /** Every cte, epsi and v entry is at its reference and every actuation is zero. */
    predicate AtReference(vars: seq<real>, n: nat)
      requires n >= 2 && |vars| == NVars(n)
    {
      && (forall t: nat :: t < n ==>
            vars[At(Cte, t, n)] == refCte && vars[At(Epsi, t, n)] == refEpsi && vars[At(V, t, n)] == refV)
      && (forall t: nat :: t < n - 1 ==> vars[DeltaAt(t, n)] == 0.0 && vars[AAt(t, n)] == 0.0)
    }

    /** The tracking cost of the first `k` steps vanishes exactly when they sit at the references. */
    lemma {:induction false} TrackingZeroIff(vars: seq<real>, n: nat, k: nat)
      requires n >= 2 && |vars| == NVars(n) && k <= n
      ensures Tracking(vars, n, k) == 0.0 <==>
        forall t: nat :: t < k ==>
          vars[At(Cte, t, n)] == refCte && vars[At(Epsi, t, n)] == refEpsi && vars[At(V, t, n)] == refV
    {
      if k > 0 {
        var t := k - 1;
        TrackingZeroIff(vars, n, t);
        var a, b, c := vars[CteStart(n) + t] - refCte, vars[EpsiStart(n) + t] - refEpsi, vars[VStart(n) + t] - refV;
        WeightedSquaresZeroIff(CteWeight, a, EpsiWeight, b, SpeedWeight, c);
        assert At(Cte, t, n) == CteStart(n) + t && At(Epsi, t, n) == EpsiStart(n) + t && At(V, t, n) == VStart(n) + t;
      }
    }

    /** The actuator effort of the first `k` steps vanishes exactly when every actuation there is zero. */
    lemma {:induction false} EffortZeroIff(vars: seq<real>, n: nat, k: nat)
      requires n >= 2 && |vars| == NVars(n) && k <= n - 1
      ensures Effort(vars, n, k) == 0.0 <==>
        forall t: nat :: t < k ==> vars[DeltaAt(t, n)] == 0.0 && vars[AAt(t, n)] == 0.0
    {
      if k > 0 {
        var t := k - 1;
        EffortZeroIff(vars, n, t);
        WeightedSquaresZeroIff(SteerWeight, vars[DeltaStart(n) + t], ThrottleWeight, vars[AStart(n) + t], 1.0, 0.0);
        assert DeltaAt(t, n) == DeltaStart(n) + t && AAt(t, n) == AStart(n) + t;
      }
    }

    /** With every actuation zero there is no change between actuations to penalise. */
    lemma {:induction false} SmoothZeroWhenIdle(vars: seq<real>, n: nat, k: nat)
      requires n >= 2 && |vars| == NVars(n) && k <= n - 2
      requires forall t: nat :: t < n - 1 ==> vars[DeltaAt(t, n)] == 0.0 && vars[AAt(t, n)] == 0.0
      ensures Smooth(vars, n, k) == 0.0
    {
      if k > 0 {
        var t := k - 1;
        SmoothZeroWhenIdle(vars, n, t);
        assert vars[DeltaAt(t, n)] == 0.0 && vars[AAt(t, n)] == 0.0;
        assert vars[DeltaAt(t + 1, n)] == 0.0 && vars[AAt(t + 1, n)] == 0.0;
      }
    }

    /**
     * The objective is zero exactly at the reference: cte, epsi and v at
     * their targets at every step and every actuation zero.
     */
    lemma CostZeroIff(vars: seq<real>, n: nat)
      requires n >= 2 && |vars| == NVars(n)
      ensures Cost(vars, n) == 0.0 <==> AtReference(vars, n)
    {
      TrackingZeroIff(vars, n, n);
      EffortZeroIff(vars, n, n - 1);
      if AtReference(vars, n) {
        SmoothZeroWhenIdle(vars, n, n - 2);
      }
    }

    /** What the kinematic model predicts for channel `c` at step `i + 1` from step `i`. */
    function Advance(vars: seq<real>, n: nat, trig: Trig, c: Channel, i: nat): (r: real)
      requires n >= 2 && |vars| == NVars(n) && |coeffs| >= 4 && i < n - 1
      ensures vars[At(V, i, n)] == 0.0 && (c == X || c == Y || c == Psi) ==> r == vars[At(c, i, n)]
      ensures c == V ==> (r == vars[At(V, i, n)] <==> vars[AAt(i, n)] == 0.0)
    {
      var x, y, psi := vars[XStart(n) + i], vars[YStart(n) + i], vars[PsiStart(n) + i];
      var v, epsi := vars[VStart(n) + i], vars[EpsiStart(n) + i];
      var delta, alpha := vars[DeltaStart(n) + i], vars[AStart(n) + i];
      match c
      case X => x + v * trig.cos(psi) * Dt
      case Y => y + v * trig.sin(psi) * Dt
      case Psi => psi + v * delta / Lf * Dt
      case V => v + alpha * Dt
      case Cte => (PathHeight(coeffs, x) - y) + (v * trig.sin(epsi) * Dt)
      case Epsi => (psi - trig.atan(HeadingSlope(coeffs, x))) + v * delta / Lf * Dt
    }

    /** Defect of channel `c` between step `i + 1` and the model applied to step `i`. */
    function Defect(vars: seq<real>, n: nat, trig: Trig, c: Channel, i: nat): (r: real)
      requires n >= 2 && |vars| == NVars(n) && |coeffs| >= 4 && i < n - 1
      ensures r == 0.0 <==> vars[At(c, i + 1, n)] == Advance(vars, n, trig, c, i)
    {
      vars[Start(c, n) + i + 1] - Advance(vars, n, trig, c, i)
    }

    /** Constraint row of channel `c` at step `t`: the identity at step 0, a defect after. */
    function Constraint(vars: seq<real>, n: nat, trig: Trig, c: Channel, t: nat): (r: real)
      requires n >= 2 && |vars| == NVars(n) && |coeffs| >= 4 && t < n
      ensures t == 0 ==> r == vars[Start(c, n)]
      ensures t > 0 ==> (r == 0.0 <==> vars[At(c, t, n)] == Advance(vars, n, trig, c, t - 1))
    {
      if t == 0 then vars[At(c, 0, n)] else Defect(vars, n, trig, c, t - 1)
    }

    /** The constraint vector, indexed like the state part of the decision vector. */
    function Constraints(vars: seq<real>, n: nat, trig: Trig): (g: seq<real>)
      requires n >= 2 && |vars| == NVars(n) && |coeffs| >= 4
      ensures |g| == NConstraints(n)
      ensures IsConstraintVector(g, vars, n, trig)
    {
      StateBlocksTile(n);
      seq(NConstraints(n), k requires 0 <= k < NConstraints(n) =>
        Constraint(vars, n, trig, ChannelOf(k, n), Step(k, n)))
    }

    /** Row `At(c, t, n)` of `g` is the constraint of channel `c` at step `t`. */
    ghost predicate IsConstraintVector(g: seq<real>, vars: seq<real>, n: nat, trig: Trig)
      requires n >= 2 && |vars| == NVars(n) && |coeffs| >= 4
    {
      && |g| == NConstraints(n)
      && forall c, t: nat {:trigger Constraint(vars, n, trig, c, t)} :: t < n ==>
           At(c, t, n) < |g| && g[At(c, t, n)] == Constraint(vars, n, trig, c, t)
    }

    /** In a constraint vector, the step-0 row of each channel is its current value. */
    lemma InitialRowValues(g: seq<real>, vars: seq<real>, n: nat, trig: Trig)
      requires n >= 2 && |vars| == NVars(n) && |coeffs| >= 4 && IsConstraintVector(g, vars, n, trig)
      ensures forall c :: g[At(c, 0, n)] == vars[Start(c, n)]
    {
      forall c
        ensures g[At(c, 0, n)] == vars[Start(c, n)]
      {
        assert g[At(c, 0, n)] == Constraint(vars, n, trig, c, 0);
      }
    }

    /** In a constraint vector, the step-`i + 1` row of each channel is its defect from step `i`. */
    lemma StepRowValues(g: seq<real>, vars: seq<real>, n: nat, trig: Trig, i: nat)
      requires n >= 2 && |vars| == NVars(n) && |coeffs| >= 4 && i < n - 1
      requires IsConstraintVector(g, vars, n, trig)
      ensures forall c :: g[At(c, i + 1, n)] == Defect(vars, n, trig, c, i)
    {
      forall c
        ensures g[At(c, i + 1, n)] == Defect(vars, n, trig, c, i)
      {
        assert g[At(c, i + 1, n)] == Constraint(vars, n, trig, c, i + 1);
      }
    }

    /**
     * Fills `fg` in place: the cost into `fg[0]` and the constraint vector
     * into `fg[1..]`. Every constraint slot written is appended to `log`,
     * in the order of the writes.
     */
    method Evaluate(n: nat, fg: array<real>, vars: seq<real>, trig: Trig, ghost log: WriteLog)
      requires n >= 2 && |vars| == NVars(n) && |coeffs| >= 4
      requires fg.Length == 1 + NConstraints(n)
      modifies fg, log
      ensures fg[0] == Cost(vars, n)
      ensures fg[1..] == Constraints(vars, n, trig)
      ensures log.slots == old(log.slots) + AllWrites(n)
    {
      ghost var g := Constraints(vars, n, trig);
      fg[0] := 0.0;
      AddTrackingCost(n, fg, vars);
      AddEffortCost(n, fg, vars);
      AddSmoothCost(n, fg, vars);
      InitialRowValues(g, vars, n, trig);
      SetInitialRows(n, fg, vars, g, log);
      SetDefectRows(n, fg, vars, trig, g, log);
      ConstraintWritesSplit(n, n - 1);
      RowsDoneComplete(fg[..], g, n);
    }

    /** Adds the tracking cost of every step to `fg[0]`. */
    method AddTrackingCost(n: nat, fg: array<real>, vars: seq<real>)
      requires n >= 2 && |vars| == NVars(n) && fg.Length >= 1
      modifies fg
      ensures fg[0] == old(fg[0]) + Tracking(vars, n, n)
      ensures fg[1..] == old(fg[1..])
    {
      var i := 0;
      while i < n
        invariant 0 <= i <= n
        invariant fg[0] == old(fg[0]) + Tracking(vars, n, i)
        invariant fg[1..] == old(fg[1..])
      {
        fg[0] := fg[0] + CteWeight * Sq(vars[CteStart(n) + i] - refCte);
        fg[0] := fg[0] + EpsiWeight * Sq(vars[EpsiStart(n) + i] - refEpsi);
        fg[0] := fg[0] + SpeedWeight * Sq(vars[VStart(n) + i] - refV);
        i := i + 1;
      }
    }

    /** Adds the actuator effort of every step but the last to `fg[0]`. */
    method AddEffortCost(n: nat, fg: array<real>, vars: seq<real>)
      requires n >= 2 && |vars| == NVars(n) && fg.Length >= 1
      modifies fg
      ensures fg[0] == old(fg[0]) + Effort(vars, n, n - 1)
      ensures fg[1..] == old(fg[1..])
    {
      var i := 0;
      while i < n - 1
        invariant 0 <= i <= n - 1
        invariant fg[0] == old(fg[0]) + Effort(vars, n, i)
        invariant fg[1..] == old(fg[1..])
      {
        fg[0] := fg[0] + SteerWeight * Sq(vars[DeltaStart(n) + i]);
        fg[0] := fg[0] + ThrottleWeight * Sq(vars[AStart(n) + i]);
        i := i + 1;
      }
    }

    /** Adds the change between consecutive actuations to `fg[0]`. */
    method AddSmoothCost(n: nat, fg: array<real>, vars: seq<real>)
      requires n >= 2 && |vars| == NVars(n) && fg.Length >= 1
      modifies fg
      ensures fg[0] == old(fg[0]) + Smooth(vars, n, n - 2)
      ensures fg[1..] == old(fg[1..])
    {
      var i := 0;
      while i < n - 2
        invariant 0 <= i <= n - 2
        invariant fg[0] == old(fg[0]) + Smooth(vars, n, i)
        invariant fg[1..] == old(fg[1..])
      {
        fg[0] := fg[0] + SteerRateWeight * Sq(vars[DeltaStart(n) + i + 1] - vars[DeltaStart(n) + i]);
        fg[0] := fg[0] + ThrottleRateWeight * Sq(vars[AStart(n) + i + 1] - vars[AStart(n) + i]);
        i := i + 1;
      }
    }

    /**
     * Writes the six step-0 rows: each is the current value of its channel.
     * The six slots are appended to `log` in the order they are written, and
     * no other entry of `fg` changes.
     */
    method SetInitialRows(n: nat, fg: array<real>, vars: seq<real>, ghost g: seq<real>, ghost log: WriteLog)
      requires n >= 2 && |vars| == NVars(n)
      requires fg.Length == 1 + NConstraints(n) && |g| == NConstraints(n)
      requires forall c :: g[At(c, 0, n)] == vars[Start(c, n)]
      modifies fg, log
      ensures fg[0] == old(fg[0])
      ensures RowsDone(fg[..], g, n, 0)
      ensures forall c, t: nat :: 0 < t < n ==> fg[1 + At(c, t, n)] == old(fg[1 + At(c, t, n)])
      ensures log.slots == old(log.slots) + InitialWrites(n)
      ensures forall j :: 0 <= j < fg.Length && j !in InitialWrites(n) ==> fg[j] == old(fg[j])
    {
      ghost var before := fg[..];
      ghost var l0 := log.slots;
      SetInitialRow(n, fg, vars, g, before, l0, X, log);
      SetInitialRow(n, fg, vars, g, before, l0, Y, log);
      SetInitialRow(n, fg, vars, g, before, l0, Psi, log);
      SetInitialRow(n, fg, vars, g, before, l0, V, log);
      SetInitialRow(n, fg, vars, g, before, l0, Cte, log);
      SetInitialRow(n, fg, vars, g, before, l0, Epsi, log);
      assert InitialWrites(n)[..6] == InitialWrites(n);
      InitialRowsDone(fg[..], before, g, n);
    }

    /**
     * Writes the step-0 row of channel `c` and appends its slot to `log`;
     * every other entry of `fg` stays as it was.
     */
    method SetInitialRow(n: nat, fg: array<real>, vars: seq<real>,
                         ghost g: seq<real>, ghost before: seq<real>, ghost l0: seq<nat>, c: Channel,
                         ghost log: WriteLog)
      requires n >= 2 && |vars| == NVars(n)
      requires fg.Length == 1 + NConstraints(n) && |g| == NConstraints(n)
      requires g[At(c, 0, n)] == vars[Start(c, n)]
      requires StepRowsDone(fg[..], g, n, 0, Slot(c))
      requires log.slots == l0 + InitialWrites(n)[..Slot(c)]
      requires KeptOutside(fg[..], before, InitialWrites(n)[..Slot(c)])
      modifies fg, log
      ensures fg[1 + At(c, 0, n)] == g[At(c, 0, n)]
      ensures forall j :: 0 <= j < fg.Length && j != 1 + At(c, 0, n) ==> fg[j] == old(fg[j])
      ensures log.slots == old(log.slots) + [1 + At(c, 0, n)]
      ensures StepRowsDone(fg[..], g, n, 0, Slot(c) + 1)
      ensures log.slots == l0 + InitialWrites(n)[..Slot(c) + 1]
      ensures KeptOutside(fg[..], before, InitialWrites(n)[..Slot(c) + 1])
    {
      ghost var a := fg[..];
      var w := 1 + Start(c, n);
      fg[w] := vars[Start(c, n)];
      log.slots := log.slots + [w];
      assert fg[..] == a[w := fg[w]];
      StepRowWritten(a, g, n, 0, c, fg[w]);
      InitialWritesNext(n, c);
      KeptOutsideWrite(a, before, InitialWrites(n)[..Slot(c)], w, fg[w]);
    }

    /**
     * Writes the defect rows of steps `1..n-1`, after the step-0 rows,
     * appending each slot to `log` as it is written.
     */
    method SetDefectRows(n: nat, fg: array<real>, vars: seq<real>, trig: Trig,
                         ghost g: seq<real>, ghost log: WriteLog)
      requires n >= 2 && |vars| == NVars(n) && |coeffs| >= 4
      requires fg.Length == 1 + NConstraints(n) && IsConstraintVector(g, vars, n, trig)
      requires RowsDone(fg[..], g, n, 0)
      modifies fg, log
      ensures fg[0] == old(fg[0])
      ensures RowsDone(fg[..], g, n, n - 1)
      ensures log.slots == old(log.slots) + DefectWritesUpTo(n, n - 1)
      ensures forall j :: 0 <= j < fg.Length && j !in DefectWritesUpTo(n, n - 1) ==> fg[j] == old(fg[j])
    {
      var i := 0;
      while i < n - 1
        invariant 0 <= i <= n - 1
        invariant fg[0] == old(fg[0])
        invariant RowsDone(fg[..], g, n, i)
        invariant log.slots == old(log.slots) + DefectWritesUpTo(n, i)
        invariant forall j :: 0 <= j < fg.Length && j !in DefectWritesUpTo(n, i) ==> fg[j] == old(fg[j])
      {
        StepRowValues(g, vars, n, trig, i);
        SetStepRows(n, fg, vars, trig, g, i, log);
        i := i + 1;
      }
    }

    /**
     * Writes the six defect rows of step `i + 1`, in the source's order,
     * appending their slots to `log`; no other entry of `fg` changes.
     */
    method SetStepRows(n: nat, fg: array<real>, vars: seq<real>, trig: Trig,
                       ghost g: seq<real>, i: nat, ghost log: WriteLog)
      requires n >= 2 && |vars| == NVars(n) && |coeffs| >= 4 && i < n - 1
      requires fg.Length == 1 + NConstraints(n) && |g| == NConstraints(n)
      requires forall c :: g[At(c, i + 1, n)] == Defect(vars, n, trig, c, i)
      requires RowsDone(fg[..], g, n, i)
      modifies fg, log
      ensures fg[0] == old(fg[0])
      ensures RowsDone(fg[..], g, n, i + 1)
      ensures forall c, t: nat :: i + 1 < t < n ==> fg[1 + At(c, t, n)] == old(fg[1 + At(c, t, n)])
      ensures log.slots == old(log.slots) + DefectWrites(n, i)
      ensures forall j :: 0 <= j < fg.Length && j !in DefectWrites(n, i) ==> fg[j] == old(fg[j])
    {
      ghost var before := fg[..];
      ghost var l0 := log.slots;
      SetDefectRow(n, fg, vars, trig, g, before, l0, X, i, log);
      SetDefectRow(n, fg, vars, trig, g, before, l0, Y, i, log);
      SetDefectRow(n, fg, vars, trig, g, before, l0, Psi, i, log);
      SetDefectRow(n, fg, vars, trig, g, before, l0, V, i, log);
      SetDefectRow(n, fg, vars, trig, g, before, l0, Cte, i, log);
      SetDefectRow(n, fg, vars, trig, g, before, l0, Epsi, i, log);
      assert DefectWrites(n, i)[..6] == DefectWrites(n, i);
      StepRowsAdded(fg[..], before, g, n, i);
    }

    /**
     * Writes the defect of channel `c` between steps `i` and `i + 1` and
     * appends its slot to `log`; every other entry of `fg` stays as it was.
     */
    method SetDefectRow(n: nat, fg: array<real>, vars: seq<real>, trig: Trig,
                        ghost g: seq<real>, ghost before: seq<real>, ghost l0: seq<nat>, c: Channel, i: nat,
                        ghost log: WriteLog)
      requires n >= 2 && |vars| == NVars(n) && |coeffs| >= 4 && i < n - 1
      requires fg.Length == 1 + NConstraints(n) && |g| == NConstraints(n)
      requires g[At(c, i + 1, n)] == Defect(vars, n, trig, c, i)
      requires StepRowsDone(fg[..], g, n, i + 1, Slot(c))
      requires log.slots == l0 + DefectWrites(n, i)[..Slot(c)]
      requires KeptOutside(fg[..], before, DefectWrites(n, i)[..Slot(c)])
      modifies fg, log
      ensures fg[1 + At(c, i + 1, n)] == g[At(c, i + 1, n)]
      ensures forall j :: 0 <= j < fg.Length && j != 1 + At(c, i + 1, n) ==> fg[j] == old(fg[j])
      ensures log.slots == old(log.slots) + [1 + At(c, i + 1, n)]
      ensures StepRowsDone(fg[..], g, n, i + 1, Slot(c) + 1)
      ensures log.slots == l0 + DefectWrites(n, i)[..Slot(c) + 1]
      ensures KeptOutside(fg[..], before, DefectWrites(n, i)[..Slot(c) + 1])
    {
      ghost var a := fg[..];
      var w := 2 + Start(c, n) + i;
      fg[w] := Defect(vars, n, trig, c, i);
      log.slots := log.slots + [w];
      assert fg[..] == a[w := fg[w]];
      StepRowWritten(a, g, n, i + 1, c, fg[w]);
      DefectWritesNext(n, i, c);
      KeptOutsideWrite(a, before, DefectWrites(n, i)[..Slot(c)], w, fg[w]);
    }
  }

  /** A ghost record of the constraint slots of `fg`, in the order they are written. */
  class WriteLog {
    ghost var slots: seq<nat>

    constructor ()
      ensures slots == []
    {
      slots := [];
    }
  }

  /** The rows of step `t` of the channels in block positions below `r` agree with `g`. */
  ghost predicate StepRowsDone(fg: seq<real>, g: seq<real>, n: nat, t: nat, r: nat)
    requires |fg| == 1 + NConstraints(n) && |g| == NConstraints(n) && t < n
  {
    forall c :: Slot(c) < r ==> fg[1 + At(c, t, n)] == g[At(c, t, n)]
  }

  /** Every entry of `f` outside `slots` still holds what `before` holds. */
  ghost predicate KeptOutside(f: seq<real>, before: seq<real>, slots: seq<nat>) {
    |f| == |before| && forall j :: 0 <= j < |f| && j !in slots ==> f[j] == before[j]
  }

  /**
   * Writing the step-`t` row of channel `c` with its value in `g` extends
   * the done rows of step `t` by `c`.
   */
  lemma StepRowWritten(f: seq<real>, g: seq<real>, n: nat, t: nat, c: Channel, v: real)
    requires t < n && |f| == 1 + NConstraints(n) && |g| == NConstraints(n)
    requires StepRowsDone(f, g, n, t, Slot(c)) && v == g[At(c, t, n)]
    ensures StepRowsDone(f[1 + At(c, t, n) := v], g, n, t, Slot(c) + 1)
  {
    var h := f[1 + At(c, t, n) := v];
    forall d | Slot(d) < Slot(c) + 1
      ensures h[1 + At(d, t, n)] == g[At(d, t, n)]
    {
      AtInjective(d, t, c, t, n);
    }
  }

  /** Writing slot `w` keeps every entry outside the slots written so far and `w`. */
  lemma KeptOutsideWrite(f: seq<real>, before: seq<real>, slots: seq<nat>, w: nat, v: real)
    requires KeptOutside(f, before, slots) && w < |f|
    ensures KeptOutside(f[w := v], before, slots + [w])
  {
  }

  /** The step-0 slot of channel `c` comes right after those of the channels before it. */
  lemma InitialWritesNext(n: nat, c: Channel)
    ensures InitialWrites(n)[..Slot(c) + 1] == InitialWrites(n)[..Slot(c)] + [1 + At(c, 0, n)]
  {
    assert InitialWrites(n)[Slot(c)] == 1 + At(c, 0, n);
  }

  /** The step-`i + 1` slot of channel `c` comes right after those of the channels before it. */
  lemma DefectWritesNext(n: nat, i: nat, c: Channel)
    ensures DefectWrites(n, i)[..Slot(c) + 1] == DefectWrites(n, i)[..Slot(c)] + [1 + At(c, i + 1, n)]
  {
    assert DefectWrites(n, i)[Slot(c)] == 1 + At(c, i + 1, n);
  }

  /**
   * Once the six step-0 rows are written and nothing else changed, the
   * step-0 rows are done and `fg[0]` and every later row are as before.
   */
  lemma InitialRowsDone(f: seq<real>, before: seq<real>, g: seq<real>, n: nat)
    requires n >= 1 && |f| == 1 + NConstraints(n) && |g| == NConstraints(n)
    requires StepRowsDone(f, g, n, 0, 6) && KeptOutside(f, before, InitialWrites(n))
    ensures RowsDone(f, g, n, 0)
    ensures f[0] == before[0]
    ensures forall c, t: nat :: 0 < t < n ==> f[1 + At(c, t, n)] == before[1 + At(c, t, n)]
  {
    forall c, t: nat | 0 < t < n
      ensures f[1 + At(c, t, n)] == before[1 + At(c, t, n)]
    {
      NotWrittenAt(n, c, t, 0);
    }
  }

  /**
   * Once the six rows of step `k + 1` are written and nothing else changed,
   * the rows of steps `0..k + 1` are done and `fg[0]` and every later row
   * are as before.
   */
  lemma StepRowsAdded(f: seq<real>, before: seq<real>, g: seq<real>, n: nat, k: nat)
    requires k + 1 < n && |f| == 1 + NConstraints(n) && |g| == NConstraints(n) && |before| == |f|
    requires RowsDone(before, g, n, k) && StepRowsDone(f, g, n, k + 1, 6)
    requires KeptOutside(f, before, DefectWrites(n, k))
    ensures RowsDone(f, g, n, k + 1)
    ensures f[0] == before[0]
    ensures forall c, t: nat :: k + 1 < t < n ==> f[1 + At(c, t, n)] == before[1 + At(c, t, n)]
  {
    forall c, t: nat | t <= k + 1
      ensures f[1 + At(c, t, n)] == g[At(c, t, n)]
    {
      if t == k + 1 {
        assert Slot(c) < 6;
      } else {
        NotWrittenAt(n, c, t, k + 1);
      }
    }
    forall c, t: nat | k + 1 < t < n
      ensures f[1 + At(c, t, n)] == before[1 + At(c, t, n)]
    {
      NotWrittenAt(n, c, t, k + 1);
    }
  }

  /** A row of step `t` is none of the six rows of another step `s`. */
  lemma NotWrittenAt(n: nat, c: Channel, t: nat, s: nat)
    requires t < n && s < n && t != s
    ensures s == 0 ==> 1 + At(c, t, n) !in InitialWrites(n)
    ensures s > 0 ==> 1 + At(c, t, n) !in DefectWrites(n, s - 1)
  {
    AtInjective(c, t, X, s, n);
    AtInjective(c, t, Y, s, n);
    AtInjective(c, t, Psi, s, n);
    AtInjective(c, t, V, s, n);
    AtInjective(c, t, Cte, s, n);
    AtInjective(c, t, Epsi, s, n);
  }

  /** Rows of steps `0..k` of every channel of `fg` (shifted by one) agree with `g`. */
  ghost predicate RowsDone(fg: seq<real>, g: seq<real>, n: nat, k: nat)
    requires |fg| == 1 + NConstraints(n) && |g| == NConstraints(n) && k < n
  {
    forall c, t :: 0 <= t <= k ==> fg[1 + At(c, t, n)] == g[At(c, t, n)]
  }

  /** Once the rows of every step agree, `fg[1..]` is `g`. */
  lemma RowsDoneComplete(fg: seq<real>, g: seq<real>, n: nat)
    requires n >= 1 && |fg| == 1 + NConstraints(n) && |g| == NConstraints(n)
    requires RowsDone(fg, g, n, n - 1)
    ensures fg[1..] == g
  {
    forall k | 0 <= k < NConstraints(n)
      ensures fg[1..][k] == g[k]
    {
      IndexDecomposes(k, n);
      assert fg[1 + At(ChannelOf(k, n), Step(k, n), n)] == g[At(ChannelOf(k, n), Step(k, n), n)];
    }
  }

  /** The `fg` slots written by the six initial constraints. */
  function InitialWrites(n: nat): seq<nat> {
    [1 + XStart(n), 1 + YStart(n), 1 + PsiStart(n), 1 + VStart(n), 1 + CteStart(n), 1 + EpsiStart(n)]
  }

  /** The `fg` slots written by the six defects of step `i`. */
  function DefectWrites(n: nat, i: nat): seq<nat> {
    [2 + XStart(n) + i, 2 + YStart(n) + i, 2 + PsiStart(n) + i,
     2 + VStart(n) + i, 2 + CteStart(n) + i, 2 + EpsiStart(n) + i]
  }

  /** The `fg` slots written by the initial constraints and the defects of the first `k` steps. */
  function ConstraintWrites(n: nat, k: nat): seq<nat> {
    if k == 0 then InitialWrites(n) else ConstraintWrites(n, k - 1) + DefectWrites(n, k - 1)
  }

  /** The slots written by the defects of the first `k` steps. */
  function DefectWritesUpTo(n: nat, k: nat): seq<nat> {
    if k == 0 then [] else DefectWritesUpTo(n, k - 1) + DefectWrites(n, k - 1)
  }

  /** The slots written by the initial constraints and every defect. */
  function AllWrites(n: nat): seq<nat>
    requires n >= 1
  {
    ConstraintWrites(n, n - 1)
  }

  /** The constraint writes are the initial writes followed by the defect writes. */
  lemma {:induction false} ConstraintWritesSplit(n: nat, k: nat)
    ensures ConstraintWrites(n, k) == InitialWrites(n) + DefectWritesUpTo(n, k)
  {
    if k > 0 {
      ConstraintWritesSplit(n, k - 1);
    }
  }

  /** The six defect slots of step `i` are the rows of step `i + 1`. */
  lemma DefectWritesAreStep(n: nat, i: nat)
    requires n >= 2 && i < n - 1
    ensures forall p :: 0 <= p < |DefectWrites(n, i)| ==>
      1 <= DefectWrites(n, i)[p] <= NConstraints(n) && Step(DefectWrites(n, i)[p] - 1, n) == i + 1
  {
    StateBlocksTile(n);
    var d := DefectWrites(n, i);
    forall p | 0 <= p < |d|
      ensures 1 <= d[p] <= NConstraints(n) && Step(d[p] - 1, n) == i + 1
    {
      var c := [X, Y, Psi, V, Cte, Epsi][p];
      assert d[p] - 1 == At(c, i + 1, n);
    }
  }

  /** The six initial slots are the rows of step 0. */
  lemma InitialWritesAreStepZero(n: nat)
    requires n >= 1
    ensures forall p :: 0 <= p < |InitialWrites(n)| ==>
      1 <= InitialWrites(n)[p] <= NConstraints(n) && Step(InitialWrites(n)[p] - 1, n) == 0
  {
    StateBlocksTile(n);
    var w := InitialWrites(n);
    forall p | 0 <= p < |w|
      ensures 1 <= w[p] <= NConstraints(n) && Step(w[p] - 1, n) == 0
    {
      var c := [X, Y, Psi, V, Cte, Epsi][p];
      assert w[p] - 1 == At(c, 0, n);
    }
  }

  /** The slots written up to step `k` lie in `1..6n` and belong to steps `0..k`. */
  lemma {:induction false} WritesInRange(n: nat, k: nat)
    requires n >= 2 && k <= n - 1
    ensures |ConstraintWrites(n, k)| == 6 * (k + 1)
    ensures forall p :: 0 <= p < |ConstraintWrites(n, k)| ==>
      1 <= ConstraintWrites(n, k)[p] <= NConstraints(n) && Step(ConstraintWrites(n, k)[p] - 1, n) <= k
  {
    if k == 0 {
      InitialWritesAreStepZero(n);
    } else {
      WritesInRange(n, k - 1);
      DefectWritesAreStep(n, k - 1);
      var w, prev, d := ConstraintWrites(n, k), ConstraintWrites(n, k - 1), DefectWrites(n, k - 1);
      forall p | 0 <= p < |w|
        ensures 1 <= w[p] <= NConstraints(n) && Step(w[p] - 1, n) <= k
      {
        if p < |prev| {
          assert w[p] == prev[p];
        } else {
          assert w[p] == d[p - |prev|];
        }
      }
    }
  }

  /** Every row of steps `0..k` has been written once the defects of step `k - 1` are. */
  lemma {:induction false} WritesCover(n: nat, k: nat)
    requires n >= 2 && k <= n - 1
    ensures forall j: nat :: 1 <= j <= NConstraints(n) && Step(j - 1, n) <= k ==> j in ConstraintWrites(n, k)
  {
    StateBlocksTile(n);
    var w := ConstraintWrites(n, k);
    if k == 0 {
      forall j: nat | 1 <= j <= NConstraints(n) && Step(j - 1, n) <= 0
        ensures j in w
      {
        assert j - 1 == At(ChannelOf(j - 1, n), 0, n);
      }
    } else {
      WritesCover(n, k - 1);
      var prev, d := ConstraintWrites(n, k - 1), DefectWrites(n, k - 1);
      forall j: nat | 1 <= j <= NConstraints(n) && Step(j - 1, n) <= k
        ensures j in w
      {
        if Step(j - 1, n) < k {
          assert j in prev;
        } else {
          assert j - 1 == At(ChannelOf(j - 1, n), k, n);
          assert j in d;
        }
      }
    }
  }

  /** No slot is written twice. */
  lemma {:induction false} WritesDistinct(n: nat, k: nat)
    requires n >= 2 && k <= n - 1
    ensures forall p, q :: 0 <= p < q < |ConstraintWrites(n, k)| ==>
      ConstraintWrites(n, k)[p] != ConstraintWrites(n, k)[q]
  {
    if k > 0 {
      WritesDistinct(n, k - 1);
      WritesInRange(n, k - 1);
      DefectWritesAreStep(n, k - 1);
      DefectWritesDistinct(n, k - 1);
      var w, prev, d := ConstraintWrites(n, k), ConstraintWrites(n, k - 1), DefectWrites(n, k - 1);
      assert w == prev + d;
      forall p, q | 0 <= p < q < |w|
        ensures w[p] != w[q]
      {
        if q < |prev| {
          assert w[p] == prev[p] && w[q] == prev[q];
        } else if p < |prev| {
          assert w[p] == prev[p] && w[q] == d[q - |prev|];
        } else {
          assert w[p] == d[p - |prev|] && w[q] == d[q - |prev|];
        }
      }
    }
  }

  /** The six defect slots of one step are distinct. */
  lemma DefectWritesDistinct(n: nat, i: nat)
    requires n >= 1
    ensures forall p, q :: 0 <= p < q < |DefectWrites(n, i)| ==> DefectWrites(n, i)[p] != DefectWrites(n, i)[q]
  {
  }

  /**
   * The initial constraints and the defects together write every slot
   * `1..6n` of `fg` exactly once, and never slot 0, which holds the cost.
   */
  lemma WritesExactlyOnce(n: nat)
    requires n >= 2
    ensures |AllWrites(n)| == NConstraints(n)
    ensures forall p :: 0 <= p < |AllWrites(n)| ==> 1 <= AllWrites(n)[p] <= NConstraints(n)
    ensures forall j :: 1 <= j <= NConstraints(n) ==> j in AllWrites(n)
    ensures forall p, q :: 0 <= p < q < |AllWrites(n)| ==> AllWrites(n)[p] != AllWrites(n)[q]
  {
    WritesInRange(n, n - 1);
    WritesCover(n, n - 1);
    WritesDistinct(n, n - 1);
    StateBlocksTile(n);
  }
}
