/**
 * The starting point and the limits that the controller hands to the
 * optimiser: the initial guess of the decision vector, the bounds on every
 * variable, and the bounds on every constraint row.
 *
 * The current state arrives as a vector whose entries 0..5 are x, y, psi,
 * v, cte and epsi, in the order of the state channels.
 */
module Setup {
  import opened Layout

  /** Magnitude of the bound on the unconstrained state entries. */
  const Unbounded: real := 1.0e19
  /** Magnitude of the steering bound: 25 degrees in radians. */
  const MaxSteer: real := 0.436332
  /** Magnitude of the throttle bound. */
  const MaxThrottle: real := 1.0

  /**
   * `g` is the initial guess: the current state at step 0 of each state
   * block and zero everywhere else.
   */
  ghost predicate IsInitialGuess(g: seq<real>, n: nat, state: seq<real>)
    requires n >= 1 && |state| >= 6
  {
    && |g| == NVars(n)
    && (forall c :: g[Start(c, n)] == state[Slot(c)])
    && (forall k :: 0 <= k < NVars(n) && k !in InitialSlots(n) ==> g[k] == 0.0)
  }

  /** Per-block variable bounds: free state entries, then steering, then throttle. */
  ghost predicate IsVarBounds(lower: seq<real>, upper: seq<real>, n: nat)
    requires n >= 1
  {
    && |lower| == NVars(n) && |upper| == NVars(n)
    && (forall k :: 0 <= k < DeltaStart(n) ==> lower[k] == -Unbounded && upper[k] == Unbounded)
    && (forall k :: DeltaStart(n) <= k < AStart(n) ==> lower[k] == -MaxSteer && upper[k] == MaxSteer)
    && (forall k :: AStart(n) <= k < NVars(n) ==> lower[k] == -MaxThrottle && upper[k] == MaxThrottle)
  }

  /**
   * Constraint bounds: the rows of step 0 are pinned to the current state,
   * every other row (a defect) to zero.
   */
  ghost predicate IsConstraintBounds(lower: seq<real>, upper: seq<real>, n: nat, state: seq<real>)
    requires n >= 1 && |state| >= 6
  {
    && |lower| == NConstraints(n) && |upper| == NConstraints(n)
    && (forall c :: lower[Start(c, n)] == state[Slot(c)] && upper[Start(c, n)] == state[Slot(c)])
    && (forall k :: 0 <= k < NConstraints(n) && k !in InitialSlots(n) ==> lower[k] == 0.0 && upper[k] == 0.0)
  }

  /** Builds the initial guess: zero, then the current state at the six step-0 slots. */
  method InitialGuess(n: nat, state: seq<real>) returns (vars: array<real>)
    requires n >= 1 && |state| >= 6
    ensures IsInitialGuess(vars[..], n, state)
  {
    vars := new real[NVars(n)];
    var i := 0;
    while i < NVars(n)
      invariant 0 <= i <= NVars(n)
      invariant forall k :: 0 <= k < i ==> vars[k] == 0.0
    {
      vars[i] := 0.0;
      i := i + 1;
    }
    PinState(vars, n, state);
  }

  /** Builds the variable bounds, block by block. */
  method VariableBounds(n: nat) returns (lower: array<real>, upper: array<real>)
    requires n >= 1
    ensures IsVarBounds(lower[..], upper[..], n)
  {
    lower := new real[NVars(n)];
    upper := new real[NVars(n)];
    FillBounds(lower, upper, 0, DeltaStart(n), Unbounded);
    FillBounds(lower, upper, DeltaStart(n), AStart(n), MaxSteer);
    FillBounds(lower, upper, AStart(n), NVars(n), MaxThrottle);
  }

  /** Builds the constraint bounds: zero, then the current state at the six step-0 rows. */
  method ConstraintBounds(n: nat, state: seq<real>) returns (lower: array<real>, upper: array<real>)
    requires n >= 1 && |state| >= 6
    ensures IsConstraintBounds(lower[..], upper[..], n, state)
  {
    lower := new real[NConstraints(n)];
    upper := new real[NConstraints(n)];
    FillBounds(lower, upper, 0, NConstraints(n), 0.0);
    PinState(lower, n, state);
    PinState(upper, n, state);
  }

  /** Sets `lower[k]` to `-bound` and `upper[k]` to `bound` for every `k` in `[from, to)`. */
  method FillBounds(lower: array<real>, upper: array<real>, from: nat, to: nat, bound: real)
    requires lower != upper && lower.Length == upper.Length && from <= to <= lower.Length
    modifies lower, upper
    ensures forall k :: from <= k < to ==> lower[k] == -bound && upper[k] == bound
    ensures forall k :: 0 <= k < lower.Length && !(from <= k < to) ==>
      lower[k] == old(lower[k]) && upper[k] == old(upper[k])
  {
    var i := from;
    while i < to
      invariant from <= i <= to
      invariant forall k :: from <= k < i ==> lower[k] == -bound && upper[k] == bound
      invariant forall k :: 0 <= k < lower.Length && !(from <= k < i) ==>
        lower[k] == old(lower[k]) && upper[k] == old(upper[k])
    {
      lower[i] := -bound;
      upper[i] := bound;
      i := i + 1;
    }
  }

  /** Writes the current state into the six step-0 slots of `a`, leaving the rest alone. */
  method PinState(a: array<real>, n: nat, state: seq<real>)
    requires n >= 1 && |state| >= 6 && NConstraints(n) <= a.Length
    modifies a
    ensures forall c :: a[Start(c, n)] == state[Slot(c)]
    ensures forall k :: 0 <= k < a.Length && k !in InitialSlots(n) ==> a[k] == old(a[k])
  {
    a[XStart(n)] := state[0];
    a[YStart(n)] := state[1];
    a[PsiStart(n)] := state[2];
    a[VStart(n)] := state[3];
    a[CteStart(n)] := state[4];
    a[EpsiStart(n)] := state[5];
    forall c
      ensures a[Start(c, n)] == state[Slot(c)]
    {
      match c
      case X =>
      case Y =>
      case Psi =>
      case V =>
      case Cte =>
      case Epsi =>
    }
  }

  /** Every variable bound is a symmetric interval, so lower never exceeds upper. */
  lemma VarBoundsOrdered(lower: seq<real>, upper: seq<real>, n: nat)
    requires n >= 1 && IsVarBounds(lower, upper, n)
    ensures forall k :: 0 <= k < NVars(n) ==> lower[k] == -upper[k] && lower[k] < upper[k]
  {
    forall k | 0 <= k < NVars(n)
      ensures lower[k] == -upper[k] && lower[k] < upper[k]
    {
      if k < DeltaStart(n) {
      } else if k < AStart(n) {
      } else {
      }
    }
  }

  /** Every constraint row is an equality: its lower and upper bounds coincide. */
  lemma ConstraintBoundsAreEqualities(lower: seq<real>, upper: seq<real>, n: nat, state: seq<real>)
    requires n >= 1 && |state| >= 6 && IsConstraintBounds(lower, upper, n, state)
    ensures lower == upper
  {
    forall k | 0 <= k < NConstraints(n)
      ensures lower[k] == upper[k]
    {
      if k in InitialSlots(n) {
        var c :| c in {X, Y, Psi, V, Cte, Epsi} && k == Start(c, n);
        assert lower[Start(c, n)] == upper[Start(c, n)];
      }
    }
  }

  /**
   * Whatever solution respects the variable bounds, the first steering
   * command and the first throttle command it yields are within their limits.
   */
  lemma FirstActuationWithinLimits(lower: seq<real>, upper: seq<real>, n: nat, x: seq<real>)
    requires n >= 2 && IsVarBounds(lower, upper, n) && |x| == NVars(n)
    requires forall k :: 0 <= k < NVars(n) ==> lower[k] <= x[k] <= upper[k]
    ensures -MaxSteer <= x[DeltaStart(n)] <= MaxSteer
    ensures -MaxThrottle <= x[AStart(n)] <= MaxThrottle
  {
    assert lower[DeltaStart(n)] <= x[DeltaStart(n)] <= upper[DeltaStart(n)];
    assert lower[AStart(n)] <= x[AStart(n)] <= upper[AStart(n)];
  }

  /**
   * The initial guess respects the variable bounds whenever the current
   * state does: its actuators are zero, which every actuator bound admits.
   */
  lemma GuessWithinBounds(g: seq<real>, lower: seq<real>, upper: seq<real>, n: nat, state: seq<real>)
    requires n >= 1 && |state| >= 6 && IsInitialGuess(g, n, state) && IsVarBounds(lower, upper, n)
    requires forall j :: 0 <= j < 6 ==> -Unbounded <= state[j] <= Unbounded
    ensures forall k :: 0 <= k < NVars(n) ==> lower[k] <= g[k] <= upper[k]
  {
    forall k | 0 <= k < NVars(n)
      ensures lower[k] <= g[k] <= upper[k]
    {
      if k in InitialSlots(n) {
        var c :| c in {X, Y, Psi, V, Cte, Epsi} && k == Start(c, n);
        assert g[Start(c, n)] == state[Slot(c)];
      }
    }
  }
}
