/**
 * The layout of the flat decision vector that the optimiser works on.
 *
 * Six state blocks (x, y, psi, v, cte, epsi) of `n` entries each come first,
 * followed by two actuator blocks (delta, a) of `n - 1` entries each. Entry
 * `t` of a state block is the state at step `t`; entry 0 is the current
 * (measured or predicted) state. The source fixes the horizon at `N`; every
 * offset here is a function of the horizon so that the layout facts can be
 * proved for every horizon the code supports.
 */
module Layout {

  /** The horizon the controller uses. */
  const N: nat := 11

  /** The six state channels, in block order. */
  datatype Channel = X | Y | Psi | V | Cte | Epsi

  /**
   * Position of channel `c` in block order, which is also its position in
   * the incoming state vector.
   */
  function Slot(c: Channel): (k: nat)
    ensures k < 6
  {
    match c
    case X => 0
    case Y => 1
    case Psi => 2
    case V => 3
    case Cte => 4
    case Epsi => 5
  }

  /** The x block opens the vector. */
  function XStart(n: nat): (r: nat)
    ensures r == 0
  {
    0
  }

  /** Each state block starts `n` entries after the previous one. */
  function YStart(n: nat): (r: nat)
    ensures r == n
  {
    XStart(n) + n
  }

  function PsiStart(n: nat): (r: nat)
    ensures r == 2 * n
  {
    YStart(n) + n
  }

  function VStart(n: nat): (r: nat)
    ensures r == 3 * n
  {
    PsiStart(n) + n
  }

  function CteStart(n: nat): (r: nat)
    ensures r == 4 * n
  {
    VStart(n) + n
  }

  function EpsiStart(n: nat): (r: nat)
    ensures r == 5 * n
  {
    CteStart(n) + n
  }

  /** The steering block follows the six state blocks. */
  function DeltaStart(n: nat): (r: nat)
    ensures r == 6 * n
  {
    EpsiStart(n) + n
  }

  /** The throttle block follows the `n - 1` steering entries. */
  function AStart(n: nat): (r: nat)
    requires n >= 1
    ensures r == 7 * n - 1
  {
    DeltaStart(n) + n - 1
  }

  /** Length of the decision vector: `n * 6 + (n - 1) * 2`, where the throttle block ends. */
  function NVars(n: nat): (r: nat)
    requires n >= 1
    ensures r == AStart(n) + (n - 1)
  {
    n * 6 + (n - 1) * 2
  }

  /** Number of constraints: one per state entry, so as many as the state part has. */
  function NConstraints(n: nat): (r: nat)
    ensures r == DeltaStart(n)
  {
    n * 6
  }

  /** Start offset of a state channel's block. */
  function Start(c: Channel, n: nat): nat {
    match c
    case X => XStart(n)
    case Y => YStart(n)
    case Psi => PsiStart(n)
    case V => VStart(n)
    case Cte => CteStart(n)
    case Epsi => EpsiStart(n)
  }

  /** Index of state channel `c` at step `t`. */
  function At(c: Channel, t: nat, n: nat): (k: nat)
    ensures t < n ==> k < NConstraints(n)
  {
    Start(c, n) + t
  }

  /** Index of the steering angle applied at step `t`. */
  function DeltaAt(t: nat, n: nat): nat {
    DeltaStart(n) + t
  }

  /** Index of the throttle applied at step `t`. */
  function AAt(t: nat, n: nat): nat
    requires n >= 1
  {
    AStart(n) + t
  }

  /** The six offsets that hold the current state (step 0 of each block). */
  function InitialSlots(n: nat): set<nat> {
    {XStart(n), YStart(n), PsiStart(n), VStart(n), CteStart(n), EpsiStart(n)}
  }

  /** The state channel whose block holds index `k` of the state part. */
  function ChannelOf(k: nat, n: nat): Channel
    requires k < NConstraints(n)
  {
    if k < YStart(n) then X
    else if k < PsiStart(n) then Y
    else if k < VStart(n) then Psi
    else if k < CteStart(n) then V
    else if k < EpsiStart(n) then Cte
    else Epsi
  }

  /** The time step that index `k` of the state part stands for. */
  function Step(k: nat, n: nat): nat
    requires k < NConstraints(n)
  {
    k - Start(ChannelOf(k, n), n)
  }

  /**
   * The eight blocks follow each other without gap or overlap, in the order
   * x, y, psi, v, cte, epsi, delta, a, and fill the decision vector exactly.
   */
  lemma OffsetsIncreasing(n: nat)
    requires n >= 2
    ensures XStart(n) == 0
    ensures XStart(n) < YStart(n) < PsiStart(n) < VStart(n) < CteStart(n) < EpsiStart(n)
    ensures EpsiStart(n) < DeltaStart(n) < AStart(n) < NVars(n)
    ensures DeltaStart(n) == NConstraints(n)
    ensures AStart(n) + (n - 1) == NVars(n)
  {
  }

  /**
   * The state blocks tile `[0, 6n)`: every (channel, step) pair names one
   * index, and every index is named by exactly one pair.
   */
  lemma StateBlocksTile(n: nat)
    requires n >= 1
    ensures forall c: Channel, t: nat :: t < n ==>
      At(c, t, n) < NConstraints(n) &&
      ChannelOf(At(c, t, n), n) == c && Step(At(c, t, n), n) == t
    ensures forall k: nat :: k < NConstraints(n) ==>
      Step(k, n) < n && At(ChannelOf(k, n), Step(k, n), n) == k
  {
  }

  /** Index `k` of the state part is step `Step(k, n)` of channel `ChannelOf(k, n)`. */
  lemma IndexDecomposes(k: nat, n: nat)
    requires k < NConstraints(n)
    ensures Step(k, n) < n && At(ChannelOf(k, n), Step(k, n), n) == k
  {
  }

  /** Distinct (channel, step) pairs within the horizon name distinct indices. */
  lemma AtInjective(c: Channel, t: nat, d: Channel, u: nat, n: nat)
    requires t < n && u < n
    ensures At(c, t, n) == At(d, u, n) ==> c == d && t == u
  {
    StateBlocksTile(n);
  }

  /** Index `k` is one of the six step-0 state slots exactly when its step is 0. */
  lemma InitialSlotsAreStepZero(n: nat, k: nat)
    requires n >= 1 && k < NConstraints(n)
    ensures k in InitialSlots(n) <==> Step(k, n) == 0
  {
  }
}
