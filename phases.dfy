/**
 * The five positional phases of a trial: the cut points at 20/40/60/80 %
 * of its length, the duration index column filled by slice assignment,
 * and `create_trial_label`.
 */
module Phases {
  import opened Wrappers

  /** Names of phases 1..5, in order. */
  const PhaseNames: seq<string> := ["baseline", "fixation", "squeeze", "blank", "response"]

  /** The label of every duration index outside 1..5 (and of NaN). */
  const Unknown: string := "unknown"

  /**
   * `create_trial_label`: dictionary lookup with "unknown" as the default.
   */
  function TrialLabel(durationIndex: int): (name: string)
    ensures 1 <= durationIndex <= 5 ==> name == PhaseNames[durationIndex - 1]
    ensures name == Unknown <==> !(1 <= durationIndex <= 5)
  {
    match durationIndex
    case 1 => "baseline"
    case 2 => "fixation"
    case 3 => "squeeze"
    case 4 => "blank"
    case 5 => "response"
    case _ => Unknown
  }

  /** The five names are distinct, so a label identifies its phase. */
  lemma TrialLabelInjective(i: int, j: int)
    requires 1 <= i <= 5 && 1 <= j <= 5 && TrialLabel(i) == TrialLabel(j)
    ensures i == j
  {
  }

  /**
   * End of phase k in a trial of d samples: `int(d * 0.2)`, `int(d * 0.4)`,
   * `int(d * 0.6)`, `int(d * 0.8)` and `d` for k = 1..5, written in
   * integers as floor(k * d / 5). Cut(0, d) is the trial start.
   */
  function Cut(k: nat, d: nat): nat
    requires k <= 5
  {
    match k
    case 0 => 0
    case 1 => d / 5
    case 2 => 2 * d / 5
    case 3 => 3 * d / 5
    case 4 => 4 * d / 5
    case _ => 5 * d / 5
  }

  /** The cut points are ordered, start at 0 and end at d. */
  lemma CutsOrdered(d: nat)
    ensures Cut(0, d) == 0 && Cut(5, d) == d
    ensures Cut(0, d) <= Cut(1, d) <= Cut(2, d) <= Cut(3, d) <= Cut(4, d) <= Cut(5, d)
  {
  }

  /** The phase (1..5) whose interval [Cut(k-1), Cut(k)) holds position j. */
  function PhaseOf(j: nat, d: nat): (k: nat)
    requires j < d
    ensures 1 <= k <= 5
    ensures Cut(k - 1, d) <= j < Cut(k, d)
  {
    if j < Cut(1, d) then 1
    else if j < Cut(2, d) then 2
    else if j < Cut(3, d) then 3
    else if j < Cut(4, d) then 4
    else 5
  }

  /** Position j is in phase k exactly when it lies in k's interval. */
  lemma PhaseOfIff(j: nat, d: nat, k: nat)
    requires j < d && 1 <= k <= 5
    ensures PhaseOf(j, d) == k <==> Cut(k - 1, d) <= j < Cut(k, d)
  {
    CutsOrdered(d);
  }

  /** The duration index column of a trial of d samples. */
  function PhaseColumn(d: nat): (c: seq<Option<int>>)
    ensures |c| == d
  {
    seq(d, j requires 0 <= j < d => Some(PhaseOf(j, d)))
  }

  function Repeat<T>(x: T, n: nat): (r: seq<T>)
    ensures |r| == n && forall i :: 0 <= i < n ==> r[i] == x
  {
    seq(n, _ => x)
  }

  /** The lower cut of a phase never exceeds its upper cut, nor the trial length. */
  lemma CutBounds(d: nat, k: nat)
    requires 1 <= k <= 5
    ensures Cut(k - 1, d) <= Cut(k, d) <= d
  {
    CutsOrdered(d);
  }

  /**
   * Phase k holds exactly Cut(k) - Cut(k-1) samples of the trial, all in
   * the slice [Cut(k-1), Cut(k)) of the duration index column.
   */
  lemma PhaseSizes(d: nat, k: nat)
    requires 1 <= k <= 5
    ensures Cut(k - 1, d) <= Cut(k, d) <= d
    ensures PhaseColumn(d)[Cut(k - 1, d)..Cut(k, d)] == Repeat(Some(k), Cut(k, d) - Cut(k - 1, d))
    ensures multiset(PhaseColumn(d))[Some(k)] == Cut(k, d) - Cut(k - 1, d)
  {
    var c := PhaseColumn(d);
    var lo, hi := Cut(k - 1, d), Cut(k, d);
    CutBounds(d, k);
    forall j | 0 <= j < d
      ensures c[j] == Some(k) <==> lo <= j < hi
    {
      PhaseOfIff(j, d, k);
    }
    var pre, mid, post := c[..lo], c[lo..hi], c[hi..];
    assert c == pre + mid + post;
    assert mid == Repeat(Some(k), hi - lo);
    ThreeWayCount(pre, mid, post, Some(k));
    CountRepeat(Some(k), hi - lo, Some(k));
  }

  /** Counting x in a concatenation whose outer parts do not hold x. */
  lemma ThreeWayCount<T>(pre: seq<T>, mid: seq<T>, post: seq<T>, x: T)
    requires x !in pre && x !in post
    ensures multiset(pre + mid + post)[x] == multiset(mid)[x]
  {
    assert multiset(pre + mid + post) == multiset(pre) + multiset(mid) + multiset(post);
    assert multiset(pre)[x] == 0 && multiset(post)[x] == 0;
  }

  lemma {:induction false} CountRepeat<T>(x: T, n: nat, y: T)
    ensures multiset(Repeat(x, n))[y] == if x == y then n else 0
  {
    if n > 0 {
      assert Repeat(x, n) == Repeat(x, n - 1) + [x];
      CountRepeat(x, n - 1, y);
    }
  }

  /** No sample of a trial is left without a phase (no NaN, no "unknown"). */
  lemma EveryPositionHasPhase(d: nat)
    ensures forall j :: 0 <= j < d ==>
      PhaseColumn(d)[j].Some? && 1 <= PhaseColumn(d)[j].value <= 5
  {
  }

  /**
   * The label column: `create_trial_label(int(d))`, or "unknown" where
   * the duration index is NaN (None).
   */
  function Labels(column: seq<Option<int>>): (labels: seq<string>)
    ensures |labels| == |column|
    ensures forall j :: 0 <= j < |column| ==>
      (labels[j] == Unknown <==> column[j].None? || !(1 <= column[j].value <= 5))
    ensures forall j :: 0 <= j < |column| && column[j].Some? && 1 <= column[j].value <= 5 ==>
      labels[j] == PhaseNames[column[j].value - 1]
  {
    seq(|column|, j requires 0 <= j < |column| =>
      match column[j]
      case None => Unknown
      case Some(k) => TrialLabel(k))
  }

  /** Labelling the phase column never produces "unknown". */
  lemma PhaseLabelsKnown(d: nat)
    ensures forall j :: 0 <= j < d ==>
      Labels(PhaseColumn(d))[j] == PhaseNames[PhaseOf(j, d) - 1] != Unknown
  {
  }

  /** `a[lo:hi] = v` on the duration index array (lo <= hi here). */
  method FillRange(a: array<Option<int>>, lo: nat, hi: nat, v: int)
    requires lo <= hi <= a.Length
    modifies a
    ensures forall i :: 0 <= i < a.Length ==> a[i] == if lo <= i < hi then Some(v) else old(a[i])
  {
    var i := lo;
    while i < hi
      invariant lo <= i <= hi
      invariant forall m :: 0 <= m < a.Length ==> a[m] == if lo <= m < i then Some(v) else old(a[m])
    {
      a[i] := Some(v);
      i := i + 1;
    }
  }

  /**
   * Builds the duration index of a trial of d samples: a NaN-filled array
   * whose five phase slices are assigned 1..5 in turn.
   */
  method DurationIndex(d: nat) returns (column: seq<Option<int>>)
    ensures |column| == d
    ensures forall j :: 0 <= j < d ==> column[j] == Some(PhaseOf(j, d))
  {
    var part1End, part2End, part3End, part4End := Cut(1, d), Cut(2, d), Cut(3, d), Cut(4, d);
    var part5End := d;
    CutsOrdered(d);
    var a := new Option<int>[d](_ => None);
    FillRange(a, 0, part1End, 1);
    FillRange(a, part1End, part2End, 2);
    FillRange(a, part2End, part3End, 3);
    FillRange(a, part3End, part4End, 4);
    FillRange(a, part4End, part5End, 5);
    column := a[..];
  }
}
