/**
 * Splitting one run's downsampled series into trial slices and turning
 * each slice into flat rows: the trial loop shared by `process_subject`
 * and `process_and_downsample`.
 */
module Trials {
  import opened Wrappers
  import opened Signal
  import opened Phases

  /** The eleven behavioural columns that are copied into the rows untouched. */
  datatype Payload = Payload(
    mvc: Sample, stimLev: Sample, isOddball: Sample, isStrength: Sample, iscorr: Sample,
    resp1: Sample, resp1RT: Sample, resp2: Sample, resp2RT: Sample,
    aucRelMvc: Sample, resp1IsDiff: Sample)

  /** One row of the behavioural table, restricted to the sixteen selected columns. */
  datatype BehRow = BehRow(sub: string, ses: int, task: string, run: int, trial: int, payload: Payload)

  /**
   * One row of a flat file. `sessionIndex` is None for the batch script,
   * whose files have no session_index column; `durationIndex` None is NaN.
   */
  datatype Row = Row(
    pupil: Sample, time: Sample, trialIndex: int, runIndex: int, sessionIndex: Option<int>,
    durationIndex: Option<int>, trialLabel: string, beh: BehRow)

  /** How Python turns a slice bound into a position of a sequence of length n. */
  function PyIndex(i: int, n: nat): (r: nat)
    ensures r <= n
  {
    if i < 0 then (if i + n < 0 then 0 else i + n)
    else if i > n then n
    else i
  }

  /** `s[a:b]` with Python's rules for negative and out-of-range bounds. */
  function PySlice<T>(s: seq<T>, a: int, b: int): seq<T>
  {
    var i, j := PyIndex(a, |s|), PyIndex(b, |s|);
    if i < j then s[i..j] else []
  }

  /** In range, a Python slice is the plain subsequence. */
  lemma PySliceInRange<T>(s: seq<T>, a: int, b: int)
    requires 0 <= a <= b <= |s|
    ensures PySlice(s, a, b) == s[a..b]
  {
  }

  /** `len(pupil_size_ds) // total_trials`. */
  function SamplesPerTrial(n: nat, trials: nat): nat
    requires trials > 0
  {
    n / trials
  }

  /** `start_sample` of a trial. */
  function TrialStart(trial: int, spt: nat): int
  {
    (trial - 1) * spt
  }

  /** `end_sample` of a trial after the clamp to the series length n. */
  function TrialEnd(trial: int, spt: nat, n: nat): int
  {
    if trial * spt > n then n else trial * spt
  }

  /** What one behavioural row contributes to its run. */
  datatype TrialOutcome =
    | Skipped               // start at or past the end of the series: warning, no frame
    | Frame(rows: seq<Row>) // a (possibly empty) frame appended to the output
    | Failed                // the frame constructor rejected columns of unequal length

  /** The frame of one trial, given its marked pupil slice and its time slice. */
  function FrameRows(b: BehRow, pupil: seq<Sample>, time: seq<Sample>, runIndex: int, session: Option<int>): (rows: seq<Row>)
    requires |pupil| == |time|
    ensures |rows| == |pupil|
    ensures forall j :: 0 <= j < |rows| ==>
      var k := PhaseOf(j, |pupil|);
      rows[j] == Row(pupil[j], time[j], b.trial, runIndex, session, Some(k), PhaseNames[k - 1], b)
  {
    var column := PhaseColumn(|pupil|);
    var labels := Labels(column);
    seq(|pupil|, j requires 0 <= j < |pupil| =>
      Row(pupil[j], time[j], b.trial, runIndex, session, column[j], labels[j], b))
  }

  /** The outcome of one trial of a run (specification of ProcessTrial). */
  function TrialOutcomeOf(b: BehRow, pupil: seq<Sample>, time: seq<Sample>, spt: nat,
                          runIndex: int, session: Option<int>): TrialOutcome
  {
    var start := TrialStart(b.trial, spt);
    var end := TrialEnd(b.trial, spt, |pupil|);
    if start >= |pupil| then Skipped
    else
      var p := DropZeros(PySlice(pupil, start, end));
      var t := PySlice(time, start, end);
      if |p| != |t| then Failed else Frame(FrameRows(b, p, t, runIndex, session))
  }

  /** The body of the trial loop: bounds, clamp, skip, copy, dropouts, phases, frame. */
  method ProcessTrial(b: BehRow, pupil: seq<Sample>, time: seq<Sample>, spt: nat,
                      runIndex: int, session: Option<int>) returns (outcome: TrialOutcome)
    ensures outcome == TrialOutcomeOf(b, pupil, time, spt, runIndex, session)
  {
    var startSample := (b.trial - 1) * spt;
    var endSample := b.trial * spt;
    if endSample > |pupil| {
      endSample := |pupil|;
    }
    if startSample >= |pupil| {
      return Skipped;
    }
    var slice := PySlice(pupil, startSample, endSample);
    var trialPupil := new Sample[|slice|](i requires 0 <= i < |slice| => slice[i]);
    var trialTime := PySlice(time, startSample, endSample);
    MarkDropouts(trialPupil);
    var p := trialPupil[..];
    var duration := |p|;
    var durationIndex := DurationIndex(duration);
    var labels := Labels(durationIndex);
    if duration != |trialTime| {
      return Failed;
    }
    outcome := Frame(seq(duration, j requires 0 <= j < duration =>
      Row(p[j], trialTime[j], b.trial, runIndex, session, durationIndex[j], labels[j], b)));
  }

  /** The frames a run appends, and whether an error abandoned the rest of it. */
  datatype RunResult = RunResult(frames: seq<seq<Row>>, aborted: bool)

  /**
   * The trial loop over the run's behavioural rows, in table order:
   * skipped trials add nothing, a failure ends the run, frames appended
   * before the failure stay.
   */
  function RunFrames(trials: seq<BehRow>, pupil: seq<Sample>, time: seq<Sample>, spt: nat,
                     runIndex: int, session: Option<int>): RunResult
    decreases |trials|
  {
    if trials == [] then RunResult([], false)
    else
      var before := RunFrames(trials[..|trials| - 1], pupil, time, spt, runIndex, session);
      if before.aborted then before
      else match TrialOutcomeOf(trials[|trials| - 1], pupil, time, spt, runIndex, session)
        case Skipped => before
        case Frame(rows) => RunResult(before.frames + [rows], false)
        case Failed => RunResult(before.frames, true)
  }

  /** One step of the trial loop, in terms of the outcome of the next trial. */
  lemma RunFramesStep(trials: seq<BehRow>, i: nat, frames: seq<seq<Row>>, outcome: TrialOutcome,
                      pupil: seq<Sample>, time: seq<Sample>, spt: nat, runIndex: int, session: Option<int>)
    requires i < |trials|
    requires RunFrames(trials[..i], pupil, time, spt, runIndex, session) == RunResult(frames, false)
    requires outcome == TrialOutcomeOf(trials[i], pupil, time, spt, runIndex, session)
    ensures outcome.Skipped? ==> RunFrames(trials[..i + 1], pupil, time, spt, runIndex, session) == RunResult(frames, false)
    ensures outcome.Frame? ==>
      RunFrames(trials[..i + 1], pupil, time, spt, runIndex, session) == RunResult(frames + [outcome.rows], false)
    ensures outcome.Failed? ==> RunFrames(trials, pupil, time, spt, runIndex, session) == RunResult(frames, true)
  {
    assert trials[..i + 1][..i] == trials[..i];
    if outcome.Failed? {
      AbortPersists(trials, i + 1, pupil, time, spt, runIndex, session);
    }
  }

  /** Once a run is abandoned, later behavioural rows change nothing. */
  lemma {:induction false} AbortPersists(trials: seq<BehRow>, n: nat, pupil: seq<Sample>, time: seq<Sample>,
                                         spt: nat, runIndex: int, session: Option<int>)
    requires n <= |trials|
    requires RunFrames(trials[..n], pupil, time, spt, runIndex, session).aborted
    ensures RunFrames(trials, pupil, time, spt, runIndex, session) == RunFrames(trials[..n], pupil, time, spt, runIndex, session)
    decreases |trials|
  {
    if n < |trials| {
      var init := trials[..|trials| - 1];
      assert init[..n] == trials[..n];
      AbortPersists(init, n, pupil, time, spt, runIndex, session);
    } else {
      assert trials[..n] == trials;
    }
  }

  /**
   * The trial loop of one run. The caller has checked that the run has at
   * least one behavioural row, so the division by the trial count is safe.
   */
  method ProcessRun(trials: seq<BehRow>, pupil: seq<Sample>, time: seq<Sample>,
                    runIndex: int, session: Option<int>) returns (frames: seq<seq<Row>>, aborted: bool)
    requires |trials| > 0
    ensures RunResult(frames, aborted) == RunFrames(trials, pupil, time, SamplesPerTrial(|pupil|, |trials|), runIndex, session)
  {
    var totalTrials := |trials|;
    var samplesPerTrial := |pupil| / totalTrials;
    frames, aborted := [], false;
    var i := 0;
    while i < |trials|
      invariant 0 <= i <= |trials|
      invariant RunFrames(trials[..i], pupil, time, samplesPerTrial, runIndex, session) == RunResult(frames, false)
    {
      var outcome := ProcessTrial(trials[i], pupil, time, samplesPerTrial, runIndex, session);
      RunFramesStep(trials, i, frames, outcome, pupil, time, samplesPerTrial, runIndex, session);
      if outcome.Failed? {
        return frames, true;
      }
      if outcome.Frame? {
        frames := frames + [outcome.rows];
      }
      i := i + 1;
    }
    assert trials[..i] == trials;
  }

  /** All rows of a list of frames, in order (`pd.concat`). */
  function Flatten(frames: seq<seq<Row>>): (rows: seq<Row>)
    decreases |frames|
  {
    if frames == [] then [] else Flatten(frames[..|frames| - 1]) + frames[|frames| - 1]
  }

  lemma FlattenAppend(frames: seq<seq<Row>>, more: seq<seq<Row>>)
    ensures Flatten(frames + more) == Flatten(frames) + Flatten(more)
    decreases |more|
  {
    if more != [] {
      var last := more[|more| - 1];
      assert (frames + more)[..|frames + more| - 1] == frames + more[..|more| - 1];
      FlattenAppend(frames, more[..|more| - 1]);
    } else {
      assert frames + more == frames;
    }
  }

  function PupilColumn(rows: seq<Row>): (c: seq<Sample>)
    ensures |c| == |rows| && forall i :: 0 <= i < |rows| ==> c[i] == rows[i].pupil
  {
    seq(|rows|, i requires 0 <= i < |rows| => rows[i].pupil)
  }

  function TimeColumn(rows: seq<Row>): (c: seq<Sample>)
    ensures |c| == |rows| && forall i :: 0 <= i < |rows| ==> c[i] == rows[i].time
  {
    seq(|rows|, i requires 0 <= i < |rows| => rows[i].time)
  }

  // ---------------------------------------------------------------------
  // Properties of a single trial
  // ---------------------------------------------------------------------

  /**
   * A trial numbered t >= 1 that is not skipped is the slice
   * [(t-1)*spt, min(t*spt, L)) of the run, with zero pupil readings marked
   * missing and the time readings unchanged.
   */
  lemma TrialSlice(b: BehRow, pupil: seq<Sample>, time: seq<Sample>, spt: nat, runIndex: int, session: Option<int>)
    requires b.trial >= 1 && |time| == |pupil|
    requires TrialStart(b.trial, spt) < |pupil|
    ensures var start, end := TrialStart(b.trial, spt), TrialEnd(b.trial, spt, |pupil|);
      var o := TrialOutcomeOf(b, pupil, time, spt, runIndex, session);
      && 0 <= start <= end <= |pupil|
      && o.Frame? && |o.rows| == end - start
      && PupilColumn(o.rows) == DropZeros(pupil[start..end])
      && TimeColumn(o.rows) == time[start..end]
  {
    var start, end := TrialStart(b.trial, spt), TrialEnd(b.trial, spt, |pupil|);
    assert 0 <= start;
    assert start <= b.trial * spt;
    PySliceInRange(pupil, start, end);
    PySliceInRange(time, start, end);
  }

  /**
   * With trials numbered 1..T and spt = L div T, the end clamp only takes
   * effect for a trial number beyond T.
   */
  lemma ClampOnlyBeyondCount(t: int, n: nat, count: nat)
    requires count > 0 && t >= 1
    requires t * SamplesPerTrial(n, count) > n
    ensures t > count
  {
    var spt := SamplesPerTrial(n, count);
    if t <= count {
      MulMonotone(t, count, spt);
    }
  }

  /** A trial numbered 1..T is skipped exactly when the run has no samples. */
  lemma SkippedOnlyWhenEmpty(t: int, n: nat, count: nat)
    requires count > 0 && 1 <= t <= count
    ensures TrialStart(t, SamplesPerTrial(n, count)) >= n <==> n == 0
  {
    var spt := SamplesPerTrial(n, count);
    MulMonotone(t - 1, count, spt);
    if spt > 0 {
      MulMonotone(t - 1, count - 1, spt);
      assert (count - 1) * spt + spt == count * spt;
    }
  }

  /** Consecutive trials meet: trial t ends where trial t+1 starts (t < T). */
  lemma TrialsContiguous(t: int, n: nat, count: nat)
    requires count > 0 && 1 <= t < count
    ensures TrialEnd(t, SamplesPerTrial(n, count), n) == TrialStart(t + 1, SamplesPerTrial(n, count))
  {
    MulMonotone(t, count, SamplesPerTrial(n, count));
  }

  lemma {:induction false} MulMonotone(a: int, b: int, c: nat)
    requires 0 <= a <= b
    ensures a * c <= b * c
    decreases b - a
  {
    if a < b {
      MulMonotone(a, b - 1, c);
      assert (b - 1) * c + c == b * c;
    }
  }

  /** The worked example: L = 300, T = 3; trial 2 is [100, 200), its squeeze phase [140, 160). */
  lemma ExampleTrialTwoOfThree(b: BehRow, pupil: seq<Sample>, time: seq<Sample>, runIndex: int, session: Option<int>)
    requires b.trial == 2 && |pupil| == 300 && |time| == 300
    ensures var o := TrialOutcomeOf(b, pupil, time, SamplesPerTrial(300, 3), runIndex, session);
      && o.Frame? && |o.rows| == 100
      && (forall j :: 0 <= j < 100 ==> o.rows[j].pupil == DropZero(pupil[100 + j]))
      && (forall j :: 0 <= j < 100 ==> (o.rows[j].trialLabel == "squeeze" <==> 140 <= 100 + j < 160))
  {
    TrialSlice(b, pupil, time, 100, runIndex, session);
    var o := TrialOutcomeOf(b, pupil, time, 100, runIndex, session);
    forall j | 0 <= j < 100
      ensures o.rows[j].trialLabel == "squeeze" <==> 140 <= 100 + j < 160
    {
      PhaseOfIff(j, 100, 3);
      if o.rows[j].trialLabel == "squeeze" {
        assert TrialLabel(PhaseOf(j, 100)) == TrialLabel(3);
        TrialLabelInjective(PhaseOf(j, 100), 3);
      }
    }
  }

  // ---------------------------------------------------------------------
  // Properties of a whole run
  // ---------------------------------------------------------------------

  /** What every emitted row of a run carries. */
  ghost predicate RowOfRun(r: Row, trials: seq<BehRow>, runIndex: int, session: Option<int>)
  {
    && r.beh in trials
    && r.runIndex == runIndex
    && r.sessionIndex == session
    && WellLabelled(r)
  }

  /**
   * The trial number of the row's behavioural record, a phase in 1..5 with
   * its name (never "unknown"), and no zero pupil reading.
   */
  predicate WellLabelled(r: Row)
  {
    && r.trialIndex == r.beh.trial
    && r.durationIndex.Some? && 1 <= r.durationIndex.value <= 5
    && r.trialLabel == PhaseNames[r.durationIndex.value - 1]
    && r.pupil != Value(0.0)
  }

  ghost predicate RowsOfRun(rows: seq<Row>, trials: seq<BehRow>, runIndex: int, session: Option<int>)
  {
    forall i :: 0 <= i < |rows| ==> RowOfRun(rows[i], trials, runIndex, session)
  }

  /** The frame of one of the run's trials holds rows of the run only. */
  lemma TrialRowsOfRun(b: BehRow, trials: seq<BehRow>, pupil: seq<Sample>, time: seq<Sample>, spt: nat,
                       runIndex: int, session: Option<int>)
    requires b in trials
    requires TrialOutcomeOf(b, pupil, time, spt, runIndex, session).Frame?
    ensures RowsOfRun(TrialOutcomeOf(b, pupil, time, spt, runIndex, session).rows, trials, runIndex, session)
  {
    var o := TrialOutcomeOf(b, pupil, time, spt, runIndex, session);
    var p := DropZeros(PySlice(pupil, TrialStart(b.trial, spt), TrialEnd(b.trial, spt, |pupil|)));
    NoZeroAfterDropout(PySlice(pupil, TrialStart(b.trial, spt), TrialEnd(b.trial, spt, |pupil|)));
    forall i | 0 <= i < |o.rows|
      ensures RowOfRun(o.rows[i], trials, runIndex, session)
    {
      assert o.rows[i].pupil == p[i];
      assert p[i] in p;
    }
  }

  /**
   * Every row a run emits belongs to one of its behavioural rows, carries
   * that row's fields and trial number verbatim, the run's indices, a phase
   * in 1..5 with its name (never "unknown"), and no zero pupil reading.
   */
  lemma {:induction false} RunRowsFaithful(trials: seq<BehRow>, pupil: seq<Sample>, time: seq<Sample>, spt: nat,
                                           runIndex: int, session: Option<int>)
    ensures RowsOfRun(Flatten(RunFrames(trials, pupil, time, spt, runIndex, session).frames), trials, runIndex, session)
    decreases |trials|
  {
    if trials != [] {
      var init := trials[..|trials| - 1];
      var b := trials[|trials| - 1];
      var before := RunFrames(init, pupil, time, spt, runIndex, session);
      RunRowsFaithful(init, pupil, time, spt, runIndex, session);
      assert forall x :: x in init ==> x in trials;
      if !before.aborted {
        var o := TrialOutcomeOf(b, pupil, time, spt, runIndex, session);
        if o.Frame? {
          TrialRowsOfRun(b, trials, pupil, time, spt, runIndex, session);
          var frames := before.frames + [o.rows];
          assert frames[..|frames| - 1] == before.frames;
        }
      }
    }
  }

  /** Trials numbered 1, 2, ..., T in table order: the layout the scripts assume. */
  predicate NumberedInOrder(trials: seq<BehRow>)
  {
    forall i :: 0 <= i < |trials| ==> trials[i].trial == i + 1
  }

  /**
   * For a run whose behavioural rows are numbered 1..T in order and whose
   * two series have equal length L, the frames are the consecutive slices
   * of width L div T: together they are exactly the first T * (L div T)
   * samples, dropout-marked, and the trailing L mod T samples belong to
   * no trial.
   */
  lemma RunCoverage(trials: seq<BehRow>, pupil: seq<Sample>, time: seq<Sample>, runIndex: int, session: Option<int>)
    requires |trials| > 0 && NumberedInOrder(trials) && |time| == |pupil|
    ensures var spt := SamplesPerTrial(|pupil|, |trials|);
      var r := RunFrames(trials, pupil, time, spt, runIndex, session);
      && |trials| * spt == |pupil| - |pupil| % |trials|
      && !r.aborted
      && PupilColumn(Flatten(r.frames)) == DropZeros(pupil[..|pupil| - |pupil| % |trials|])
      && TimeColumn(Flatten(r.frames)) == time[..|pupil| - |pupil| % |trials|]
  {
    var spt := SamplesPerTrial(|pupil|, |trials|);
    assert |trials| * spt == |pupil| - |pupil| % |trials|;
    CoveragePrefix(trials, |trials|, |trials| * spt, pupil, time, spt, runIndex, session);
    assert trials[..|trials|] == trials;
  }

  lemma {:induction false} CoveragePrefix(trials: seq<BehRow>, n: nat, end: nat, pupil: seq<Sample>, time: seq<Sample>,
                                          spt: nat, runIndex: int, session: Option<int>)
    requires NumberedInOrder(trials) && n <= |trials| && |time| == |pupil|
    requires end == n * spt && end <= |pupil|
    ensures var r := RunFrames(trials[..n], pupil, time, spt, runIndex, session);
      && !r.aborted
      && PupilColumn(Flatten(r.frames)) == DropZeros(pupil[..end])
      && TimeColumn(Flatten(r.frames)) == time[..end]
    decreases n
  {
    if n > 0 {
      var start := (n - 1) * spt;
      assert start + spt == end;
      CoveragePrefix(trials, n - 1, start, pupil, time, spt, runIndex, session);
      CoverageStep(trials, n, start, end, pupil, time, spt, runIndex, session);
    }
  }

  /** Trial n extends the covered prefix from (n-1)*spt to n*spt. */
  lemma CoverageStep(trials: seq<BehRow>, n: nat, start: nat, end: nat, pupil: seq<Sample>, time: seq<Sample>,
                     spt: nat, runIndex: int, session: Option<int>)
    requires NumberedInOrder(trials) && 1 <= n <= |trials| && |time| == |pupil|
    requires start == (n - 1) * spt && end == n * spt && start + spt == end && end <= |pupil|
    requires var r := RunFrames(trials[..n - 1], pupil, time, spt, runIndex, session);
      && !r.aborted
      && PupilColumn(Flatten(r.frames)) == DropZeros(pupil[..start])
      && TimeColumn(Flatten(r.frames)) == time[..start]
    ensures var r := RunFrames(trials[..n], pupil, time, spt, runIndex, session);
      && !r.aborted
      && PupilColumn(Flatten(r.frames)) == DropZeros(pupil[..end])
      && TimeColumn(Flatten(r.frames)) == time[..end]
  {
    var before := RunFrames(trials[..n - 1], pupil, time, spt, runIndex, session);
    var b := trials[n - 1];
    assert b.trial == n;
    assert TrialStart(b.trial, spt) == start && TrialEnd(b.trial, spt, |pupil|) == end;
    var o := TrialOutcomeOf(b, pupil, time, spt, runIndex, session);
    RunFramesStep(trials, n - 1, before.frames, o, pupil, time, spt, runIndex, session);
    if start >= |pupil| {
      assert end == start;
    } else {
      TrialSlice(b, pupil, time, spt, runIndex, session);
      AppendFrame(before.frames, o.rows, pupil[..start], pupil[start..end], time[..start], time[start..end]);
      SplitAt(pupil, start, end);
      SplitAt(time, start, end);
    }
  }

  lemma SplitAt<T>(s: seq<T>, i: nat, j: nat)
    requires i <= j <= |s|
    ensures s[..j] == s[..i] + s[i..j]
  {
  }

  /** Appending a frame extends the pupil and time columns by the frame's own. */
  lemma AppendFrame(frames: seq<seq<Row>>, rows: seq<Row>, p0: seq<Sample>, p1: seq<Sample>, t0: seq<Sample>, t1: seq<Sample>)
    requires PupilColumn(Flatten(frames)) == DropZeros(p0) && TimeColumn(Flatten(frames)) == t0
    requires PupilColumn(rows) == DropZeros(p1) && TimeColumn(rows) == t1
    ensures PupilColumn(Flatten(frames + [rows])) == DropZeros(p0 + p1)
    ensures TimeColumn(Flatten(frames + [rows])) == t0 + t1
  {
    assert (frames + [rows])[..|frames|] == frames;
    var all := Flatten(frames);
    assert Flatten(frames + [rows]) == all + rows;
    assert PupilColumn(all + rows) == PupilColumn(all) + PupilColumn(rows);
    assert TimeColumn(all + rows) == TimeColumn(all) + TimeColumn(rows);
    DropZerosAppend(p0, p1);
  }
}
