/**
 * The parts of the flat-file transform that both scripts share above the
 * trial loop: selecting behavioural rows, the `try` block of one run file
 * (load, downsample, trial loop), the task table and the rule that a task
 * file is written only when some trial frame was collected.
 */
module Runs {
  import opened Wrappers
  import opened Text
  import opened Signal
  import opened Trials
  import opened FileNames

  /** The two series of a run file: `S.output.sample` and `S.output.smp_timestamp`, flattened. */
  datatype RawRun = RawRun(sample: seq<Sample>, timestamp: seq<Sample>)

  /**
   * Reading a run file with `loadmat` and reaching into its struct. None
   * stands for any exception raised on the way (missing file, missing field).
   */
  type Loader = string -> Option<RawRun>

  /** A written flat file: its name and its rows, in order. */
  datatype OutputFile = OutputFile(name: string, rows: seq<Row>)

  // ---------------------------------------------------------------------
  // Selecting behavioural rows
  // ---------------------------------------------------------------------

  /** The boolean masks the scripts apply to the behavioural table. */
  datatype Criterion =
    | BySubject(sub: string)
    | ByTask(task: string)
    | ByRun(run: int)
    | BySessionRun(ses: int, run: int)

  predicate Matches(b: BehRow, c: Criterion)
  {
    match c
    case BySubject(sub) => b.sub == sub
    case ByTask(task) => b.task == task
    case ByRun(run) => b.run == run
    case BySessionRun(ses, run) => b.ses == ses && b.run == run
  }

  /** Masked selection: the matching rows, in table order. */
  function Where(rows: seq<BehRow>, c: Criterion): (r: seq<BehRow>)
    ensures |r| <= |rows|
  {
    if rows == [] then []
    else
      var last := rows[|rows| - 1];
      Where(rows[..|rows| - 1], c) + (if Matches(last, c) then [last] else [])
  }

  /** A row is selected exactly when it is in the table and matches. */
  lemma {:induction false} WhereIff(rows: seq<BehRow>, c: Criterion, b: BehRow)
    ensures b in Where(rows, c) <==> b in rows && Matches(b, c)
  {
    if rows != [] {
      var init := rows[..|rows| - 1];
      WhereIff(init, c, b);
      assert rows == init + [rows[|rows| - 1]];
    }
  }

  /** Selection keeps the table order: the result is an order-preserving subsequence. */
  lemma {:induction false} WhereAppend(rows: seq<BehRow>, more: seq<BehRow>, c: Criterion)
    ensures Where(rows + more, c) == Where(rows, c) + Where(more, c)
    decreases |more|
  {
    if more == [] {
      assert rows + more == rows;
    } else {
      var init := more[..|more| - 1];
      assert (rows + more)[..|rows + more| - 1] == rows + init;
      WhereAppend(rows, init, c);
    }
  }

  // ---------------------------------------------------------------------
  // One run file
  // ---------------------------------------------------------------------

  /**
   * What the `try` block of one run adds to the task's frames, for its
   * selected behavioural rows: nothing when loading or either
   * downsampling raises; otherwise the frames of the trial loop, including
   * those appended before a failure.
   */
  function RunFileFrames(trials: seq<BehRow>, raw: Option<RawRun>, decimate: Decimator,
                         runIndex: int, session: Option<int>): seq<seq<Row>>
    requires |trials| > 0
  {
    if raw.None? then []
    else
      var p := Downsample(raw.value.sample, OriginalRate, TargetRate, decimate);
      var t := Downsample(raw.value.timestamp, OriginalRate, TargetRate, decimate);
      if p.None? || t.None? then []
      else RunFrames(trials, p.value, t.value, SamplesPerTrial(|p.value|, |trials|), runIndex, session).frames
  }

  /** The `try` block: load, downsample both series, run the trial loop. */
  method ProcessRunFile(trials: seq<BehRow>, filePath: string, load: Loader, decimate: Decimator,
                        runIndex: int, session: Option<int>) returns (frames: seq<seq<Row>>)
    requires |trials| > 0
    ensures frames == RunFileFrames(trials, load(filePath), decimate, runIndex, session)
  {
    var mat := load(filePath);
    if mat.None? {
      return [];
    }
    var pupilDs := Downsample(mat.value.sample, OriginalRate, TargetRate, decimate);
    var timeDs := Downsample(mat.value.timestamp, OriginalRate, TargetRate, decimate);
    if pupilDs.None? || timeDs.None? {
      return [];
    }
    var aborted;
    frames, aborted := ProcessRun(trials, pupilDs.value, timeDs.value, runIndex, session);
  }

  /** Every row a run file contributes is faithful to the run's selected rows. */
  lemma RunFileRowsFaithful(trials: seq<BehRow>, raw: Option<RawRun>, decimate: Decimator,
                            runIndex: int, session: Option<int>)
    requires |trials| > 0
    ensures RowsOfRun(Flatten(RunFileFrames(trials, raw, decimate, runIndex, session)), trials, runIndex, session)
  {
    if raw.Some? {
      var p := Downsample(raw.value.sample, OriginalRate, TargetRate, decimate);
      var t := Downsample(raw.value.timestamp, OriginalRate, TargetRate, decimate);
      if p.Some? && t.Some? {
        RunRowsFaithful(trials, p.value, t.value, SamplesPerTrial(|p.value|, |trials|), runIndex, session);
      }
    }
  }

  // ---------------------------------------------------------------------
  // The task table and the output file
  // ---------------------------------------------------------------------

  /** The order of the `task_mappings` dictionary: auditory first, then visual. */
  const TaskOrder: seq<TaskCode> := [ADT, VDT]

  /** The task's name in output file names. */
  function TaskName(code: TaskCode): string
  {
    match code
    case ADT => "ADT"
    case VDT => "VDT"
  }

  /** The task's value in the behavioural table's `task` column. */
  function BehTask(code: TaskCode): string
  {
    match code
    case ADT => "aud"
    case VDT => "vis"
  }

  /** The task's spelling in run file names. */
  function FilePattern(code: TaskCode): (pattern: string)
    ensures MapTask(pattern) == Some(code)
  {
    match code
    case ADT => "Aoddball"
    case VDT => "Voddball"
  }

  /** `BAP{id}_{task}_DS{target}.csv`. */
  function OutputName(subjectId: string, code: TaskCode): string
  {
    "BAP" + subjectId + "_" + TaskName(code) + "_DS" + NatToDecimal(TargetRate) + ".csv"
  }

  /** Different tasks of one subject never write to the same file. */
  lemma OutputNamesDistinct(subjectId: string, c1: TaskCode, c2: TaskCode)
    ensures OutputName(subjectId, c1) == OutputName(subjectId, c2) <==> c1 == c2
  {
    var at := |"BAP" + subjectId + "_"|;
    if c1 != c2 {
      assert OutputName(subjectId, c1)[at] != OutputName(subjectId, c2)[at];
    }
  }

  /** The file a task writes: one, holding all collected rows, only when some frame was collected. */
  function Emit(subjectId: string, code: TaskCode, frames: seq<seq<Row>>): (out: seq<OutputFile>)
    ensures |out| <= 1
    ensures out != [] <==> frames != []
    ensures forall o :: o in out ==> o == OutputFile(OutputName(subjectId, code), Flatten(frames))
  {
    if frames == [] then [] else [OutputFile(OutputName(subjectId, code), Flatten(frames))]
  }

  /** In two lists of at most one file each, named apart, a name is found exactly where its list is nonempty. */
  lemma PairNamed(a: seq<OutputFile>, b: seq<OutputFile>, nameA: string, nameB: string)
    requires |a| <= 1 && |b| <= 1 && nameA != nameB
    requires forall o :: o in a ==> o.name == nameA
    requires forall o :: o in b ==> o.name == nameB
    ensures (exists o :: o in a + b && o.name == nameA) <==> a != []
    ensures (exists o :: o in a + b && o.name == nameB) <==> b != []
  {
    if a != [] {
      assert a[0] in a + b;
    }
    if b != [] {
      assert b[0] in a + b;
    }
  }
}
