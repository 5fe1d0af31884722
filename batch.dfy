/**
 * `process_and_downsample` of the batch script: one fixed subject, the run
 * files of each task found by a file-name pattern, numbered 1, 2, ... in
 * sorted path order, and behavioural rows selected by that number alone.
 * Its rows have no session index.
 */
module Batch {
  import opened Wrappers
  import opened Signal
  import opened Trials
  import opened Sorting
  import opened FileNames
  import opened Runs

  /** The subject the script is written for, as it appears after "BAP". */
  const SubjectId: string := "178"

  /** File discovery by pattern (`glob`): the matching paths, in whatever order it yields. */
  type Glob = string -> seq<string>

  /** The pattern of a task's run files. */
  function GlobPattern(code: TaskCode): string
  {
    "subjectBAP" + SubjectId + "_" + FilePattern(code) + "_session*_run*_eyetrack_cleaned.mat"
  }

  /** `sorted(files)` on bare paths: the key is the path itself. */
  function PathKey(path: string): SortKey
  {
    SortKey(path, "")
  }

  /** What the run file numbered `runIdx` adds: nothing without behavioural rows of that run. */
  function RunContribution(runIdx: int, filePath: string, taskRows: seq<BehRow>, load: Loader,
                           decimate: Decimator): seq<seq<Row>>
  {
    var rows := Where(taskRows, ByRun(runIdx));
    if rows == [] then [] else RunFileFrames(rows, load(filePath), decimate, runIdx, None)
  }

  /** The frames `all_data` holds after the files `paths`, numbered from 1 in order. */
  function TaskFrames(paths: seq<string>, taskRows: seq<BehRow>, load: Loader, decimate: Decimator): seq<seq<Row>>
  {
    if paths == [] then []
    else
      var n := |paths| - 1;
      TaskFrames(paths[..n], taskRows, load, decimate) + RunContribution(n + 1, paths[n], taskRows, load, decimate)
  }

  /** The run loop of one task: `enumerate(..., 1)` over the paths in the order given. */
  method ProcessTask(paths: seq<string>, taskRows: seq<BehRow>, load: Loader, decimate: Decimator)
    returns (allData: seq<seq<Row>>)
    ensures allData == TaskFrames(paths, taskRows, load, decimate)
  {
    allData := [];
    var i := 0;
    while i < |paths|
      invariant 0 <= i <= |paths|
      invariant allData == TaskFrames(paths[..i], taskRows, load, decimate)
    {
      var runIdx := i + 1;
      var filePath := paths[i];
      var runBehData := Where(taskRows, ByRun(runIdx));
      assert paths[..i + 1][..i] == paths[..i];
      if |runBehData| > 0 {
        var frames := ProcessRunFile(runBehData, filePath, load, decimate, runIdx, None);
        allData := allData + frames;
      }
      i := i + 1;
    }
    assert paths[..i] == paths;
  }

  /** The file one task writes, if any: its paths found by pattern, visited in sorted order. */
  function TaskOutput(code: TaskCode, paths: seq<string>, subjectRows: seq<BehRow>, load: Loader,
                      decimate: Decimator): seq<OutputFile>
  {
    if paths == [] then []
    else Emit(SubjectId, code, TaskFrames(SortBy(paths, PathKey), Where(subjectRows, ByTask(BehTask(code))), load, decimate))
  }

  /** The files written for the first `n` tasks of the task table. */
  function TaskOutputs(n: nat, glob: Glob, subjectRows: seq<BehRow>, load: Loader, decimate: Decimator): seq<OutputFile>
    requires n <= |TaskOrder|
  {
    if n == 0 then []
    else
      var code := TaskOrder[n - 1];
      TaskOutputs(n - 1, glob, subjectRows, load, decimate) + TaskOutput(code, glob(GlobPattern(code)), subjectRows, load, decimate)
  }

  /** The files `process_and_downsample` writes, for the behavioural table `beh`. */
  function BatchOutputs(beh: seq<BehRow>, glob: Glob, load: Loader, decimate: Decimator): seq<OutputFile>
  {
    TaskOutputs(|TaskOrder|, glob, Where(beh, BySubject("BAP" + SubjectId)), load, decimate)
  }

  /** `process_and_downsample`. */
  method ProcessAndDownsample(beh: seq<BehRow>, glob: Glob, load: Loader, decimate: Decimator)
    returns (outputs: seq<OutputFile>)
    ensures outputs == BatchOutputs(beh, glob, load, decimate)
  {
    var subjectBehData := Where(beh, BySubject("BAP" + SubjectId));
    outputs := [];
    for t := 0 to |TaskOrder|
      invariant outputs == TaskOutputs(t, glob, subjectBehData, load, decimate)
    {
      var code := TaskOrder[t];
      var taskBehData := Where(subjectBehData, ByTask(BehTask(code)));
      var files := glob(GlobPattern(code));
      if files == [] {
        continue;
      }
      var allData := ProcessTask(SortBy(files, PathKey), taskBehData, load, decimate);
      if allData != [] {
        outputs := outputs + [OutputFile(OutputName(SubjectId, code), Flatten(allData))];
      }
    }
  }

  // ---------------------------------------------------------------------
  // Properties
  // ---------------------------------------------------------------------

  /**
   * Paths are visited in ascending string order, none is lost or
   * repeated, and equal paths keep their order.
   */
  lemma VisitOrder(paths: seq<string>)
    ensures SortedBy(SortBy(paths, PathKey), PathKey)
    ensures multiset(SortBy(paths, PathKey)) == multiset(paths)
    ensures forall k :: WithKey(SortBy(paths, PathKey), PathKey, k) == WithKey(paths, PathKey, k)
  {
    SortBySorted(paths, PathKey);
    forall k {
      SortByStable(paths, PathKey, k);
    }
  }

  /**
   * Rows of a task's frames come from the task's rows; the run index is
   * the record's own `run`, within the `runCount` files; there is no
   * session index.
   */
  ghost predicate TaskRow(r: Row, taskRows: seq<BehRow>, runCount: nat)
  {
    && r.beh in taskRows
    && r.runIndex == r.beh.run
    && 1 <= r.runIndex <= runCount
    && r.sessionIndex == None
    && WellLabelled(r)
  }

  /**
   * The row was produced by the file at 1-based position `r.runIndex` of
   * `paths`: it is among that file's frames, read with that number.
   */
  ghost predicate FromFileAtIndex(r: Row, paths: seq<string>, taskRows: seq<BehRow>, load: Loader, decimate: Decimator)
  {
    exists k :: 0 <= k < |paths| && r.runIndex == k + 1
      && r in Flatten(RunContribution(k + 1, paths[k], taskRows, load, decimate))
  }

  lemma {:induction false} TaskFramesFaithful(paths: seq<string>, taskRows: seq<BehRow>, load: Loader, decimate: Decimator)
    ensures forall r :: r in Flatten(TaskFrames(paths, taskRows, load, decimate)) ==>
      TaskRow(r, taskRows, |paths|) && FromFileAtIndex(r, paths, taskRows, load, decimate)
  {
    if paths != [] {
      var n := |paths| - 1;
      var before := TaskFrames(paths[..n], taskRows, load, decimate);
      var added := RunContribution(n + 1, paths[n], taskRows, load, decimate);
      TaskFramesFaithful(paths[..n], taskRows, load, decimate);
      FlattenAppend(before, added);
      forall r | r in Flatten(before)
        ensures FromFileAtIndex(r, paths, taskRows, load, decimate)
      {
        var k :| 0 <= k < n && r.runIndex == k + 1
          && r in Flatten(RunContribution(k + 1, paths[..n][k], taskRows, load, decimate));
        assert paths[..n][k] == paths[k];
      }
      var rows := Where(taskRows, ByRun(n + 1));
      if rows != [] {
        RunFileRowsFaithful(rows, load(paths[n]), decimate, n + 1, None);
        forall r | r in Flatten(added)
          ensures TaskRow(r, taskRows, |paths|) && FromFileAtIndex(r, paths, taskRows, load, decimate)
        {
          var i :| 0 <= i < |Flatten(added)| && Flatten(added)[i] == r;
          assert RowOfRun(r, rows, n + 1, None);
          WhereIff(taskRows, ByRun(n + 1), r.beh);
        }
      }
    }
  }

  /**
   * What every row of a batch output carries: a behavioural record of
   * BAP178 and the task, run index equal to the record's `run` and within
   * the number of the task's files, and no session index.
   */
  ghost predicate BatchRow(r: Row, beh: seq<BehRow>, code: TaskCode, runCount: nat)
  {
    && r.beh in beh
    && r.beh.sub == "BAP" + SubjectId
    && r.beh.task == BehTask(code)
    && r.runIndex == r.beh.run
    && 1 <= r.runIndex <= runCount
    && r.sessionIndex == None
    && WellLabelled(r)
  }

  /**
   * A task writes at most one file, named for BAP178 and the task, exactly
   * when it has run files and they yield some frame; its rows are faithful.
   */
  lemma TaskOutputSound(code: TaskCode, paths: seq<string>, subjectRows: seq<BehRow>, load: Loader, decimate: Decimator)
    ensures var out := TaskOutput(code, paths, subjectRows, load, decimate);
      && |out| <= 1
      && (out != [] <==>
            (paths != [] &&
             TaskFrames(SortBy(paths, PathKey), Where(subjectRows, ByTask(BehTask(code))), load, decimate) != []))
      && (forall o :: o in out ==> o.name == OutputName(SubjectId, code))
      && forall o, r :: o in out && r in o.rows ==>
           TaskRow(r, subjectRows, |paths|) && r.beh.task == BehTask(code)
  {
    if paths != [] {
      var taskRows := Where(subjectRows, ByTask(BehTask(code)));
      TaskFramesFaithful(SortBy(paths, PathKey), taskRows, load, decimate);
      forall r | TaskRow(r, taskRows, |paths|)
        ensures TaskRow(r, subjectRows, |paths|) && r.beh.task == BehTask(code)
      {
        WhereIff(subjectRows, ByTask(BehTask(code)), r.beh);
      }
    }
  }

  /**
   * Each row of a task's file was produced by the file whose 1-based
   * position in sorted path order is the row's run index.
   */
  lemma TaskOutputPlaced(code: TaskCode, paths: seq<string>, subjectRows: seq<BehRow>, load: Loader, decimate: Decimator)
    ensures forall o, r :: o in TaskOutput(code, paths, subjectRows, load, decimate) && r in o.rows ==>
      FromFileAtIndex(r, SortBy(paths, PathKey), Where(subjectRows, ByTask(BehTask(code))), load, decimate)
  {
    if paths != [] {
      TaskFramesFaithful(SortBy(paths, PathKey), Where(subjectRows, ByTask(BehTask(code))), load, decimate);
    }
  }

  /** A task writes at most one file, and only under its own name. */
  lemma TaskOutputNamed(code: TaskCode, paths: seq<string>, subjectRows: seq<BehRow>, load: Loader, decimate: Decimator)
    ensures var out := TaskOutput(code, paths, subjectRows, load, decimate);
      |out| <= 1 && forall o :: o in out ==> o.name == OutputName(SubjectId, code)
  {
  }

  /** The script's files are the auditory task's file, if any, then the visual task's. */
  lemma BatchOutputsSplit(beh: seq<BehRow>, glob: Glob, load: Loader, decimate: Decimator)
    ensures var subjectRows := Where(beh, BySubject("BAP" + SubjectId));
      BatchOutputs(beh, glob, load, decimate) ==
        TaskOutput(ADT, glob(GlobPattern(ADT)), subjectRows, load, decimate)
          + TaskOutput(VDT, glob(GlobPattern(VDT)), subjectRows, load, decimate)
  {
    var subjectRows := Where(beh, BySubject("BAP" + SubjectId));
    assert TaskOutputs(1, glob, subjectRows, load, decimate)
        == TaskOutput(ADT, glob(GlobPattern(ADT)), subjectRows, load, decimate);
  }

  /**
   * A row of a batch output for the task: faithful to BAP178's records of
   * the task, and produced by the file whose 1-based position in sorted
   * path order is its run index.
   */
  ghost predicate PlacedBatchRow(r: Row, beh: seq<BehRow>, glob: Glob, load: Loader, decimate: Decimator, code: TaskCode)
  {
    && BatchRow(r, beh, code, |glob(GlobPattern(code))|)
    && FromFileAtIndex(r, SortBy(glob(GlobPattern(code)), PathKey),
                       Where(Where(beh, BySubject("BAP" + SubjectId)), ByTask(BehTask(code))), load, decimate)
  }

  /**
   * Every file the script writes is named for BAP178 and one of the two
   * tasks, and each of its rows is a faithful row of BAP178 and that task,
   * produced by the file at its run index.
   */
  lemma BatchOutputsFaithful(beh: seq<BehRow>, glob: Glob, load: Loader, decimate: Decimator, code: TaskCode)
    ensures var outs := BatchOutputs(beh, glob, load, decimate);
      && |outs| <= |TaskOrder|
      && (forall o :: o in outs ==> o.name == OutputName(SubjectId, ADT) || o.name == OutputName(SubjectId, VDT))
      && forall o, r :: o in outs && o.name == OutputName(SubjectId, code) && r in o.rows ==>
           PlacedBatchRow(r, beh, glob, load, decimate, code)
  {
    BatchOutputsNamed(beh, glob, load, decimate);
    forall o, r | o in BatchOutputs(beh, glob, load, decimate) && o.name == OutputName(SubjectId, code) && r in o.rows
      ensures PlacedBatchRow(r, beh, glob, load, decimate, code)
    {
      BatchRowOf(beh, glob, load, decimate, code, o, r);
    }
  }

  /** At most one file per task, each named for BAP178 and its task. */
  lemma BatchOutputsNamed(beh: seq<BehRow>, glob: Glob, load: Loader, decimate: Decimator)
    ensures var outs := BatchOutputs(beh, glob, load, decimate);
      && |outs| <= |TaskOrder|
      && forall o :: o in outs ==> o.name == OutputName(SubjectId, ADT) || o.name == OutputName(SubjectId, VDT)
  {
    BatchOutputsSplit(beh, glob, load, decimate);
    var subjectRows := Where(beh, BySubject("BAP" + SubjectId));
    TaskOutputNamed(ADT, glob(GlobPattern(ADT)), subjectRows, load, decimate);
    TaskOutputNamed(VDT, glob(GlobPattern(VDT)), subjectRows, load, decimate);
  }

  /** One row of a task's file is a placed row of BAP178 and the task. */
  lemma BatchRowOf(beh: seq<BehRow>, glob: Glob, load: Loader, decimate: Decimator, code: TaskCode, o: OutputFile, r: Row)
    requires o in BatchOutputs(beh, glob, load, decimate) && o.name == OutputName(SubjectId, code) && r in o.rows
    ensures PlacedBatchRow(r, beh, glob, load, decimate, code)
  {
    var subjectRows := Where(beh, BySubject("BAP" + SubjectId));
    OwnFile(beh, glob, load, decimate, code, o);
    TaskOutputSound(code, glob(GlobPattern(code)), subjectRows, load, decimate);
    TaskOutputPlaced(code, glob(GlobPattern(code)), subjectRows, load, decimate);
    WhereIff(beh, BySubject("BAP" + SubjectId), r.beh);
  }

  /** A file written under a task's name is that task's file. */
  lemma OwnFile(beh: seq<BehRow>, glob: Glob, load: Loader, decimate: Decimator, code: TaskCode, o: OutputFile)
    requires o in BatchOutputs(beh, glob, load, decimate) && o.name == OutputName(SubjectId, code)
    ensures o in TaskOutput(code, glob(GlobPattern(code)), Where(beh, BySubject("BAP" + SubjectId)), load, decimate)
  {
    BatchOutputsSplit(beh, glob, load, decimate);
    var subjectRows := Where(beh, BySubject("BAP" + SubjectId));
    TaskOutputNamed(ADT, glob(GlobPattern(ADT)), subjectRows, load, decimate);
    TaskOutputNamed(VDT, glob(GlobPattern(VDT)), subjectRows, load, decimate);
    OutputNamesDistinct(SubjectId, ADT, VDT);
  }

  /**
   * The script writes a task's file exactly when the pattern finds files
   * of the task and visiting them in sorted order collects some frame.
   * Unlike `process_subject`, nothing is checked about BAP178 having
   * behavioural rows at all beforehand.
   */
  lemma BatchOutputIff(beh: seq<BehRow>, glob: Glob, load: Loader, decimate: Decimator, code: TaskCode)
    ensures var outs := BatchOutputs(beh, glob, load, decimate);
      var paths := glob(GlobPattern(code));
      (exists o :: o in outs && o.name == OutputName(SubjectId, code)) <==>
        && paths != []
        && TaskFrames(SortBy(paths, PathKey),
                      Where(Where(beh, BySubject("BAP" + SubjectId)), ByTask(BehTask(code))),
                      load, decimate) != []
  {
    BatchOutputsSplit(beh, glob, load, decimate);
    var subjectRows := Where(beh, BySubject("BAP" + SubjectId));
    var adtOut := TaskOutput(ADT, glob(GlobPattern(ADT)), subjectRows, load, decimate);
    var vdtOut := TaskOutput(VDT, glob(GlobPattern(VDT)), subjectRows, load, decimate);
    TaskOutputSound(ADT, glob(GlobPattern(ADT)), subjectRows, load, decimate);
    TaskOutputSound(VDT, glob(GlobPattern(VDT)), subjectRows, load, decimate);
    OutputNamesDistinct(SubjectId, ADT, VDT);
    PairNamed(adtOut, vdtOut, OutputName(SubjectId, ADT), OutputName(SubjectId, VDT));
  }
}
