/**
 * `process_subject` of the interactive script: for one detected subject,
 * each task's run files in (session, run) order, the behavioural rows of
 * the same session and run, and one flat file per task that produced frames.
 */
module Interactive {
  import opened Wrappers
  import opened Text
  import opened Signal
  import opened Trials
  import opened Sorting
  import opened FileNames
  import opened Runs

  /** The `sorted` key of a run file: (session, run), compared as strings. */
  function RunKey(info: FileInfo): SortKey
  {
    SortKey(info.session, info.run)
  }

  /** The run files of one task, as `subjects[subject_id][task_name]` holds them. */
  function FilesOf(files: TaskFiles, code: TaskCode): seq<FileInfo>
  {
    match code
    case ADT => files.adt
    case VDT => files.vdt
  }

  predicate AllWellFormed(files: seq<FileInfo>)
  {
    forall i :: 0 <= i < |files| ==> WellFormedInfo(files[i])
  }

  /** The task's behavioural rows of the file's session and run (`int(session)`, `int(run)`). */
  function RunRows(info: FileInfo, taskRows: seq<BehRow>): seq<BehRow>
    requires WellFormedInfo(info)
  {
    Where(taskRows, BySessionRun(DigitsValue(info.session), DigitsValue(info.run)))
  }

  /** What one run file adds: nothing when it has no behavioural rows, else its `try` block's frames. */
  function RunContribution(info: FileInfo, taskRows: seq<BehRow>, load: Loader, decimate: Decimator): seq<seq<Row>>
    requires WellFormedInfo(info)
  {
    var rows := RunRows(info, taskRows);
    if rows == [] then []
    else RunFileFrames(rows, load(info.filePath), decimate, DigitsValue(info.run), Some(DigitsValue(info.session)))
  }

  /** The frames `all_data` holds after visiting `files` in the given order. */
  function TaskFrames(files: seq<FileInfo>, taskRows: seq<BehRow>, load: Loader, decimate: Decimator): seq<seq<Row>>
    requires AllWellFormed(files)
  {
    if files == [] then []
    else
      var n := |files| - 1;
      TaskFrames(files[..n], taskRows, load, decimate) + RunContribution(files[n], taskRows, load, decimate)
  }

  /** The run loop of one task, over its files in the order given. */
  method ProcessTask(files: seq<FileInfo>, taskRows: seq<BehRow>, load: Loader, decimate: Decimator)
    returns (allData: seq<seq<Row>>)
    requires AllWellFormed(files)
    ensures allData == TaskFrames(files, taskRows, load, decimate)
  {
    allData := [];
    var i := 0;
    while i < |files|
      invariant 0 <= i <= |files|
      invariant allData == TaskFrames(files[..i], taskRows, load, decimate)
    {
      var info := files[i];
      var session := DigitsValue(info.session);
      var run := DigitsValue(info.run);
      var runBehData := Where(taskRows, BySessionRun(session, run));
      assert files[..i + 1][..i] == files[..i];
      if |runBehData| > 0 {
        var frames := ProcessRunFile(runBehData, info.filePath, load, decimate, run, Some(session));
        allData := allData + frames;
      }
      i := i + 1;
    }
    assert files[..i] == files;
  }

  /** Sorting keeps the files, so it keeps them well formed. */
  lemma SortedWellFormed(files: seq<FileInfo>)
    requires AllWellFormed(files)
    ensures AllWellFormed(SortBy(files, RunKey))
  {
    var sorted := SortBy(files, RunKey);
    forall i | 0 <= i < |sorted|
      ensures WellFormedInfo(sorted[i])
    {
      assert sorted[i] in multiset(sorted);
      var j :| 0 <= j < |files| && files[j] == sorted[i];
    }
  }

  /** The file one task writes, if any: its runs in (session, run) order. */
  function TaskOutput(subjectId: string, code: TaskCode, files: seq<FileInfo>, subjectRows: seq<BehRow>,
                      load: Loader, decimate: Decimator): seq<OutputFile>
    requires AllWellFormed(files)
  {
    if files == [] then []
    else
      SortedWellFormed(files);
      Emit(subjectId, code, TaskFrames(SortBy(files, RunKey), Where(subjectRows, ByTask(BehTask(code))), load, decimate))
  }

  /** The files written for the first `n` tasks of the task table. */
  function TaskOutputs(subjectId: string, n: nat, files: TaskFiles, subjectRows: seq<BehRow>,
                       load: Loader, decimate: Decimator): seq<OutputFile>
    requires n <= |TaskOrder|
    requires AllWellFormed(files.adt) && AllWellFormed(files.vdt)
  {
    if n == 0 then []
    else
      TaskOutputs(subjectId, n - 1, files, subjectRows, load, decimate)
        + TaskOutput(subjectId, TaskOrder[n - 1], FilesOf(files, TaskOrder[n - 1]), subjectRows, load, decimate)
  }

  /**
   * The files `process_subject` writes. `beh` is the behavioural table,
   * None when its file does not exist.
   */
  function SubjectOutputs(subjectId: string, subjects: map<string, TaskFiles>, beh: Option<seq<BehRow>>,
                          load: Loader, decimate: Decimator): seq<OutputFile>
    requires subjectId in subjects && WellFormedSubjects(subjects)
  {
    if beh.None? then []
    else
      var subjectRows := Where(beh.value, BySubject("BAP" + subjectId));
      if subjectRows == [] then []
      else
        WellFormedTaskFiles(subjectId, subjects);
        TaskOutputs(subjectId, |TaskOrder|, subjects[subjectId], subjectRows, load, decimate)
  }

  lemma WellFormedTaskFiles(subjectId: string, subjects: map<string, TaskFiles>)
    requires subjectId in subjects && WellFormedSubjects(subjects)
    ensures AllWellFormed(subjects[subjectId].adt) && AllWellFormed(subjects[subjectId].vdt)
  {
    var tf := subjects[subjectId];
    assert forall i :: 0 <= i < |tf.adt| ==> tf.adt[i] in tf.adt;
    assert forall i :: 0 <= i < |tf.vdt| ==> tf.vdt[i] in tf.vdt;
  }

  /** `process_subject`: select the subject's rows, then each task in table order. */
  method ProcessSubject(subjectId: string, subjects: map<string, TaskFiles>, beh: Option<seq<BehRow>>,
                        load: Loader, decimate: Decimator) returns (outputs: seq<OutputFile>)
    requires subjectId in subjects && WellFormedSubjects(subjects)
    ensures outputs == SubjectOutputs(subjectId, subjects, beh, load, decimate)
  {
    if beh.None? {
      return [];
    }
    var subjectBehData := Where(beh.value, BySubject("BAP" + subjectId));
    if |subjectBehData| == 0 {
      return [];
    }
    WellFormedTaskFiles(subjectId, subjects);
    outputs := [];
    for t := 0 to |TaskOrder|
      invariant outputs == TaskOutputs(subjectId, t, subjects[subjectId], subjectBehData, load, decimate)
    {
      var code := TaskOrder[t];
      var taskFiles := FilesOf(subjects[subjectId], code);
      if taskFiles == [] {
        continue;
      }
      var taskBehData := Where(subjectBehData, ByTask(BehTask(code)));
      SortedWellFormed(taskFiles);
      var allData := ProcessTask(SortBy(taskFiles, RunKey), taskBehData, load, decimate);
      if allData != [] {
        outputs := outputs + [OutputFile(OutputName(subjectId, code), Flatten(allData))];
      }
    }
  }

  // ---------------------------------------------------------------------
  // Properties
  // ---------------------------------------------------------------------

  /**
   * Runs are visited in ascending (session, run) string order, none is
   * lost or repeated, and files with the same key keep their order.
   */
  lemma VisitOrder(files: seq<FileInfo>)
    ensures SortedBy(SortBy(files, RunKey), RunKey)
    ensures multiset(SortBy(files, RunKey)) == multiset(files)
    ensures forall k :: WithKey(SortBy(files, RunKey), RunKey, k) == WithKey(files, RunKey, k)
  {
    SortBySorted(files, RunKey);
    forall k {
      SortByStable(files, RunKey, k);
    }
  }

  /**
   * What every row of a subject's task file carries: a behavioural record
   * of that subject and task from the table, run and session indices equal
   * to the record's own `run` and `ses`, and a well-formed phase label.
   */
  ghost predicate SubjectRow(r: Row, beh: seq<BehRow>, subjectId: string, code: TaskCode)
  {
    && r.beh in beh
    && r.beh.sub == "BAP" + subjectId
    && r.beh.task == BehTask(code)
    && r.runIndex == r.beh.run
    && r.sessionIndex == Some(r.beh.ses)
    && WellLabelled(r)
  }

  /** Rows of a task's frames come from the task's rows, with the indices of their own run. */
  ghost predicate TaskRow(r: Row, taskRows: seq<BehRow>)
  {
    && r.beh in taskRows
    && r.runIndex == r.beh.run
    && r.sessionIndex == Some(r.beh.ses)
    && WellLabelled(r)
  }

  /**
   * The row was produced by one of `files`, whose `int(session)` and
   * `int(run)` are the row's indices: it is among that file's frames.
   */
  ghost predicate FromFile(r: Row, files: seq<FileInfo>, taskRows: seq<BehRow>, load: Loader, decimate: Decimator)
    requires AllWellFormed(files)
  {
    exists k :: 0 <= k < |files|
      && r.runIndex == DigitsValue(files[k].run)
      && r.sessionIndex == Some(DigitsValue(files[k].session))
      && r in Flatten(RunContribution(files[k], taskRows, load, decimate))
  }

  lemma {:induction false} TaskFramesFaithful(files: seq<FileInfo>, taskRows: seq<BehRow>, load: Loader, decimate: Decimator)
    requires AllWellFormed(files)
    ensures forall r :: r in Flatten(TaskFrames(files, taskRows, load, decimate)) ==>
      TaskRow(r, taskRows) && FromFile(r, files, taskRows, load, decimate)
  {
    if files != [] {
      var n := |files| - 1;
      var info := files[n];
      var before := TaskFrames(files[..n], taskRows, load, decimate);
      var added := RunContribution(info, taskRows, load, decimate);
      TaskFramesFaithful(files[..n], taskRows, load, decimate);
      FlattenAppend(before, added);
      forall r | r in Flatten(before)
        ensures FromFile(r, files, taskRows, load, decimate)
      {
        var k :| 0 <= k < n
          && r.runIndex == DigitsValue(files[..n][k].run)
          && r.sessionIndex == Some(DigitsValue(files[..n][k].session))
          && r in Flatten(RunContribution(files[..n][k], taskRows, load, decimate));
        assert files[..n][k] == files[k];
      }
      var rows := RunRows(info, taskRows);
      if rows != [] {
        var ses, run := DigitsValue(info.session), DigitsValue(info.run);
        RunFileRowsFaithful(rows, load(info.filePath), decimate, run, Some(ses));
        forall r | r in Flatten(added)
          ensures TaskRow(r, taskRows) && FromFile(r, files, taskRows, load, decimate)
        {
          var i :| 0 <= i < |Flatten(added)| && Flatten(added)[i] == r;
          assert RowOfRun(r, rows, run, Some(ses));
          WhereIff(taskRows, BySessionRun(ses, run), r.beh);
        }
      }
    }
  }

  /**
   * A task writes at most one file, named for the subject and task; it does
   * so exactly when the task has run files and they yield some frame; the
   * file holds every collected row, each faithful to the task's rows.
   */
  lemma TaskOutputSound(subjectId: string, code: TaskCode, files: seq<FileInfo>, subjectRows: seq<BehRow>,
                        load: Loader, decimate: Decimator)
    requires AllWellFormed(files)
    ensures AllWellFormed(SortBy(files, RunKey))
    ensures var out := TaskOutput(subjectId, code, files, subjectRows, load, decimate);
      && |out| <= 1
      && (out != [] <==>
            (files != [] &&
             TaskFrames(SortBy(files, RunKey), Where(subjectRows, ByTask(BehTask(code))), load, decimate) != []))
      && (forall o :: o in out ==> o.name == OutputName(subjectId, code))
      && forall o, r :: o in out && r in o.rows ==>
           TaskRow(r, subjectRows) && r.beh.task == BehTask(code)
  {
    SortedWellFormed(files);
    if files != [] {
      var taskRows := Where(subjectRows, ByTask(BehTask(code)));
      TaskFramesFaithful(SortBy(files, RunKey), taskRows, load, decimate);
      forall r | TaskRow(r, taskRows)
        ensures TaskRow(r, subjectRows) && r.beh.task == BehTask(code)
      {
        WhereIff(subjectRows, ByTask(BehTask(code)), r.beh);
      }
    }
  }

  /**
   * Each row of a task's file was produced by the run file, in sorted
   * order, whose session and run numbers the row carries.
   */
  lemma TaskOutputPlaced(subjectId: string, code: TaskCode, files: seq<FileInfo>, subjectRows: seq<BehRow>,
                         load: Loader, decimate: Decimator)
    requires AllWellFormed(files)
    ensures AllWellFormed(SortBy(files, RunKey))
    ensures forall o, r :: o in TaskOutput(subjectId, code, files, subjectRows, load, decimate) && r in o.rows ==>
      FromFile(r, SortBy(files, RunKey), Where(subjectRows, ByTask(BehTask(code))), load, decimate)
  {
    SortedWellFormed(files);
    if files != [] {
      TaskFramesFaithful(SortBy(files, RunKey), Where(subjectRows, ByTask(BehTask(code))), load, decimate);
    }
  }

  /** A task writes at most one file, and only under its own name. */
  lemma TaskOutputNamed(subjectId: string, code: TaskCode, files: seq<FileInfo>, subjectRows: seq<BehRow>,
                        load: Loader, decimate: Decimator)
    requires AllWellFormed(files)
    ensures var out := TaskOutput(subjectId, code, files, subjectRows, load, decimate);
      |out| <= 1 && forall o :: o in out ==> o.name == OutputName(subjectId, code)
  {
  }

  /** The subject's files are the auditory task's file, if any, then the visual task's. */
  lemma SubjectOutputsSplit(subjectId: string, subjects: map<string, TaskFiles>, beh: Option<seq<BehRow>>,
                            load: Loader, decimate: Decimator)
    requires subjectId in subjects && WellFormedSubjects(subjects)
    ensures AllWellFormed(subjects[subjectId].adt) && AllWellFormed(subjects[subjectId].vdt)
    ensures beh.Some? && Where(beh.value, BySubject("BAP" + subjectId)) != [] ==>
      var subjectRows := Where(beh.value, BySubject("BAP" + subjectId));
      var tf := subjects[subjectId];
      SubjectOutputs(subjectId, subjects, beh, load, decimate) ==
        TaskOutput(subjectId, ADT, tf.adt, subjectRows, load, decimate)
          + TaskOutput(subjectId, VDT, tf.vdt, subjectRows, load, decimate)
  {
    WellFormedTaskFiles(subjectId, subjects);
    if beh.Some? && Where(beh.value, BySubject("BAP" + subjectId)) != [] {
      var subjectRows := Where(beh.value, BySubject("BAP" + subjectId));
      var tf := subjects[subjectId];
      assert TaskOutputs(subjectId, 1, tf, subjectRows, load, decimate)
          == TaskOutput(subjectId, ADT, tf.adt, subjectRows, load, decimate);
    }
  }

  /**
   * A row of a subject's file for the task: faithful to the subject's
   * records of the task, and produced by the run file, among the task's
   * files in (session, run) order, whose numbers it carries.
   */
  ghost predicate PlacedSubjectRow(r: Row, subjectId: string, subjects: map<string, TaskFiles>, beh: seq<BehRow>,
                                   load: Loader, decimate: Decimator, code: TaskCode)
    requires subjectId in subjects && WellFormedSubjects(subjects)
  {
    && SubjectRow(r, beh, subjectId, code)
    && (WellFormedTaskFiles(subjectId, subjects);
        SortedWellFormed(FilesOf(subjects[subjectId], code));
        FromFile(r, SortBy(FilesOf(subjects[subjectId], code), RunKey),
                 Where(Where(beh, BySubject("BAP" + subjectId)), ByTask(BehTask(code))), load, decimate))
  }

  /**
   * Every file written for a subject is named for one of its two tasks,
   * and each of its rows is a faithful row of that subject and that task,
   * produced by the run file whose session and run it carries. Nothing is
   * written when the behavioural table is missing or has no row of the
   * subject.
   */
  lemma SubjectOutputsFaithful(subjectId: string, subjects: map<string, TaskFiles>, beh: Option<seq<BehRow>>,
                               load: Loader, decimate: Decimator, code: TaskCode)
    requires subjectId in subjects && WellFormedSubjects(subjects)
    ensures var outs := SubjectOutputs(subjectId, subjects, beh, load, decimate);
      && (beh.None? || Where(beh.value, BySubject("BAP" + subjectId)) == [] ==> outs == [])
      && |outs| <= |TaskOrder|
      && (forall o :: o in outs ==> o.name == OutputName(subjectId, ADT) || o.name == OutputName(subjectId, VDT))
      && forall o, r :: o in outs && o.name == OutputName(subjectId, code) && r in o.rows ==>
           PlacedSubjectRow(r, subjectId, subjects, beh.value, load, decimate, code)
  {
    SubjectOutputsNamed(subjectId, subjects, beh, load, decimate);
    forall o, r | o in SubjectOutputs(subjectId, subjects, beh, load, decimate)
                  && o.name == OutputName(subjectId, code) && r in o.rows
      ensures PlacedSubjectRow(r, subjectId, subjects, beh.value, load, decimate, code)
    {
      SubjectRowOf(subjectId, subjects, beh, load, decimate, code, o, r);
    }
  }

  /**
   * Nothing is written without behavioural rows of the subject; otherwise
   * at most one file per task, each named for the subject and its task.
   */
  lemma SubjectOutputsNamed(subjectId: string, subjects: map<string, TaskFiles>, beh: Option<seq<BehRow>>,
                            load: Loader, decimate: Decimator)
    requires subjectId in subjects && WellFormedSubjects(subjects)
    ensures var outs := SubjectOutputs(subjectId, subjects, beh, load, decimate);
      && (beh.None? || Where(beh.value, BySubject("BAP" + subjectId)) == [] ==> outs == [])
      && |outs| <= |TaskOrder|
      && (forall o :: o in outs ==> o.name == OutputName(subjectId, ADT) || o.name == OutputName(subjectId, VDT))
  {
    SubjectOutputsSplit(subjectId, subjects, beh, load, decimate);
    if beh.Some? {
      var subjectRows := Where(beh.value, BySubject("BAP" + subjectId));
      if subjectRows != [] {
        var tf := subjects[subjectId];
        TaskOutputNamed(subjectId, ADT, tf.adt, subjectRows, load, decimate);
        TaskOutputNamed(subjectId, VDT, tf.vdt, subjectRows, load, decimate);
      }
    }
  }

  /** A file written under a task's name is that task's file, and the subject has behavioural rows. */
  lemma OwnSubjectFile(subjectId: string, subjects: map<string, TaskFiles>, beh: Option<seq<BehRow>>,
                       load: Loader, decimate: Decimator, code: TaskCode, o: OutputFile)
    requires subjectId in subjects && WellFormedSubjects(subjects)
    requires o in SubjectOutputs(subjectId, subjects, beh, load, decimate) && o.name == OutputName(subjectId, code)
    ensures AllWellFormed(FilesOf(subjects[subjectId], code))
    ensures beh.Some?
    ensures o in TaskOutput(subjectId, code, FilesOf(subjects[subjectId], code),
                            Where(beh.value, BySubject("BAP" + subjectId)), load, decimate)
  {
    SubjectOutputsSplit(subjectId, subjects, beh, load, decimate);
    var subjectRows := Where(beh.value, BySubject("BAP" + subjectId));
    var tf := subjects[subjectId];
    TaskOutputNamed(subjectId, ADT, tf.adt, subjectRows, load, decimate);
    TaskOutputNamed(subjectId, VDT, tf.vdt, subjectRows, load, decimate);
    OutputNamesDistinct(subjectId, ADT, VDT);
  }

  /** One row of a subject's task file is a placed row of the subject and the task. */
  lemma SubjectRowOf(subjectId: string, subjects: map<string, TaskFiles>, beh: Option<seq<BehRow>>,
                     load: Loader, decimate: Decimator, code: TaskCode, o: OutputFile, r: Row)
    requires subjectId in subjects && WellFormedSubjects(subjects)
    requires o in SubjectOutputs(subjectId, subjects, beh, load, decimate) && o.name == OutputName(subjectId, code)
    requires r in o.rows
    ensures beh.Some?
    ensures PlacedSubjectRow(r, subjectId, subjects, beh.value, load, decimate, code)
  {
    OwnSubjectFile(subjectId, subjects, beh, load, decimate, code, o);
    var subjectRows := Where(beh.value, BySubject("BAP" + subjectId));
    var files := FilesOf(subjects[subjectId], code);
    TaskOutputSound(subjectId, code, files, subjectRows, load, decimate);
    TaskOutputPlaced(subjectId, code, files, subjectRows, load, decimate);
    WhereIff(beh.value, BySubject("BAP" + subjectId), r.beh);
  }

  /**
   * A subject's file for a task exists exactly when the behavioural table
   * has rows of the subject, the task has run files, and visiting them in
   * (session, run) order collects some frame.
   */
  lemma SubjectOutputIff(subjectId: string, subjects: map<string, TaskFiles>, beh: Option<seq<BehRow>>,
                         load: Loader, decimate: Decimator, code: TaskCode)
    requires subjectId in subjects && WellFormedSubjects(subjects)
    ensures AllWellFormed(SortBy(FilesOf(subjects[subjectId], code), RunKey))
    ensures var outs := SubjectOutputs(subjectId, subjects, beh, load, decimate);
      var files := FilesOf(subjects[subjectId], code);
      (exists o :: o in outs && o.name == OutputName(subjectId, code)) <==>
        && beh.Some?
        && Where(beh.value, BySubject("BAP" + subjectId)) != []
        && files != []
        && TaskFrames(SortBy(files, RunKey),
                      Where(Where(beh.value, BySubject("BAP" + subjectId)), ByTask(BehTask(code))),
                      load, decimate) != []
  {
    SubjectOutputsSplit(subjectId, subjects, beh, load, decimate);
    var tf := subjects[subjectId];
    SortedWellFormed(FilesOf(tf, code));
    if beh.Some? {
      var subjectRows := Where(beh.value, BySubject("BAP" + subjectId));
      if subjectRows != [] {
        var adtOut := TaskOutput(subjectId, ADT, tf.adt, subjectRows, load, decimate);
        var vdtOut := TaskOutput(subjectId, VDT, tf.vdt, subjectRows, load, decimate);
        TaskOutputSound(subjectId, ADT, tf.adt, subjectRows, load, decimate);
        TaskOutputSound(subjectId, VDT, tf.vdt, subjectRows, load, decimate);
        OutputNamesDistinct(subjectId, ADT, VDT);
        PairNamed(adtOut, vdtOut, OutputName(subjectId, ADT), OutputName(subjectId, VDT));
      }
    }
  }
}
