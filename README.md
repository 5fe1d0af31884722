# Flat files of BAP pupillometry runs, modelled in Dafny

Two Python scripts of the BAP pupillometry pipeline turn cleaned
eye-tracking recordings of 2000 Hz into "flat" CSV files at 250 Hz:

- `create_flat_files_interactive.py` finds every subject among the run files and
  writes a file per task for the subject the user picks.
- `downsample_and_process.py` does the same for the fixed subject BAP178.

For each run file, the transform works as follows:
1. It selects the behavioural rows of the run.
2. It downsamples the pupil and time series.
3. It cuts the series into one slice per behavioural trial, using `len // trials` samples per trial.
4. It marks zero pupil readings as missing.
5. It labels the five positional phases of every trial: baseline, fixation, squeeze, blank and response.
6. It emits one row per sample, carrying the trial's behavioural fields.

The task's file is written only when some trial frame was collected.

The model, module by module:

- `Wrappers`, `Text` (text.dfy): `Option`, ASCII digit/letter classes, `int()` of a digit string, decimal printing, ASCII `lower()`, Python's string order.
- `Signal` (signal.dfy): samples (a number or NaN), the two rates, `downsample_data` with the decimation routine as a parameter, and dropout marking.
- `Phases` (phases.dfy): the cut points `floor(k·D/5)`, the duration index array filled slice by slice, and `create_trial_label`.
- `Trials` (trials.dfy): Python slicing, the trial loop of a run (clamp, skip, copy, dropouts, phases, frame, abort on a failed frame), and what the rows of a run carry.
- `Sorting` (sorting.dfy): Python's stable `sorted` on a key that is a pair of strings.
- `FileNames` (filenames.dfy): the file-name pattern as a matcher with soundness and completeness, the task-name mapping and `detect_available_subjects`.
- `Runs` (runs.dfy): row selection by mask, the `try` block of a run file, the task table, output names, and the rule for when a file is written.
- `Interactive` (interactive.dfy): `process_subject`.
- `Batch` (batch.dfy): `process_and_downsample`.

Three things are parameters of the model: the decimation routine, the reading of a `.mat` file, and file discovery. The behavioural table is given as a sequence of records, and the files written are returned as a sequence of (name, rows) values. Nothing is read or written.

Three consequences of the code are worth stating:

- **The tail of a run.** With `T` trials numbered 1..T and `L` downsampled samples, trial `t` gets `[(t-1)·(L div T), t·(L div T))`. So the last `L mod T` samples of a run belong to no trial, and the end clamp only acts for trial numbers above `T` (`Trials.RunCoverage`, `Trials.ClampOnlyBeyondCount`).
- **The skip rule.** A trial is skipped when its start is at or beyond `L` (`>=`).
- **Dropouts per trial.** Zeros are marked on each trial's copied slice. This gives the same rows as marking the whole series (`Signal.DropZerosSlice`).

`downsample_data` and `create_trial_label` are identical in the two scripts and are modelled once. The rows of the interactive script carry a session index; those of the batch script have none (`None`).

## Model

| member | source | states |
|---|---|---|
| Signal.DecimationFactor | 01_data_preprocessing/python/create_flat_files_interactive.py:23 | the factor is the truncated quotient: factor·target ≤ original < (factor+1)·target |
| Signal.Downsample | 01_data_preprocessing/python/create_flat_files_interactive.py:15-28 | characterised by DownsampleEqualRates and RecordingRatesFactor: the data unchanged at equal rates, otherwise the decimator applied with the truncated factor; None stands for a decimation that raises |
| Signal.DownsampleEqualRates | 01_data_preprocessing/python/create_flat_files_interactive.py:19-20 | at equal rates the series comes back unchanged, whatever the decimator |
| Signal.RecordingRatesFactor | 01_data_preprocessing/python/create_flat_files_interactive.py:136-137 | for 2000 Hz → 250 Hz the factor is 8 and downsampling is decimation by 8 |
| Signal.DropZeros | 01_data_preprocessing/python/create_flat_files_interactive.py:250 | exactly the zero and NaN cells are NaN afterwards; every other cell is unchanged; the length is kept |
| Signal.NoZeroAfterDropout | 01_data_preprocessing/python/create_flat_files_interactive.py:250 | no zero reading survives the marking |
| Signal.DropZerosIdempotent | 01_data_preprocessing/python/downsample_and_process.py:145 | marking twice is the same as marking once |
| Signal.DropZerosAppend | 01_data_preprocessing/python/create_flat_files_interactive.py:246-250 | marking works cell by cell, so it distributes over concatenation |
| Signal.DropZerosSlice | 01_data_preprocessing/python/create_flat_files_interactive.py:246-250 | marking a slice equals slicing the marked series, so marking per trial is marking the run |
| Signal.MarkDropouts | 01_data_preprocessing/python/create_flat_files_interactive.py:250 | the in-place masked assignment leaves the array equal to the marked old contents |
| Phases.TrialLabel | 01_data_preprocessing/python/create_flat_files_interactive.py:30-41 | 1..5 map to baseline, fixation, squeeze, blank, response; the result is "unknown" exactly for every other value |
| Phases.TrialLabelInjective | 01_data_preprocessing/python/downsample_and_process.py:28-39 | the five phase names are distinct, so a label determines its phase |
| Phases.CutsOrdered | 01_data_preprocessing/python/create_flat_files_interactive.py:253-258 | 0 = cut0 ≤ cut1 ≤ cut2 ≤ cut3 ≤ cut4 ≤ cut5 = D |
| Phases.Cut | 01_data_preprocessing/python/create_flat_files_interactive.py:253-258 | floor(k·D/5) for k = 1..5; characterised by CutsOrdered, CutBounds and PhaseSizes |
| Phases.PhaseOf | 01_data_preprocessing/python/create_flat_files_interactive.py:261-266 | every position of a trial gets a phase in 1..5 whose interval [cut(k-1), cut(k)) contains it |
| Phases.PhaseOfIff | 01_data_preprocessing/python/downsample_and_process.py:156-161 | a position is in phase k exactly when it lies in k's interval |
| Phases.CutBounds | 01_data_preprocessing/python/downsample_and_process.py:149-153 | each phase's lower cut is at most its upper cut, and that is at most D |
| Phases.PhaseSizes | 01_data_preprocessing/python/create_flat_files_interactive.py:261-266 | phase k holds exactly cut(k) − cut(k-1) samples, all in its own slice |
| Phases.EveryPositionHasPhase | 01_data_preprocessing/python/create_flat_files_interactive.py:261-266 | no position of the duration index is left NaN; each holds 1..5 |
| Phases.Labels | 01_data_preprocessing/python/create_flat_files_interactive.py:269 | a label is "unknown" exactly where the duration index is NaN or outside 1..5; elsewhere it is the name of phase k from the list of five names |
| Phases.PhaseLabelsKnown | 01_data_preprocessing/python/downsample_and_process.py:164 | labelling a trial's duration index never yields "unknown" |
| Phases.FillRange | 01_data_preprocessing/python/create_flat_files_interactive.py:262 | slice assignment sets exactly [lo, hi) and leaves every other cell |
| Phases.DurationIndex | 01_data_preprocessing/python/create_flat_files_interactive.py:253-266 | the filled array holds the phase of every position |
| Trials.PyIndex | 01_data_preprocessing/python/create_flat_files_interactive.py:246 | a Python slice bound becomes a position within the sequence |
| Trials.PySliceInRange | 01_data_preprocessing/python/create_flat_files_interactive.py:246-247 | with in-range bounds a Python slice is the plain subsequence |
| Trials.PySlice | 01_data_preprocessing/python/create_flat_files_interactive.py:246-247 | Python's `s[a:b]` through PyIndex on both bounds; PySliceInRange gives its value for in-range bounds |
| Trials.SamplesPerTrial | 01_data_preprocessing/python/create_flat_files_interactive.py:227 | `len // total_trials`, the width of every trial; characterised by RunCoverage and ClampOnlyBeyondCount |
| Trials.TrialStart | 01_data_preprocessing/python/create_flat_files_interactive.py:234 | `(trial - 1) * spt`; TrialsContiguous shows each trial starts where the previous one ends |
| Trials.TrialEnd | 01_data_preprocessing/python/create_flat_files_interactive.py:235-239 | `trial * spt` clamped to the series length; ClampOnlyBeyondCount shows the clamp changes nothing for trials 1..T |
| Trials.FrameRows | 01_data_preprocessing/python/create_flat_files_interactive.py:272-296 | one row per sample: that sample's pupil and time, the trial number, the run and session indices, its phase and phase name, and the behavioural record |
| Trials.ProcessTrial | 01_data_preprocessing/python/create_flat_files_interactive.py:232-298 | the loop body yields `Trials.TrialOutcomeOf`: skipped, a frame, or a failure |
| Trials.TrialOutcomeOf | 01_data_preprocessing/python/create_flat_files_interactive.py:232-298 | the outcome of one trial: skipped at start ≥ L, a failure on unequal column lengths, else the frame; characterised by TrialSlice, SkippedOnlyWhenEmpty and ProcessTrial |
| Trials.RunFramesStep | 01_data_preprocessing/python/create_flat_files_interactive.py:240-302 | one trial adds nothing when skipped (the `continue`), appends its frame, or ends the run on failure (the `except`), keeping the frames appended before |
| Trials.RunFrames | 01_data_preprocessing/python/create_flat_files_interactive.py:232-302 | the trial loop over the table; characterised by RunFramesStep, AbortPersists, RunCoverage and RunRowsFaithful |
| Trials.AbortPersists | 01_data_preprocessing/python/create_flat_files_interactive.py:300-302 | once a run is abandoned, later behavioural rows change nothing and earlier frames stay |
| Trials.ProcessRun | 01_data_preprocessing/python/create_flat_files_interactive.py:226-298 | the trial loop computes the run's frames, and whether it was abandoned, in table order |
| Trials.TrialSlice | 01_data_preprocessing/python/create_flat_files_interactive.py:234-250 | trial t (not skipped) covers [(t-1)·spt, min(t·spt, L)); its pupil column is that slice dropout-marked and its time column is that slice |
| Trials.ClampOnlyBeyondCount | 01_data_preprocessing/python/create_flat_files_interactive.py:238-239 | with spt = L div T the end clamp only fires for a trial number above T |
| Trials.SkippedOnlyWhenEmpty | 01_data_preprocessing/python/create_flat_files_interactive.py:241-243 | a trial numbered 1..T is skipped exactly when the run has no samples |
| Trials.TrialsContiguous | 01_data_preprocessing/python/downsample_and_process.py:129-134 | trial t ends where trial t+1 starts |
| Trials.ExampleTrialTwoOfThree | 01_data_preprocessing/python/create_flat_files_interactive.py:226-266 | for L = 300 and T = 3, trial 2 is [100, 200) and its squeeze phase is [140, 160) |
| Trials.RunRowsFaithful | 01_data_preprocessing/python/create_flat_files_interactive.py:272-296 | every row of a run comes from one of its behavioural rows; it carries the run's indices, the record's trial number, a phase 1..5 with its name, and no zero pupil reading |
| Trials.TrialRowsOfRun | 01_data_preprocessing/python/create_flat_files_interactive.py:272-296 | the frame of one of a run's trials holds only rows of that run, each with a phase 1..5, its name and no zero pupil reading |
| Trials.RunCoverage | 01_data_preprocessing/python/create_flat_files_interactive.py:226-247 | for trials numbered 1..T the frames are exactly the first T·(L div T) samples in order; the last L mod T samples belong to no trial |
| Trials.FlattenAppend | 01_data_preprocessing/python/create_flat_files_interactive.py:306 | concatenating frame lists concatenates their rows |
| Sorting.KeyLeTotal | 01_data_preprocessing/python/create_flat_files_interactive.py:191 | any two (session, run) keys are comparable |
| Sorting.KeyLeTransitive | 01_data_preprocessing/python/create_flat_files_interactive.py:191 | tuple order on keys is transitive |
| Sorting.Insert | 01_data_preprocessing/python/create_flat_files_interactive.py:191 | insertion adds exactly the element: the length grows by one and the multiset gains it |
| Sorting.SortBy | 01_data_preprocessing/python/create_flat_files_interactive.py:191 | the sorted list is a permutation of the input |
| Sorting.InsertSorted | 01_data_preprocessing/python/create_flat_files_interactive.py:191 | inserting into a sorted list keeps it sorted |
| Sorting.SortBySorted | 01_data_preprocessing/python/downsample_and_process.py:93 | the result is ordered by the key |
| Sorting.KeyLeReflexive | 01_data_preprocessing/python/create_flat_files_interactive.py:191 | every key is at most itself under tuple order |
| Sorting.InsertStable | 01_data_preprocessing/python/create_flat_files_interactive.py:191 | insertion puts the element ahead of the others with its key and leaves their order alone |
| Sorting.SortByStable | 01_data_preprocessing/python/create_flat_files_interactive.py:191 | stability: for every key, the elements with that key come out in their input order |
| FileNames.Span | 01_data_preprocessing/python/create_flat_files_interactive.py:63 | the greedy run of a character class: every character of it is in the class, and the next one is not |
| FileNames.GroupSound | 01_data_preprocessing/python/create_flat_files_interactive.py:63 | a matched group is nonempty, of its class, followed by its literal, and is maximal |
| FileNames.MatchLayoutSound | 01_data_preprocessing/python/create_flat_files_interactive.py:63-68 | a match splits the name into the literals and the four groups, followed by a remainder that does not extend the run number |
| FileNames.MatchLayoutComplete | 01_data_preprocessing/python/create_flat_files_interactive.py:63-68 | every name built from well-formed groups and such a remainder matches with those groups |
| FileNames.ParseSound | 01_data_preprocessing/python/create_flat_files_interactive.py:63-68 | a matched name starts with `subjectBAP<digits>_<letters>_session<digits>_run<digits>` for the groups returned, and no digit follows |
| FileNames.ParseFileName | 01_data_preprocessing/python/create_flat_files_interactive.py:63 | the `re.match` of the file-name pattern; characterised by ParseSound and ParseComplete |
| FileNames.ParseComplete | 01_data_preprocessing/python/create_flat_files_interactive.py:63-68 | every such name is matched, and the groups are recovered exactly (round trip) |
| FileNames.MapTask | 01_data_preprocessing/python/create_flat_files_interactive.py:74-79 | ADT exactly for a task that lowercases to "aoddball", VDT exactly for "voddball", otherwise skipped |
| FileNames.MapTaskSameLower | 01_data_preprocessing/python/create_flat_files_interactive.py:74-79 | any two task names that lower-case alike map to the same code |
| FileNames.MapTaskIgnoresCase | 01_data_preprocessing/python/create_flat_files_interactive.py:74-77 | "Aoddball", "AODDBALL" and "aoddball" all map to ADT; "Oddball" maps to nothing |
| FileNames.Basename | 01_data_preprocessing/python/create_flat_files_interactive.py:60 | the base name is no longer than the path |
| FileNames.BasenameSuffix | 01_data_preprocessing/python/create_flat_files_interactive.py:60 | the base name is the part of the path after its last '/', and holds no '/' |
| FileNames.KeysOf | 01_data_preprocessing/python/create_flat_files_interactive.py:59-63 | one match result per path |
| FileNames.KeysOfIndex | 01_data_preprocessing/python/create_flat_files_interactive.py:59-63 | the i-th result is the match of the i-th path's base name |
| FileNames.SubjectIdsIff | 01_data_preprocessing/python/create_flat_files_interactive.py:70-71 | a subject is listed exactly when some path matches with its id, even when its task is unknown |
| FileNames.FilesForUnlisted | 01_data_preprocessing/python/create_flat_files_interactive.py:70-71 | a subject not yet seen has no entries, so its lists start empty |
| FileNames.KeysWellFormed | 01_data_preprocessing/python/create_flat_files_interactive.py:63-68 | every match has a digit subject, session and run and a letter task |
| FileNames.FilesForSound | 01_data_preprocessing/python/create_flat_files_interactive.py:81-86 | every listed entry comes from a matching path of that subject whose task maps to the list's task; it records that path and its base name, with a digit session and run |
| FileNames.RecordPath | 01_data_preprocessing/python/create_flat_files_interactive.py:60-86 | one loop pass keeps the map equal to the detection result for the paths seen so far |
| FileNames.DetectAvailableSubjects | 01_data_preprocessing/python/create_flat_files_interactive.py:43-88 | the keys are exactly the matching subjects; each subject's ADT and VDT lists are its entries in path order |
| FileNames.DetectedWellFormed | 01_data_preprocessing/python/create_flat_files_interactive.py:81-86 | every detected session and run is a digit string, so the later `int()` calls succeed |
| Runs.Where | 01_data_preprocessing/python/create_flat_files_interactive.py:148 | a selection is no longer than the table |
| Runs.WhereIff | 01_data_preprocessing/python/create_flat_files_interactive.py:199-202 | a row is selected exactly when it is in the table and matches the mask |
| Runs.WhereAppend | 01_data_preprocessing/python/create_flat_files_interactive.py:184 | selection keeps table order: selecting from a concatenation concatenates the selections |
| Runs.ProcessRunFile | 01_data_preprocessing/python/create_flat_files_interactive.py:209-302 | a run adds nothing if loading or decimation raises; otherwise it adds the trial loop's frames, including those before a failure |
| Runs.RunFileFrames | 01_data_preprocessing/python/create_flat_files_interactive.py:209-302 | the frames one run file adds; characterised by ProcessRunFile and RunFileRowsFaithful |
| Runs.RunFileRowsFaithful | 01_data_preprocessing/python/downsample_and_process.py:104-196 | every row a run file contributes is faithful to the run's selected behavioural rows |
| Runs.FilePattern | 01_data_preprocessing/python/downsample_and_process.py:64-67 | the batch patterns name the same tasks the interactive mapping recognises |
| Runs.OutputNamesDistinct | 01_data_preprocessing/python/create_flat_files_interactive.py:309 | the two tasks of a subject write to different files |
| Runs.Emit | 01_data_preprocessing/python/create_flat_files_interactive.py:305-310 | at most one file; it is written exactly when some frame was collected, and it holds all the collected rows in order |
| Runs.OutputName | 01_data_preprocessing/python/create_flat_files_interactive.py:309 | `BAP{id}_{task}_DS250.csv`; OutputNamesDistinct shows the two tasks never share a name |
| Runs.TaskName | 01_data_preprocessing/python/create_flat_files_interactive.py:163-166 | the task name in output file names, ADT or VDT; OutputNamesDistinct relies on the two differing |
| Runs.BehTask | 01_data_preprocessing/python/downsample_and_process.py:63-66 | the `task` column value of each task (aud, vis); with the table order ADT then VDT it gives the tasks visited by both scripts, characterised by SubjectOutputsSplit and BatchOutputsSplit |
| Interactive.ProcessTask | 01_data_preprocessing/python/create_flat_files_interactive.py:188-302 | the run loop collects the frames of each run, in file order; runs without behavioural rows are skipped before any division |
| Interactive.TaskFrames | 01_data_preprocessing/python/create_flat_files_interactive.py:191-302 | the frames of a task's files in the order given; characterised by ProcessTask and TaskFramesFaithful |
| Interactive.ProcessSubject | 01_data_preprocessing/python/create_flat_files_interactive.py:128-310 | the files written are `Interactive.SubjectOutputs`: ADT then VDT |
| Interactive.VisitOrder | 01_data_preprocessing/python/create_flat_files_interactive.py:191 | runs are visited in ascending (session, run) string order, with none lost or repeated, and files with equal keys keep their order |
| Interactive.TaskFramesFaithful | 01_data_preprocessing/python/create_flat_files_interactive.py:191-296 | each row comes from the task's rows, with run_index the record's `run` and session_index its `ses`, and is labelled correctly; it lies in the frames of a visited file whose `int(session)` and `int(run)` are those indices |
| Interactive.TaskOutputSound | 01_data_preprocessing/python/create_flat_files_interactive.py:174-310 | a task writes at most one file, named `BAP{id}_{task}_DS250.csv`, exactly when it has files that yield a frame; its rows belong to the task |
| Interactive.TaskOutput | 01_data_preprocessing/python/create_flat_files_interactive.py:174-310 | the file one task writes; characterised by TaskOutputSound and TaskOutputPlaced |
| Interactive.TaskOutputPlaced | 01_data_preprocessing/python/create_flat_files_interactive.py:191-296 | each row of a task's file lies in the frames of a file, in (session, run) order, whose `int(session)` and `int(run)` are the row's indices |
| Interactive.TaskOutputNamed | 01_data_preprocessing/python/create_flat_files_interactive.py:305-310 | a task writes at most one file, under its own name |
| Interactive.SubjectOutputsSplit | 01_data_preprocessing/python/create_flat_files_interactive.py:164-169 | the subject's files are the ADT file, if any, followed by the VDT file |
| Interactive.SubjectOutputsFaithful | 01_data_preprocessing/python/create_flat_files_interactive.py:141-310 | nothing is written without behavioural data for the subject; at most two files, each named for one task; each row is a record of that subject and task with matching indices, produced by the task's run file, in (session, run) order, whose numbers it carries |
| Interactive.SubjectOutputs | 01_data_preprocessing/python/create_flat_files_interactive.py:141-310 | the files `process_subject` writes; characterised by ProcessSubject, SubjectOutputsFaithful and SubjectOutputIff |
| Interactive.SubjectOutputsNamed | 01_data_preprocessing/python/create_flat_files_interactive.py:141-169 | nothing is written without behavioural rows of the subject; at most two files, each named for one task |
| Interactive.OwnSubjectFile | 01_data_preprocessing/python/create_flat_files_interactive.py:164-169 | a file written under a task's name is that task's file, and the behavioural table exists |
| Interactive.SubjectRowOf | 01_data_preprocessing/python/create_flat_files_interactive.py:191-296 | a row of a subject's task file is a record of the subject and task, produced by the sorted run file whose numbers it carries |
| Interactive.SubjectOutputIff | 01_data_preprocessing/python/create_flat_files_interactive.py:141-310 | a task's file exists exactly when the subject has behavioural rows and the task has files whose sorted runs yield a frame |
| Interactive.RunKey | 01_data_preprocessing/python/create_flat_files_interactive.py:191 | the sort key (session, run) compared as strings; characterised by Interactive.VisitOrder |
| Interactive.RunRows | 01_data_preprocessing/python/create_flat_files_interactive.py:199-202 | the task's behavioural rows with `ses == int(session)` and `run == int(run)`; characterised by WhereIff |
| Interactive.RunContribution | 01_data_preprocessing/python/create_flat_files_interactive.py:198-206 | nothing for a run without behavioural rows, else the run file's frames; characterised through FromFile in TaskFramesFaithful |
| Batch.ProcessTask | 01_data_preprocessing/python/downsample_and_process.py:90-196 | the run loop numbers files 1, 2, … in the order given and selects behavioural rows by that number only |
| Batch.TaskFrames | 01_data_preprocessing/python/downsample_and_process.py:93-196 | the frames of the paths numbered 1, 2, … in the order given; characterised by ProcessTask and TaskFramesFaithful |
| Batch.ProcessAndDownsample | 01_data_preprocessing/python/downsample_and_process.py:41-204 | the files written are `Batch.BatchOutputs`: ADT then VDT |
| Batch.BatchOutputs | 01_data_preprocessing/python/downsample_and_process.py:41-204 | the files `process_and_downsample` writes; characterised by ProcessAndDownsample, BatchOutputsFaithful and BatchOutputIff |
| Batch.VisitOrder | 01_data_preprocessing/python/downsample_and_process.py:93 | paths are visited in ascending string order, with none lost or repeated, and equal paths keep their order |
| Batch.TaskFramesFaithful | 01_data_preprocessing/python/downsample_and_process.py:93-190 | each row comes from the task's rows, with run_index equal to the record's `run` and to the 1-based position k+1 of a file whose frames contain the row, read with number k+1; there is no session index |
| Batch.TaskOutputSound | 01_data_preprocessing/python/downsample_and_process.py:83-204 | a task writes at most one file, `BAP178_{task}_DS250.csv`, exactly when the pattern finds files that yield a frame |
| Batch.TaskOutput | 01_data_preprocessing/python/downsample_and_process.py:83-204 | the file one task writes; characterised by TaskOutputSound and TaskOutputPlaced |
| Batch.TaskOutputPlaced | 01_data_preprocessing/python/downsample_and_process.py:93-97 | each row of a task's file was produced by the file whose position in sorted path order is its run index |
| Batch.TaskOutputNamed | 01_data_preprocessing/python/downsample_and_process.py:198-204 | a task writes at most one file, under its own name |
| Batch.BatchOutputsSplit | 01_data_preprocessing/python/downsample_and_process.py:64-69 | the files are the ADT file, if any, followed by the VDT file |
| Batch.BatchOutputsFaithful | 01_data_preprocessing/python/downsample_and_process.py:52-204 | at most two files, each named for one task; each row is a BAP178 record of that task with run_index equal to its `run`, produced by the file at that position in sorted path order |
| Batch.BatchOutputsNamed | 01_data_preprocessing/python/downsample_and_process.py:64-69 | at most two files, each named for BAP178 and one task |
| Batch.BatchRowOf | 01_data_preprocessing/python/downsample_and_process.py:93-190 | a row of a task's file is a BAP178 record of the task, produced by the file at its run index in sorted order |
| Batch.OwnFile | 01_data_preprocessing/python/downsample_and_process.py:64-69 | a file written under a task's name is that task's file |
| Batch.BatchOutputIff | 01_data_preprocessing/python/downsample_and_process.py:83-204 | a task's file exists exactly when the pattern finds files whose sorted runs yield a frame |
| Batch.GlobPattern | 01_data_preprocessing/python/downsample_and_process.py:80-81 | the glob pattern of a task's run files; its task part maps back to the task (Runs.FilePattern) |
| Batch.RunContribution | 01_data_preprocessing/python/downsample_and_process.py:93-101 | nothing for a run number without behavioural rows (filtered by run only, no session), else the run file's frames; characterised through FromFileAtIndex in TaskFramesFaithful |

## Left out

- `scipy.signal.decimate` is a parameter. Nothing is claimed about the values it computes or the length it returns. A raised exception is represented as `None`.
- `scipy.io.loadmat` and the struct access are a parameter (`Runs.Loader`). Any exception there is `None`.
- The rest of the I/O is left out:
  - file discovery (`glob`), which is a parameter of the batch script and an input list of paths for the detection;
  - `os.path.exists`, which becomes a missing table (`None`);
  - reading the behavioural CSV, which is given as records already restricted to the selected columns;
  - writing the CSV files, which are returned as values.
- `select_subject` is an interactive console loop. `main`, all printing and the summary statistics after a file is written are console output.
- Floating point:
  - The cuts `int(D*0.2)` … `int(D*0.8)` are modelled as the exact integer quotients `k·D div 5`. Floating-point rounding of `D*0.2` etc. is not modelled.
  - Samples are reals or NaN.
  - NaN or non-integer values in the `ses`, `run` and `trial` columns are not modelled; those columns are integers here. A NaN trial number would make `int()` raise and abandon the run.
- The pattern's `\d` is taken to be an ASCII digit. Python's `re` also accepts other Unicode digits.
- The behavioural table's row index and `iterrows` are modelled as table order.
- Signal.Downsample: the output length is left to the decimator, so trial counts and sample counts after decimation are not tied to the recording length.
- The other scripts of the repository are not part of this model. These are the `.mat` inspection scripts, the behavioural summary, the Google Drive sync and download utilities, and the figure conversion. They only print, download or convert.
