/**
 * `detect_available_subjects`: the base name of every cleaned recording is
 * matched against `subjectBAP<digits>_<letters>_session<digits>_run<digits>`
 * (anchored at the start only), the task name is mapped case-insensitively
 * to ADT or VDT, and the recordings are grouped per subject id.
 */
module FileNames {
  import opened Wrappers
  import opened Text

  /** The four groups the regular expression captures, as text. */
  datatype FileKey = FileKey(subject: string, task: string, session: string, run: string)

  /** What every match satisfies: one or more digits / letters per group. */
  predicate WellFormedKey(k: FileKey)
  {
    |k.subject| > 0 && AllDigits(k.subject) &&
    |k.task| > 0 && AllLetters(k.task) &&
    |k.session| > 0 && AllDigits(k.session) &&
    |k.run| > 0 && AllDigits(k.run)
  }

  /**
   * The literal parts of the pattern: a prefix, then the separators after
   * the subject, task and session groups.
   */
  datatype Layout = Layout(prefix: string, afterSubject: string, afterTask: string, afterSession: string)

  const FileLayout: Layout := Layout("subjectBAP", "_", "_session", "_run")

  /** The text a key matches under a layout. */
  function Render(l: Layout, k: FileKey): string
  {
    l.prefix + k.subject + l.afterSubject + k.task + l.afterTask + k.session + l.afterSession + k.run
  }

  function KeyText(k: FileKey): string
  {
    Render(FileLayout, k)
  }

  /** The two character classes of the pattern's groups: `\d` and `[A-Za-z]`. */
  datatype CharClass = Digits | Letters

  predicate InClass(c: char, cls: CharClass)
  {
    match cls
    case Digits => IsDigit(c)
    case Letters => IsLetter(c)
  }

  predicate AllIn(s: string, cls: CharClass)
  {
    forall i :: 0 <= i < |s| ==> InClass(s[i], cls)
  }

  /** Length of the longest prefix of `cls` characters (what a greedy group consumes). */
  function Span(s: string, cls: CharClass): (n: nat)
    ensures n <= |s| && AllIn(s[..n], cls)
    ensures n < |s| ==> !InClass(s[n], cls)
  {
    if s == [] || !InClass(s[0], cls) then 0
    else
      var n := 1 + Span(s[1..], cls);
      assert s[..n] == [s[0]] + s[1..][..n - 1];
      n
  }

  /**
   * A greedy group of one or more `cls` characters followed by `tag`:
   * the group's text and the text after the tag. The tag's first
   * character is outside the class in every use, so backtracking into the
   * group could never produce another match. With an empty tag the text
   * after the group does not continue the class.
   */
  function Group(s: string, cls: CharClass, tag: string): Option<(string, string)>
  {
    var n := Span(s, cls);
    if n == 0 || !StartsWith(s[n..], tag) then None
    else Some((s[..n], s[n..][|tag|..]))
  }

  /** What a group match yields: class text, the tag, and the remainder. */
  lemma GroupSound(s: string, cls: CharClass, tag: string)
    requires Group(s, cls, tag).Some?
    ensures var (g, rest) := Group(s, cls, tag).value;
      |g| > 0 && AllIn(g, cls) && s == g + tag + rest &&
      (tag == [] ==> rest == [] || !InClass(rest[0], cls))
  {
    var n := Span(s, cls);
    assert s == s[..n] + tag + s[n..][|tag|..];
  }

  /** Matching a layout at the start of `name`, each group greedy. */
  function MatchLayout(l: Layout, name: string): Option<FileKey>
  {
    if !StartsWith(name, l.prefix) then None
    else MatchGroups(l, name[|l.prefix|..])
  }

  /** The four groups and their separators, after the prefix. */
  function MatchGroups(l: Layout, s0: string): Option<FileKey>
  {
    match Group(s0, Digits, l.afterSubject)
    case None => None
    case Some((subject, s1)) =>
      match MatchTask(l, s1)
      case None => None
      case Some((task, session, run)) => Some(FileKey(subject, task, session, run))
  }

  /** The task, session and run groups, after the subject's separator. */
  function MatchTask(l: Layout, s1: string): Option<(string, string, string)>
  {
    match Group(s1, Letters, l.afterTask)
    case None => None
    case Some((task, s2)) =>
      match MatchSession(l, s2)
      case None => None
      case Some((session, run)) => Some((task, session, run))
  }

  /** The session and run groups, after the task's separator. */
  function MatchSession(l: Layout, s2: string): Option<(string, string)>
  {
    match Group(s2, Digits, l.afterSession)
    case None => None
    case Some((session, s3)) =>
      match Group(s3, Digits, [])
      case None => None
      case Some((run, _)) => Some((session, run))
  }

  /**
   * `re.match` of `subjectBAP(\d+)_([A-Za-z]+)_session(\d+)_run(\d+)`,
   * anchored at the start only.
   */
  function ParseFileName(name: string): Option<FileKey>
  {
    MatchLayout(FileLayout, name)
  }

  lemma AllInDigits(s: string)
    ensures AllIn(s, Digits) <==> AllDigits(s)
  {
  }

  lemma AllInLetters(s: string)
    ensures AllIn(s, Letters) <==> AllLetters(s)
  {
  }

  /** A class run followed by text that does not continue the class. */
  lemma {:induction false} SpanOf(a: string, b: string, cls: CharClass)
    requires AllIn(a, cls)
    requires b == [] || !InClass(b[0], cls)
    ensures Span(a + b, cls) == |a|
  {
    if a != [] {
      assert (a + b)[1..] == a[1..] + b;
      SpanOf(a[1..], b, cls);
    }
  }

  lemma GroupOf(a: string, tag: string, rest: string, cls: CharClass)
    requires |a| > 0 && AllIn(a, cls)
    requires tag + rest == [] || !InClass((tag + rest)[0], cls)
    ensures Group(a + tag + rest, cls, tag) == Some((a, rest))
  {
    var s := a + tag + rest;
    assert s == a + (tag + rest);
    SpanOf(a, tag + rest, cls);
    assert s[..|a|] == a && s[|a|..] == tag + rest;
    assert (tag + rest)[..|tag|] == tag && (tag + rest)[|tag|..] == rest;
  }

  /** Each separator starts with a character the group before it cannot contain. */
  predicate Delimited(l: Layout)
  {
    |l.afterSubject| > 0 && !IsDigit(l.afterSubject[0]) &&
    |l.afterTask| > 0 && !IsLetter(l.afterTask[0]) &&
    |l.afterSession| > 0 && !IsDigit(l.afterSession[0])
  }

  /** Regrouping concatenations, one step at a time. */
  lemma Regroup(x: string, a: string, b: string, s: string)
    ensures x + (a + b + s) == x + a + b + s
  {
  }

  lemma Regroup1(x: string, a: string, s: string)
    ensures x + (a + s) == x + a + s
  {
  }

  lemma SplitConcat(a: string, b: string)
    ensures (a + b)[..|a|] == a && (a + b)[|a|..] == b
  {
  }

  lemma MatchSessionSound(l: Layout, s2: string) returns (rest: string)
    requires MatchSession(l, s2).Some?
    ensures var (session, run) := MatchSession(l, s2).value;
      |session| > 0 && AllIn(session, Digits) && |run| > 0 && AllIn(run, Digits) &&
      s2 == session + l.afterSession + (run + rest) && (rest == [] || !IsDigit(rest[0]))
  {
    GroupSound(s2, Digits, l.afterSession);
    var (session, s3) := Group(s2, Digits, l.afterSession).value;
    GroupSound(s3, Digits, []);
    var (run, r) := Group(s3, Digits, []).value;
    rest := r;
    assert s3 == run + rest;
  }

  lemma MatchTaskSound(l: Layout, s1: string) returns (rest: string)
    requires MatchTask(l, s1).Some?
    ensures var (task, session, run) := MatchTask(l, s1).value;
      |task| > 0 && AllIn(task, Letters) &&
      |session| > 0 && AllIn(session, Digits) && |run| > 0 && AllIn(run, Digits) &&
      s1 == task + l.afterTask + (session + l.afterSession + (run + rest)) && (rest == [] || !IsDigit(rest[0]))
  {
    GroupSound(s1, Letters, l.afterTask);
    var (task, s2) := Group(s1, Letters, l.afterTask).value;
    rest := MatchSessionSound(l, s2);
  }

  lemma MatchGroupsSound(l: Layout, s0: string) returns (rest: string)
    requires MatchGroups(l, s0).Some?
    ensures var k := MatchGroups(l, s0).value;
      |k.subject| > 0 && AllIn(k.subject, Digits) && |k.task| > 0 && AllIn(k.task, Letters) &&
      |k.session| > 0 && AllIn(k.session, Digits) && |k.run| > 0 && AllIn(k.run, Digits) &&
      s0 == k.subject + l.afterSubject + (k.task + l.afterTask + (k.session + l.afterSession + (k.run + rest))) &&
      (rest == [] || !IsDigit(rest[0]))
  {
    GroupSound(s0, Digits, l.afterSubject);
    var (subject, s1) := Group(s0, Digits, l.afterSubject).value;
    rest := MatchTaskSound(l, s1);
  }

  /** Right-nested and left-nested forms of a rendered key followed by more text. */
  lemma RenderRegroup(l: Layout, k: FileKey, rest: string)
    ensures l.prefix + (k.subject + l.afterSubject + (k.task + l.afterTask + (k.session + l.afterSession + (k.run + rest))))
      == Render(l, k) + rest
  {
    var s2 := k.session + l.afterSession + (k.run + rest);
    var s1 := k.task + l.afterTask + s2;
    Regroup(l.prefix, k.subject, l.afterSubject, s1);
    var x1 := l.prefix + k.subject + l.afterSubject;
    Regroup(x1, k.task, l.afterTask, s2);
    var x2 := x1 + k.task + l.afterTask;
    Regroup(x2, k.session, l.afterSession, k.run + rest);
    var x3 := x2 + k.session + l.afterSession;
    Regroup1(x3, k.run, rest);
  }

  lemma PrefixSplit(name: string, prefix: string)
    requires StartsWith(name, prefix)
    ensures name == prefix + name[|prefix|..]
  {
    assert name[..|prefix|] == prefix;
  }

  lemma MatchLayoutSound(l: Layout, name: string) returns (rest: string)
    requires MatchLayout(l, name).Some?
    ensures var k := MatchLayout(l, name).value;
      AllIn(k.subject, Digits) && AllIn(k.task, Letters) && AllIn(k.session, Digits) && AllIn(k.run, Digits) &&
      |k.subject| > 0 && |k.task| > 0 && |k.session| > 0 && |k.run| > 0 &&
      name == Render(l, k) + rest && (rest == [] || !IsDigit(rest[0]))
  {
    var k := MatchLayout(l, name).value;
    var s0 := name[|l.prefix|..];
    PrefixSplit(name, l.prefix);
    rest := MatchGroupsSound(l, s0);
    RenderRegroup(l, k, rest);
  }

  lemma MatchSessionComplete(l: Layout, session: string, run: string, rest: string)
    requires |l.afterSession| > 0 && !IsDigit(l.afterSession[0])
    requires |session| > 0 && AllIn(session, Digits) && |run| > 0 && AllIn(run, Digits)
    requires rest == [] || !IsDigit(rest[0])
    ensures MatchSession(l, session + l.afterSession + (run + rest)) == Some((session, run))
  {
    assert (l.afterSession + (run + rest))[0] == l.afterSession[0];
    GroupOf(session, l.afterSession, run + rest, Digits);
    var noTag: string := [];
    assert run + noTag == run;
    GroupOf(run, noTag, rest, Digits);
  }

  lemma MatchTaskComplete(l: Layout, task: string, session: string, run: string, rest: string)
    requires |l.afterTask| > 0 && !IsLetter(l.afterTask[0])
    requires |l.afterSession| > 0 && !IsDigit(l.afterSession[0])
    requires |task| > 0 && AllIn(task, Letters)
    requires |session| > 0 && AllIn(session, Digits) && |run| > 0 && AllIn(run, Digits)
    requires rest == [] || !IsDigit(rest[0])
    ensures MatchTask(l, task + l.afterTask + (session + l.afterSession + (run + rest))) == Some((task, session, run))
  {
    var s2 := session + l.afterSession + (run + rest);
    assert (l.afterTask + s2)[0] == l.afterTask[0];
    GroupOf(task, l.afterTask, s2, Letters);
    MatchSessionComplete(l, session, run, rest);
  }

  lemma MatchGroupsComplete(l: Layout, k: FileKey, rest: string)
    requires Delimited(l)
    requires AllIn(k.subject, Digits) && AllIn(k.task, Letters) && AllIn(k.session, Digits) && AllIn(k.run, Digits)
    requires |k.subject| > 0 && |k.task| > 0 && |k.session| > 0 && |k.run| > 0
    requires rest == [] || !IsDigit(rest[0])
    ensures MatchGroups(l, k.subject + l.afterSubject +
      (k.task + l.afterTask + (k.session + l.afterSession + (k.run + rest)))) == Some(k)
  {
    var s1 := k.task + l.afterTask + (k.session + l.afterSession + (k.run + rest));
    assert (l.afterSubject + s1)[0] == l.afterSubject[0];
    GroupOf(k.subject, l.afterSubject, s1, Digits);
    MatchTaskComplete(l, k.task, k.session, k.run, rest);
  }

  lemma MatchLayoutComplete(l: Layout, k: FileKey, rest: string)
    requires Delimited(l)
    requires AllIn(k.subject, Digits) && AllIn(k.task, Letters) && AllIn(k.session, Digits) && AllIn(k.run, Digits)
    requires |k.subject| > 0 && |k.task| > 0 && |k.session| > 0 && |k.run| > 0
    requires rest == [] || !IsDigit(rest[0])
    ensures MatchLayout(l, Render(l, k) + rest) == Some(k)
  {
    var s0 := k.subject + l.afterSubject + (k.task + l.afterTask + (k.session + l.afterSession + (k.run + rest)));
    RenderRegroup(l, k, rest);
    SplitConcat(l.prefix, s0);
    MatchGroupsComplete(l, k, rest);
  }

  /**
   * Soundness: a match yields well-formed groups, and the name is their
   * text followed by something that does not start with a digit.
   */
  lemma ParseSound(name: string)
    requires ParseFileName(name).Some?
    ensures WellFormedKey(ParseFileName(name).value)
    ensures exists rest :: name == KeyText(ParseFileName(name).value) + rest && (rest == [] || !IsDigit(rest[0]))
  {
    var k := ParseFileName(name).value;
    var rest := MatchLayoutSound(FileLayout, name);
    AllInDigits(k.subject);
    AllInLetters(k.task);
    AllInDigits(k.session);
    AllInDigits(k.run);
  }

  /**
   * Completeness: a well-formed key's text, followed by anything that does
   * not start with a digit (such as "_eyetrack_cleaned.mat"), parses back
   * to that key.
   */
  lemma ParseComplete(k: FileKey, rest: string)
    requires WellFormedKey(k)
    requires rest == [] || !IsDigit(rest[0])
    ensures ParseFileName(KeyText(k) + rest) == Some(k)
  {
    AllInDigits(k.subject);
    AllInLetters(k.task);
    AllInDigits(k.session);
    AllInDigits(k.run);
    MatchLayoutComplete(FileLayout, k, rest);
  }

  /** The two eye-tracking tasks. */
  datatype TaskCode = ADT | VDT

  /** `task.lower()` compared with the two known task names. */
  function MapTask(task: string): (code: Option<TaskCode>)
    ensures code == Some(ADT) <==> Lower(task) == "aoddball"
    ensures code == Some(VDT) <==> Lower(task) == "voddball"
    ensures code == None <==> Lower(task) != "aoddball" && Lower(task) != "voddball"
  {
    var t := Lower(task);
    if t == "aoddball" then Some(ADT)
    else if t == "voddball" then Some(VDT)
    else None
  }

  /** Task names that lower-case alike map to the same code, whatever their capitalisation. */
  lemma MapTaskSameLower(s: string, t: string)
    ensures Lower(s) == Lower(t) ==> MapTask(s) == MapTask(t)
  {
  }

  /** Instances: the capitalisations seen in file names. */
  lemma MapTaskIgnoresCase()
    ensures MapTask("Aoddball") == MapTask("AODDBALL") == MapTask("aoddball") == Some(ADT)
    ensures MapTask("Voddball") == MapTask("voddball") == Some(VDT)
    ensures MapTask("Oddball") == None
  {
    assert Lower("Aoddball") == "aoddball";
    assert Lower("AODDBALL") == "aoddball";
    assert Lower("aoddball") == "aoddball";
    assert Lower("Voddball") == "voddball";
    assert Lower("voddball") == "voddball";
  }

  /** `os.path.basename`: the text after the last '/'. */
  function Basename(path: string): (name: string)
    ensures |name| <= |path|
  {
    if path == [] || path[|path| - 1] == '/' then []
    else Basename(path[..|path| - 1]) + [path[|path| - 1]]
  }

  /** The base name is the longest suffix of the path without a '/'. */
  lemma {:induction false} BasenameSuffix(path: string)
    ensures var name := Basename(path);
      name == path[|path| - |name|..] &&
      (forall i :: 0 <= i < |name| ==> name[i] != '/') &&
      (|name| < |path| ==> path[|path| - |name| - 1] == '/')
  {
    if path != [] && path[|path| - 1] != '/' {
      var init, last := path[..|path| - 1], path[|path| - 1];
      BasenameSuffix(init);
      var prev := Basename(init);
      var name := Basename(path);
      assert name == prev + [last];
      var from := |init| - |prev|;
      assert path == init + [last];
      assert path[from..] == init[from..] + [last];
      assert forall i :: 0 <= i < |name| ==> name[i] == (if i < |prev| then prev[i] else last);
      if from > 0 {
        assert path[from - 1] == init[from - 1];
      }
    }
  }

  /** One entry of a subject's task list. */
  datatype FileInfo = FileInfo(filePath: string, session: string, run: string, filename: string)

  datatype TaskFiles = TaskFiles(adt: seq<FileInfo>, vdt: seq<FileInfo>)

  /** The match for a path's base name. */
  function KeyOf(path: string): Option<FileKey>
  {
    ParseFileName(Basename(path))
  }

  /**
   * The match of every path's base name, in path order. The grouping
   * below is stated over these results, apart from the parser itself.
   */
  function KeysOf(paths: seq<string>): (keys: seq<Option<FileKey>>)
    ensures |keys| == |paths|
  {
    if paths == [] then [] else KeysOf(paths[..|paths| - 1]) + [KeyOf(paths[|paths| - 1])]
  }

  lemma {:induction false} KeysOfIndex(paths: seq<string>, i: nat)
    requires i < |paths|
    ensures KeysOf(paths)[i] == KeyOf(paths[i])
  {
    if i < |paths| - 1 {
      KeysOfIndex(paths[..|paths| - 1], i);
    }
  }

  /** Subject ids of every matching path, known task or not. */
  function SubjectIds(keys: seq<Option<FileKey>>): set<string>
  {
    if keys == [] then {}
    else
      var k := keys[|keys| - 1];
      SubjectIds(keys[..|keys| - 1]) + (if k.Some? then {k.value.subject} else {})
  }

  /** The entry a matching path of this subject and task contributes, if any. */
  function EntryFor(path: string, k: Option<FileKey>, subject: string, code: TaskCode): seq<FileInfo>
  {
    if k.Some? && k.value.subject == subject && MapTask(k.value.task) == Some(code)
    then [FileInfo(path, k.value.session, k.value.run, Basename(path))]
    else []
  }

  /** The entries, in path order, of one subject's recordings of one task. */
  function FilesFor(paths: seq<string>, keys: seq<Option<FileKey>>, subject: string, code: TaskCode): seq<FileInfo>
    requires |keys| == |paths|
  {
    if paths == [] then []
    else
      var n := |paths| - 1;
      FilesFor(paths[..n], keys[..n], subject, code) + EntryFor(paths[n], keys[n], subject, code)
  }

  /** A subject is listed exactly when some path matches with its id. */
  lemma {:induction false} SubjectIdsIff(keys: seq<Option<FileKey>>, id: string)
    ensures id in SubjectIds(keys) <==>
      exists i :: 0 <= i < |keys| && keys[i].Some? && keys[i].value.subject == id
  {
    if keys != [] {
      var init := keys[..|keys| - 1];
      SubjectIdsIff(init, id);
      if exists i :: 0 <= i < |init| && init[i].Some? && init[i].value.subject == id {
        var i :| 0 <= i < |init| && init[i].Some? && init[i].value.subject == id;
        assert keys[i] == init[i];
      }
    }
  }

  /** A subject with no matching path has no entries. */
  lemma {:induction false} FilesForUnlisted(paths: seq<string>, keys: seq<Option<FileKey>>, id: string, code: TaskCode)
    requires |keys| == |paths|
    requires id !in SubjectIds(keys)
    ensures FilesFor(paths, keys, id, code) == []
  {
    if paths != [] {
      var n := |paths| - 1;
      FilesForUnlisted(paths[..n], keys[..n], id, code);
    }
  }

  /**
   * Every listed entry comes from a matching path of that subject whose
   * task maps to the list's code, and records that path's session, run and
   * base name.
   */
  ghost predicate EntryOf(info: FileInfo, paths: seq<string>, keys: seq<Option<FileKey>>, subject: string, code: TaskCode)
    requires |keys| == |paths|
  {
    exists i :: 0 <= i < |paths| && info in EntryFor(paths[i], keys[i], subject, code)
  }

  predicate WellFormedInfo(info: FileInfo)
  {
    |info.session| > 0 && AllDigits(info.session) && |info.run| > 0 && AllDigits(info.run)
  }

  predicate WellFormedKeys(keys: seq<Option<FileKey>>)
  {
    forall i :: 0 <= i < |keys| && keys[i].Some? ==> WellFormedKey(keys[i].value)
  }

  /** Every match of the parser is well formed. */
  lemma KeysWellFormed(paths: seq<string>)
    ensures WellFormedKeys(KeysOf(paths))
  {
    forall i | 0 <= i < |paths| && KeysOf(paths)[i].Some?
      ensures WellFormedKey(KeysOf(paths)[i].value)
    {
      KeysOfIndex(paths, i);
      ParseSound(Basename(paths[i]));
    }
  }

  lemma {:induction false} FilesForSound(paths: seq<string>, keys: seq<Option<FileKey>>, subject: string, code: TaskCode)
    requires |keys| == |paths| && WellFormedKeys(keys)
    ensures |FilesFor(paths, keys, subject, code)| <= |paths|
    ensures forall info :: info in FilesFor(paths, keys, subject, code) ==>
      EntryOf(info, paths, keys, subject, code) && WellFormedInfo(info)
  {
    if paths != [] {
      var n := |paths| - 1;
      var init, initKeys := paths[..n], keys[..n];
      FilesForSound(init, initKeys, subject, code);
      forall info | info in FilesFor(paths, keys, subject, code)
        ensures EntryOf(info, paths, keys, subject, code) && WellFormedInfo(info)
      {
        if info in FilesFor(init, initKeys, subject, code) {
          var i :| 0 <= i < n && info in EntryFor(init[i], initKeys[i], subject, code);
          assert paths[i] == init[i] && keys[i] == initKeys[i];
        } else {
          assert info in EntryFor(paths[n], keys[n], subject, code);
        }
      }
    }
  }

  /** The well-formedness every entry of a detected subject map has. */
  ghost predicate WellFormedSubjects(subjects: map<string, TaskFiles>)
  {
    forall id, info :: id in subjects && (info in subjects[id].adt || info in subjects[id].vdt) ==>
      WellFormedInfo(info)
  }

  lemma SubjectIdsSnoc(keys: seq<Option<FileKey>>, k: Option<FileKey>)
    ensures SubjectIds(keys + [k]) == SubjectIds(keys) + (if k.Some? then {k.value.subject} else {})
  {
    assert (keys + [k])[..|keys|] == keys;
  }

  lemma FilesForSnoc(paths: seq<string>, keys: seq<Option<FileKey>>, path: string, k: Option<FileKey>,
                     id: string, code: TaskCode)
    requires |keys| == |paths|
    ensures FilesFor(paths + [path], keys + [k], id, code) == FilesFor(paths, keys, id, code) + EntryFor(path, k, id, code)
  {
    assert (paths + [path])[..|paths|] == paths && (keys + [k])[..|keys|] == keys;
  }

  lemma KeysOfSnoc(paths: seq<string>, i: nat)
    requires i < |paths|
    ensures paths[..i + 1] == paths[..i] + [paths[i]]
    ensures KeysOf(paths[..i + 1]) == KeysOf(paths[..i]) + [ParseFileName(Basename(paths[i]))]
  {
    assert paths[..i + 1][..i] == paths[..i];
  }

  /**
   * The map the detection holds once it has seen `paths`, whose matches are
   * `keys`: one key per matching subject, and for each the entries of its
   * two tasks in path order.
   */
  ghost predicate Detected(subjects: map<string, TaskFiles>, paths: seq<string>, keys: seq<Option<FileKey>>)
    requires |keys| == |paths|
  {
    && subjects.Keys == SubjectIds(keys)
    && forall id :: id in subjects ==>
         subjects[id] == TaskFiles(FilesFor(paths, keys, id, ADT), FilesFor(paths, keys, id, VDT))
  }

  /**
   * One pass of the detection loop, for a path whose base name is
   * `filename` and whose match is `m`. A subject's key is created at its
   * first matching path, before an unknown task is skipped, so such a
   * subject is listed with the lists it has.
   */
  method RecordPath(subjects: map<string, TaskFiles>, filePath: string, filename: string, m: Option<FileKey>,
                    ghost seen: seq<string>, ghost seenKeys: seq<Option<FileKey>>)
    returns (updated: map<string, TaskFiles>)
    requires filename == Basename(filePath)
    requires |seenKeys| == |seen| && Detected(subjects, seen, seenKeys)
    ensures Detected(updated, seen + [filePath], seenKeys + [m])
  {
    updated := subjects;
    if m.Some? {
      var k := m.value;
      if k.subject !in updated {
        FilesForUnlisted(seen, seenKeys, k.subject, ADT);
        FilesForUnlisted(seen, seenKeys, k.subject, VDT);
        updated := updated[k.subject := TaskFiles([], [])];
      }
      var code := MapTask(k.task);
      if code.Some? {
        var entry := FileInfo(filePath, k.session, k.run, filename);
        var tf := updated[k.subject];
        if code.value == ADT {
          updated := updated[k.subject := tf.(adt := tf.adt + [entry])];
        } else {
          updated := updated[k.subject := tf.(vdt := tf.vdt + [entry])];
        }
      }
    }
    SubjectIdsSnoc(seenKeys, m);
    forall id | id in updated
      ensures updated[id] == TaskFiles(FilesFor(seen + [filePath], seenKeys + [m], id, ADT),
                                       FilesFor(seen + [filePath], seenKeys + [m], id, VDT))
    {
      FilesForSnoc(seen, seenKeys, filePath, m, id, ADT);
      FilesForSnoc(seen, seenKeys, filePath, m, id, VDT);
    }
  }

  /** `detect_available_subjects` over the paths the glob returned. */
  method DetectAvailableSubjects(paths: seq<string>) returns (subjects: map<string, TaskFiles>)
    ensures subjects.Keys == SubjectIds(KeysOf(paths))
    ensures forall id :: id in subjects ==>
      subjects[id] == TaskFiles(FilesFor(paths, KeysOf(paths), id, ADT), FilesFor(paths, KeysOf(paths), id, VDT))
  {
    subjects := map[];
    var i := 0;
    while i < |paths|
      invariant 0 <= i <= |paths|
      invariant Detected(subjects, paths[..i], KeysOf(paths[..i]))
    {
      var filePath := paths[i];
      var filename := Basename(filePath);
      var m := ParseFileName(filename);
      subjects := RecordPath(subjects, filePath, filename, m, paths[..i], KeysOf(paths[..i]));
      KeysOfSnoc(paths, i);
      i := i + 1;
    }
    assert paths[..i] == paths;
  }

  /** Everything the detection lists is well formed (digit sessions and runs). */
  lemma DetectedWellFormed(paths: seq<string>, subjects: map<string, TaskFiles>)
    requires forall id :: id in subjects ==>
      subjects[id] == TaskFiles(FilesFor(paths, KeysOf(paths), id, ADT), FilesFor(paths, KeysOf(paths), id, VDT))
    ensures WellFormedSubjects(subjects)
  {
    KeysWellFormed(paths);
    forall id | id in subjects
      ensures forall info :: info in subjects[id].adt || info in subjects[id].vdt ==> WellFormedInfo(info)
    {
      FilesForSound(paths, KeysOf(paths), id, ADT);
      FilesForSound(paths, KeysOf(paths), id, VDT);
    }
  }
}
