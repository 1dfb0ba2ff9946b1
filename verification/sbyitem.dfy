/** The status tree of the GUI: one `File` per `.sby` file, one `Task` per
    task it declares.

    A run of task `T` of `<dir>/<B>.sby` writes into `<dir>/<B>_T/`; a file
    without tasks writes into `<dir>/<B>/`. Inside, a JUnit-style result
    document gives the status colour, the time and the log, and `engine_0/`
    holds the waveforms. A file's colour and percentage roll up from its
    tasks. Re-reading a file reconciles its task list with the fresh one.

    The disk is an input (`Disk`): which directories exist and what they
    list, which result documents exist and what they say, and the text of
    the `.sby` files. */
module SbyItem {
  import opened Wrappers
  import opened SbyConfig

  // ---------------------------------------------------------------------
  // Status colours
  // ---------------------------------------------------------------------

  /** No verdict: not run, incomplete, or (for a file) mixed results. */
  const Pending := 0
  /** Passed: painted green. */
  const Passed := 1
  /** Failed: painted red. */
  const Failed := 2

  // ---------------------------------------------------------------------
  // Paths
  // ---------------------------------------------------------------------

  /** A path split into its parent directory and its last component. */
  datatype FilePath = FilePath(dir: string, name: string)

  function FullPath(p: FilePath): string {
    p.dir + "/" + p.name
  }

  /** Position of the last occurrence of `c` in `s`, if any. */
  function LastIndex(s: string, c: char): (r: Option<nat>)
    ensures r.None? ==> forall j | 0 <= j < |s| :: s[j] != c
    ensures r.Some? ==> r.value < |s| && s[r.value] == c
    ensures r.Some? ==> forall j | r.value < j < |s| :: s[j] != c
    decreases |s|
  {
    if |s| == 0 then None
    else if s[|s| - 1] == c then Some(|s| - 1)
    else LastIndex(s[..|s| - 1], c)
  }

  /** Qt's `completeBaseName`: the name without its last `.`-suffix. */
  function CompleteBaseName(name: string): (b: string)
    ensures |b| <= |name| && b == name[..|b|]
    ensures b == name || (name[|b|] == '.' && forall j | |b| < j < |name| :: name[j] != '.')
    ensures (forall j | 0 <= j < |name| :: name[j] != '.') ==> b == name
  {
    match LastIndex(name, '.')
    case None => name
    case Some(i) => name[..i]
  }

  /** Adding an extension and taking the complete base name are inverse. */
  lemma BaseNameOfExtended(b: string, ext: string)
    requires forall j | 0 <= j < |ext| :: ext[j] != '.'
    ensures CompleteBaseName(b + "." + ext) == b
  {
    var n := b + "." + ext;
    var r := CompleteBaseName(n);
    assert n[|b|] == '.';
    assert forall j | |b| < j < |n| :: n[j] == ext[j - |b| - 1];
    assert n[..|b|] == b;
  }

  /** Splitting a full path at its last `/`: the inverse of `FullPath`. */
  function SplitPath(s: string): (p: FilePath)
    ensures forall j | 0 <= j < |p.name| :: p.name[j] != '/'
  {
    match LastIndex(s, '/')
    case None => FilePath("", s)
    case Some(i) => FilePath(s[..i], s[i + 1..])
  }

  lemma SplitFullPath(p: FilePath)
    requires forall j | 0 <= j < |p.name| :: p.name[j] != '/'
    ensures SplitPath(FullPath(p)) == p
  {
    var s := FullPath(p);
    var k := |p.dir|;
    assert s[k] == '/';
    assert forall j | k < j < |s| :: s[j] == p.name[j - k - 1];
    var i := LastIndex(s, '/');
    assert i == Some(k);
    assert s[..k] == p.dir;
    assert s[k + 1..] == p.name;
  }

  /** The directory a run writes to: `<dir>/<B>_T` for task `T`, `<dir>/<B>`
      for a file without tasks, with `B` the complete base name of the file. */
  function RunDir(sby: FilePath, task: Option<string>): FilePath {
    var stem := CompleteBaseName(sby.name);
    match task
    case None => FilePath(sby.dir, stem)
    case Some(t) => FilePath(sby.dir, stem + "_" + t)
  }

  /** The path inside a run directory that is named like the directory
      (`indir`); results are looked up next to it. */
  function RunStem(run: FilePath): FilePath {
    FilePath(FullPath(run), run.name)
  }

  /** The result document next to `indir`, as the code derives it: the
      complete base name of `indir` plus `.xml`. */
  function XmlFileAsWritten(indir: FilePath): FilePath {
    FilePath(indir.dir, CompleteBaseName(indir.name) + ".xml")
  }

  /** The result document next to `indir`: `indir` plus `.xml`. */
  function XmlFile(indir: FilePath): FilePath {
    FilePath(indir.dir, indir.name + ".xml")
  }

  /** The waveform directory of the first engine. */
  function EngineDir(indir: FilePath): FilePath {
    FilePath(indir.dir, "engine_0")
  }

  /** Where the results of task `T` of `<dir>/<B>.sby` live, and where those
      of a file without tasks live. */
  lemma ResultPaths(sby: FilePath, task: Option<string>)
    ensures
      var n := if task.Some? then CompleteBaseName(sby.name) + "_" + task.value else CompleteBaseName(sby.name);
      var indir := RunStem(RunDir(sby, task));
      && FullPath(RunDir(sby, task)) == sby.dir + "/" + n
      && FullPath(XmlFile(indir)) == sby.dir + "/" + n + "/" + n + ".xml"
      && FullPath(EngineDir(indir)) == sby.dir + "/" + n + "/engine_0"
  {
  }

  /** The derivation as written finds the intended document whenever the
      run directory's name has no `.`. */
  lemma XmlFileAsWrittenAgrees(indir: FilePath)
    requires forall j | 0 <= j < |indir.name| :: indir.name[j] != '.'
    ensures XmlFileAsWritten(indir) == XmlFile(indir)
  {
  }

  /** ... and misses it otherwise: for task `t` of `<a>.<v>.sby` it looks
      for `<a>.xml` instead of `<a>.<v>_<t>.xml` (with `demo`, `v2`, `T`:
      `demo.v2_T/demo.xml` instead of `demo.v2_T/demo.v2_T.xml`). */
  lemma XmlFileAsWrittenMisses(dir: string, a: string, v: string, t: string)
    requires forall j | 0 <= j < |v| :: v[j] != '.'
    requires forall j | 0 <= j < |t| :: t[j] != '.'
    ensures
      var indir := RunStem(RunDir(FilePath(dir, a + "." + v + ".sby"), Some(t)));
      && XmlFileAsWritten(indir).name == a + ".xml"
      && XmlFile(indir).name == a + "." + v + "_" + t + ".xml"
      && XmlFileAsWritten(indir) != XmlFile(indir)
  {
    assert a + "." + v + ".sby" == (a + "." + v) + "." + "sby";
    BaseNameOfExtended(a + "." + v, "sby");
    var rest := v + "_" + t;
    assert forall j | 0 <= j < |rest| :: rest[j] != '.' by {
      forall j | 0 <= j < |rest| ensures rest[j] != '.' {
        if j < |v| { assert rest[j] == v[j]; }
        else if j > |v| { assert rest[j] == t[j - |v| - 1]; }
      }
    }
    assert a + "." + v + "_" + t == a + "." + rest;
    BaseNameOfExtended(a, rest);
    assert |a + ".xml"| < |a + "." + v + "_" + t + ".xml"|;
  }

  // ---------------------------------------------------------------------
  // Disk and result documents
  // ---------------------------------------------------------------------

  /** The first `testsuite` element's counts, each absent when the attribute is. */
  datatype Suite = Suite(errors: Option<int>, failures: Option<int>)

  /** The first `testcase` element's `time` and `status`. */
  datatype Case = Case(time: Option<int>, status: Option<string>)

  /** What the result document holds; a document that does not parse has
      no elements at all. */
  datatype ResultDoc = ResultDoc(suite: Option<Suite>, testcase: Option<Case>, systemOut: Option<string>)

  /** The file system as the model sees it, keyed by full path: existing
      directories with their entry names, existing result documents, and
      the lines of readable `.sby` files. */
  datatype Disk = Disk(
    dirs: map<string, seq<string>>,
    docs: map<string, ResultDoc>,
    sources: map<string, seq<string>>)

  /** The status fields every item carries. */
  datatype Status = Status(
    color: int,
    status: string,
    percentage: int,
    timeSpent: int,          // -1 when unknown
    log: string)

  /** A new item: no time, no log; colour and percentage start at 0. */
  const Fresh := Status(Pending, "", 0, -1, "")

  /** The result document next to `indir`, if it exists. */
  function DocAt(disk: Disk, indir: FilePath): Option<ResultDoc> {
    var path := FullPath(XmlFile(indir));
    if path in disk.docs then Some(disk.docs[path]) else None
  }

  /** The first testcase carries a `status`: the run reached a verdict. */
  predicate HasVerdict(d: ResultDoc) {
    d.testcase.Some? && d.testcase.value.status.Some?
  }

  /** The verdict is clean: the suite reports no errors and no failures
      (an absent count reads as 0). */
  predicate Clean(d: ResultDoc) {
    && (d.suite.None? || d.suite.value.errors.None? || d.suite.value.errors.value == 0)
    && (d.suite.None? || d.suite.value.failures.None? || d.suite.value.failures.value == 0)
  }

  /** `updateFromXML`: forgets time, log and colour, then reads them back from
      the result document next to `indir`. Status and percentage change
      only when the document reaches a verdict. */
  function UpdateFromXml(st: Status, disk: Disk, indir: FilePath): (r: Status)
    ensures r.color == Passed <==> DocAt(disk, indir).Some? && HasVerdict(DocAt(disk, indir).value) && Clean(DocAt(disk, indir).value)
    ensures r.color == Failed <==> DocAt(disk, indir).Some? && HasVerdict(DocAt(disk, indir).value) && !Clean(DocAt(disk, indir).value)
    ensures r.color == Pending <==> DocAt(disk, indir).None? || !HasVerdict(DocAt(disk, indir).value)
    ensures r.color != Pending ==> r.percentage == 100
    ensures r.color == Pending ==> r.percentage == st.percentage && r.status == st.status
    ensures DocAt(disk, indir).None? ==> r == st.(color := Pending, timeSpent := -1, log := "")
    ensures DocAt(disk, indir).Some? && HasVerdict(DocAt(disk, indir).value) ==>
      r.status == DocAt(disk, indir).value.testcase.value.status.value
    ensures DocAt(disk, indir).Some? ==>
      var d := DocAt(disk, indir).value;
      r.timeSpent == if d.testcase.Some? && d.testcase.value.time.Some? then d.testcase.value.time.value else -1
    ensures DocAt(disk, indir).Some? ==>
      var d := DocAt(disk, indir).value;
      r.log == if d.systemOut.Some? then d.systemOut.value else ""
  {
    var reset := st.(timeSpent := -1, log := "", color := Pending);
    match DocAt(disk, indir)
    case None => reset
    case Some(d) =>
      var errors := if d.suite.Some? && d.suite.value.errors.Some? then d.suite.value.errors.value else 0;
      var failures := if d.suite.Some? && d.suite.value.failures.Some? then d.suite.value.failures.value else 0;
      var timed := if d.testcase.Some? && d.testcase.value.time.Some? then reset.(timeSpent := d.testcase.value.time.value) else reset;
      var judged :=
        if d.testcase.Some? && d.testcase.value.status.Some? then
          timed.(percentage := 100, status := d.testcase.value.status.value,
                 color := if errors == 0 && failures == 0 then Passed else Failed)
        else timed;
      if d.systemOut.Some? then judged.(log := d.systemOut.value) else judged
  }

  /** Reading the same document twice is reading it once. */
  lemma UpdateFromXmlIdempotent(st: Status, disk: Disk, indir: FilePath)
    ensures UpdateFromXml(UpdateFromXml(st, disk, indir), disk, indir) == UpdateFromXml(st, disk, indir)
  {
  }

  /** Colour, time and log come from the document alone: two items that
      agree on status and percentage end up equal. */
  lemma UpdateFromXmlForgets(a: Status, b: Status, disk: Disk, indir: FilePath)
    requires a.status == b.status && a.percentage == b.percentage
    ensures UpdateFromXml(a, disk, indir) == UpdateFromXml(b, disk, indir)
  {
  }

  // ---------------------------------------------------------------------
  // Waveforms
  // ---------------------------------------------------------------------

  /** ASCII case folding, as Qt's case-insensitive name filters use it. */
  function Fold(c: char): char {
    if 'A' <= c <= 'Z' then (c as int + 32) as char else c
  }

  /** A directory entry the `*.vcd` name filter lists: not hidden, and ending
      in `.vcd` in any letter case. */
  predicate IsVcdName(n: string) {
    && |n| >= 4 && n[0] != '.'
    && Fold(n[|n| - 4]) == '.' && Fold(n[|n| - 3]) == 'v'
    && Fold(n[|n| - 2]) == 'c' && Fold(n[|n| - 1]) == 'd'
  }

  /** The waveform entries of a listing, in listing order, as paths in `dir`. */
  function SelectVcd(dir: string, names: seq<string>): (r: seq<FilePath>)
    ensures |r| <= |names|
    ensures forall k | 0 <= k < |r| :: r[k].dir == dir && IsVcdName(r[k].name) && r[k].name in names
    ensures forall n | n in names && IsVcdName(n) :: FilePath(dir, n) in r
    decreases |names|
  {
    if |names| == 0 then []
    else
      var rest := SelectVcd(dir, names[1..]);
      assert forall n | n in names && n != names[0] :: n in names[1..];
      if IsVcdName(names[0]) then [FilePath(dir, names[0])] + rest else rest
  }

  /** The waveforms found in `engine`: none when the directory is missing. */
  function VcdFiles(disk: Disk, engine: FilePath): (r: seq<FilePath>)
    ensures FullPath(engine) !in disk.dirs ==> r == []
    ensures forall k | 0 <= k < |r| :: r[k].dir == FullPath(engine) && IsVcdName(r[k].name)
    ensures FullPath(engine) in disk.dirs ==>
      forall k | 0 <= k < |r| :: r[k].name in disk.dirs[FullPath(engine)]
    ensures FullPath(engine) in disk.dirs ==>
      forall n | n in disk.dirs[FullPath(engine)] && IsVcdName(n) :: FilePath(FullPath(engine), n) in r
  {
    var path := FullPath(engine);
    if path in disk.dirs then SelectVcd(path, disk.dirs[path]) else []
  }

  /** What reading a run directory yields, shared by `updateTask` and the
      file's own `update`: colour and percentage reset to 0 and no waveforms
      when the run directory is missing; otherwise the result document and
      the waveforms of `engine_0`. */
  function ReadRun(st: Status, disk: Disk, run: FilePath): (r: (Status, seq<FilePath>))
    ensures FullPath(run) !in disk.dirs ==> r.0 == st.(color := Pending, percentage := 0) && r.1 == []
    ensures Pending <= r.0.color <= Failed
    ensures r.0.color != Pending ==> r.0.percentage == 100
    ensures r.0.percentage == 0 || r.0.percentage == 100
    ensures forall k | 0 <= k < |r.1| ::
      r.1[k].dir == FullPath(EngineDir(RunStem(run))) && IsVcdName(r.1[k].name)
    ensures FullPath(run) in disk.dirs ==>
      && r.0 == UpdateFromXml(st.(color := Pending, percentage := 0), disk, RunStem(run))
      && r.1 == VcdFiles(disk, EngineDir(RunStem(run)))
  {
    var reset := st.(color := Pending, percentage := 0);
    if FullPath(run) !in disk.dirs then (reset, [])
    else
      var indir := RunStem(run);
      (UpdateFromXml(reset, disk, indir), VcdFiles(disk, EngineDir(indir)))
  }
  /** Reading the run of task `T` of `<dir>/<B>.sby` (or of the file itself,
      `T` absent), in terms of the paths on disk: with `n` the run name
      (`<B>_T` or `<B>`), nothing is read when `<dir>/<n>` is missing; the
      verdict is `<dir>/<n>/<n>.xml`'s; and the waveforms are exactly the
      `*.vcd` entries of `<dir>/<n>/engine_0`. */
  lemma RunReadsResults(st: Status, disk: Disk, sby: FilePath, task: Option<string>)
    ensures
      var n := if task.Some? then CompleteBaseName(sby.name) + "_" + task.value else CompleteBaseName(sby.name);
      var base := sby.dir + "/" + n;
      var xml := base + "/" + n + ".xml";
      var engine := base + "/engine_0";
      var r := ReadRun(st, disk, RunDir(sby, task));
      && (base !in disk.dirs ==> r.0.color == Pending && r.0.percentage == 0 && r.1 == [])
      && (base in disk.dirs ==>
            && (r.0.color == Passed <==> xml in disk.docs && HasVerdict(disk.docs[xml]) && Clean(disk.docs[xml]))
            && (r.0.color == Failed <==> xml in disk.docs && HasVerdict(disk.docs[xml]) && !Clean(disk.docs[xml]))
            && (engine !in disk.dirs ==> r.1 == [])
            && (forall k | 0 <= k < |r.1| :: FullPath(r.1[k]) == engine + "/" + r.1[k].name && IsVcdName(r.1[k].name))
            && (engine in disk.dirs ==>
                  && (forall k | 0 <= k < |r.1| :: r.1[k].name in disk.dirs[engine])
                  && (forall e | e in disk.dirs[engine] && IsVcdName(e) :: FilePath(engine, e) in r.1)))
  {
    ResultPaths(sby, task);
  }


  // ---------------------------------------------------------------------
  // Tasks and files
  // ---------------------------------------------------------------------

  /** A task of a file: the file's path, its name, its resolved configuration
      and file list, its status and its waveforms. */
  datatype Task = Task(
    path: FilePath,
    name: string,
    content: seq<string>,
    files: seq<string>,
    st: Status,
    vcd: seq<FilePath>)

  /** `get_config_files(task)`: the files a configuration names for a task.
      The parser that provides it is not part of this model. */
  type FilesOf = (Stream, string) -> seq<string>

  /** A `.sby` file with its parser, its tasks in creation order, the set of
      their names, its file list, status and waveforms. */
  datatype SbyFile = SbyFile(
    path: FilePath,
    parser: Parser,
    tasks: seq<Task>,
    tasksList: set<string>,
    files: seq<string>,
    st: Status,
    vcd: seq<FilePath>)

  /** A file as constructed, before `parse`. */
  function NewFile(path: FilePath): SbyFile {
    SbyFile(path, EmptyParser, [], {}, [], Fresh, [])
  }

  /** The file's text as a stream: unopened when it cannot be read. */
  function SourceOf(disk: Disk, p: FilePath): Stream {
    var path := FullPath(p);
    if path in disk.sources then Opened(disk.sources[path]) else Unopened
  }

  /** `get_config_content(task)`: the configuration resolved for `task`;
      nothing when the text cannot be read or does not resolve. */
  function ConfigContent(input: Stream, task: string, hook: Hook): seq<string> {
    match input
    case Unopened => []
    case Opened(lines) =>
      match ReadSbyConfig(lines, task, hook)
      case Failure(_) => []
      case Success(c) => c.cfgdata
  }

  function MakeTask(sby: FilePath, name: string, input: Stream, hook: Hook, filesOf: FilesOf): Task {
    Task(sby, name, ConfigContent(input, name, hook), filesOf(input, name), Fresh, [])
  }

  /** One new task per name, in order. */
  function MakeTasks(sby: FilePath, names: seq<string>, input: Stream, hook: Hook, filesOf: FilesOf): (r: seq<Task>)
    ensures |r| == |names|
    ensures forall i | 0 <= i < |names| :: r[i] == MakeTask(sby, names[i], input, hook, filesOf)
  {
    seq(|names|, i requires 0 <= i < |names| => MakeTask(sby, names[i], input, hook, filesOf))
  }

  function Names(tasks: seq<Task>): set<string> {
    set t | t in tasks :: t.name
  }

  function NameSet(names: seq<string>): set<string> {
    set n | n in names
  }

  lemma NamesOfMade(sby: FilePath, names: seq<string>, input: Stream, hook: Hook, filesOf: FilesOf)
    ensures Names(MakeTasks(sby, names, input, hook, filesOf)) == NameSet(names)
  {
    var ts := MakeTasks(sby, names, input, hook, filesOf);
    forall n | n in NameSet(names) ensures n in Names(ts) {
      var i :| 0 <= i < |names| && names[i] == n;
      assert ts[i].name == n;
    }
  }

  lemma NamesOfAppend(a: seq<Task>, b: seq<Task>)
    ensures Names(a + b) == Names(a) + Names(b)
  {
    forall t | t in a + b ensures t in a || t in b {
    }
  }

  /** `haveTasks`: the parser found at least one task. */
  predicate HaveTasks(f: SbyFile) {
    |f.parser.tasklist| != 0
  }

  /** The file's task-name set matches its task list (what `parse` and
      `refresh` maintain). */
  predicate Coherent(f: SbyFile) {
    f.tasksList == Names(f.tasks)
  }

  /** `parse`: reads the file, appends one task per task name in order (with
      its resolved configuration and files), records the names, and, for a
      file without tasks, takes the file list for no task in particular. */
  function ParseFile(f: SbyFile, disk: Disk, hook: Hook, filesOf: FilesOf): (r: SbyFile)
    ensures r.parser == Parse(SourceOf(disk, f.path)).parser
    ensures |r.tasks| == |f.tasks| + |r.parser.tasklist| && r.tasks[..|f.tasks|] == f.tasks
    ensures forall i | 0 <= i < |r.parser.tasklist| ::
      var t := r.tasks[|f.tasks| + i];
      && t.path == f.path && t.name == r.parser.tasklist[i] && t.st == Fresh && t.vcd == []
      && t.content == ConfigContent(SourceOf(disk, f.path), t.name, hook)
      && t.files == filesOf(SourceOf(disk, f.path), t.name)
    ensures r.tasksList == f.tasksList + NameSet(r.parser.tasklist)
    ensures !HaveTasks(r) ==> r.files == filesOf(SourceOf(disk, f.path), "")
    ensures HaveTasks(r) ==> r.files == f.files
    ensures r.path == f.path && r.st == f.st && r.vcd == f.vcd
  {
    var input := SourceOf(disk, f.path);
    var parser := Parse(input).parser;
    var made := MakeTasks(f.path, parser.tasklist, input, hook, filesOf);
    var r := f.(parser := parser, tasks := f.tasks + made, tasksList := f.tasksList + NameSet(parser.tasklist));
    assert r.tasks[..|f.tasks|] == f.tasks;
    if |parser.tasklist| == 0 then r.(files := filesOf(input, "")) else r
  }

  /** A freshly parsed file is coherent, has tasks exactly when the parser
      does, and names its tasks after the parser's task list. */
  lemma ParseNewFile(path: FilePath, disk: Disk, hook: Hook, filesOf: FilesOf)
    ensures
      var r := ParseFile(NewFile(path), disk, hook, filesOf);
      && Coherent(r)
      && (HaveTasks(r) <==> |r.tasks| > 0)
      && r.tasksList == NameSet(Parse(SourceOf(disk, path)).parser.tasklist)
  {
    var input := SourceOf(disk, path);
    var r := ParseFile(NewFile(path), disk, hook, filesOf);
    assert r.tasks == [] + MakeTasks(path, r.parser.tasklist, input, hook, filesOf);
    NamesOfMade(path, r.parser.tasklist, input, hook, filesOf);
  }

  /** `names` without the members of `seen` and without repeats, in order of
      first appearance. */
  function FirstNew(names: seq<string>, seen: set<string>): (r: seq<string>)
    ensures NameSet(r) == NameSet(names) - seen
    ensures forall i, j | 0 <= i < j < |r| :: r[i] != r[j]
    decreases |names|
  {
    if |names| == 0 then []
    else if names[0] in seen then
      var r := FirstNew(names[1..], seen);
      assert NameSet(names) == {names[0]} + NameSet(names[1..]);
      r
    else
      var rest := FirstNew(names[1..], seen + {names[0]});
      assert NameSet(names) == {names[0]} + NameSet(names[1..]);
      assert NameSet([names[0]] + rest) == {names[0]} + NameSet(rest);
      assert forall k | 0 <= k < |rest| :: rest[k] in NameSet(rest);
      [names[0]] + rest
  }

  /** The tasks whose names are not in `gone`, in order. */
  function Without(tasks: seq<Task>, gone: set<string>): (r: seq<Task>)
    ensures forall t | t in r :: t in tasks && t.name !in gone
    ensures forall t | t in tasks && t.name !in gone :: t in r
    ensures Names(r) == Names(tasks) - gone
    decreases |tasks|
  {
    if |tasks| == 0 then []
    else
      var rest := Without(tasks[1..], gone);
      assert forall t | t in tasks && t != tasks[0] :: t in tasks[1..];
      if tasks[0].name in gone then rest else [tasks[0]] + rest
  }
  /** Removing names commutes with concatenation, so the survivors keep their
      relative order; a single task survives exactly when its name is not
      removed. */
  lemma {:induction false} WithoutAppend(a: seq<Task>, b: seq<Task>, gone: set<string>)
    ensures Without(a + b, gone) == Without(a, gone) + Without(b, gone)
    ensures |a| == 1 ==> Without(a, gone) == if a[0].name in gone then [] else a
    decreases |a|
  {
    if |a| == 0 {
      assert a + b == b;
    } else {
      assert (a + b)[0] == a[0] && (a + b)[1..] == a[1..] + b;
      WithoutAppend(a[1..], b, gone);
      if a[0].name !in gone {
        assert Without(a + b, gone) == [a[0]] + (Without(a[1..], gone) + Without(b, gone));
      }
    }
  }

  /** Removing names none of the tasks carries changes nothing. */
  lemma {:induction false} WithoutNothing(tasks: seq<Task>, gone: set<string>)
    requires forall i | 0 <= i < |tasks| :: tasks[i].name !in gone
    ensures Without(tasks, gone) == tasks
    decreases |tasks|
  {
    if |tasks| > 0 {
      WithoutNothing(tasks[1..], gone);
    }
  }


  /** `update` on a file: for a file without tasks, read its own run
      directory; otherwise update every task and roll their colours up. */
  function Update(f: SbyFile, disk: Disk): (r: SbyFile)
    requires HaveTasks(f) ==> |f.tasks| > 0
    ensures r.path == f.path && r.parser == f.parser && r.tasksList == f.tasksList && r.files == f.files
    ensures |r.tasks| == |f.tasks|
    ensures forall i | 0 <= i < |f.tasks| ::
      && r.tasks[i].path == f.tasks[i].path && r.tasks[i].name == f.tasks[i].name
      && r.tasks[i].content == f.tasks[i].content && r.tasks[i].files == f.tasks[i].files
    ensures Names(r.tasks) == Names(f.tasks)
    ensures !HaveTasks(f) ==> r.tasks == f.tasks
    ensures !HaveTasks(f) && FullPath(RunDir(f.path, None)) !in disk.dirs ==>
      r.st == f.st.(color := Pending, percentage := 0) && r.vcd == []
    ensures !HaveTasks(f) && FullPath(RunDir(f.path, None)) in disk.dirs ==>
      var indir := RunStem(RunDir(f.path, None));
      && r.st == UpdateFromXml(f.st.(color := Pending, percentage := 0), disk, indir)
      && r.vcd == VcdFiles(disk, EngineDir(indir))
    ensures HaveTasks(f) ==> r.vcd == [] && r.st.status == f.st.status && r.st.timeSpent == f.st.timeSpent && r.st.log == f.st.log
    ensures 0 <= r.st.percentage <= 100 && Pending <= r.st.color <= Failed
    ensures r.st.color != Pending ==> r.st.percentage == 100
  {
    if !HaveTasks(f) then
      var run := ReadRun(f.st, disk, RunDir(f.path, None));
      f.(st := run.0, vcd := run.1)
    else
      var tasks := UpdateTasks(f.tasks, disk);
      var roll := RollUp(Colors(tasks));
      RollUpMeaning(Colors(tasks));
      SameNames(f.tasks, tasks);
      f.(tasks := tasks, st := f.st.(color := roll.color, percentage := roll.percentage), vcd := [])
  }

  /** The roll-up as a file with tasks sees it: a pass exactly when every
      task passed, a failure exactly when every task failed, and 100 percent
      exactly when every task has a verdict. */
  lemma UpdateRollsUp(f: SbyFile, disk: Disk)
    requires HaveTasks(f) && |f.tasks| > 0
    ensures
      var r := Update(f, disk);
      && (r.st.color == Passed <==> forall i | 0 <= i < |r.tasks| :: r.tasks[i].st.color == Passed)
      && (r.st.color == Failed <==> forall i | 0 <= i < |r.tasks| :: r.tasks[i].st.color == Failed)
      && (r.st.percentage == 100 <==> forall i | 0 <= i < |r.tasks| :: r.tasks[i].st.color != Pending)
  {
    var tasks := UpdateTasks(f.tasks, disk);
    var roll := RollUp(Colors(tasks));
    assert Update(f, disk).tasks == tasks;
    assert Update(f, disk).st.color == roll.color && Update(f, disk).st.percentage == roll.percentage;
    RollUpOfTasks(tasks);
  }

  /** The roll-up rule read on tasks whose colours are verdicts or none. */
  lemma RollUpOfTasks(tasks: seq<Task>)
    requires |tasks| > 0
    requires forall i | 0 <= i < |tasks| :: Pending <= tasks[i].st.color <= Failed
    ensures
      var roll := RollUp(Colors(tasks));
      && (roll.color == Passed <==> forall i | 0 <= i < |tasks| :: tasks[i].st.color == Passed)
      && (roll.color == Failed <==> forall i | 0 <= i < |tasks| :: tasks[i].st.color == Failed)
      && (roll.percentage == 100 <==> forall i | 0 <= i < |tasks| :: tasks[i].st.color != Pending)
  {
    RollUpMeaning(Colors(tasks));
  }

  lemma SameNames(a: seq<Task>, b: seq<Task>)
    requires |a| == |b|
    requires forall i | 0 <= i < |a| :: a[i].name == b[i].name
    ensures Names(a) == Names(b)
  {
    forall n | n in Names(a) ensures n in Names(b) {
      var t :| t in a && t.name == n;
      var i :| 0 <= i < |a| && a[i] == t;
      assert b[i] in b;
    }
    forall n | n in Names(b) ensures n in Names(a) {
      var t :| t in b && t.name == n;
      var i :| 0 <= i < |b| && b[i] == t;
      assert a[i] in a;
    }
  }

  /** `updateTask`: reads the task's run directory `<dir>/<B>_<name>`. */
  function UpdateTask(t: Task, disk: Disk): (r: Task)
    ensures r.path == t.path && r.name == t.name && r.content == t.content && r.files == t.files
    ensures FullPath(RunDir(t.path, Some(t.name))) !in disk.dirs ==>
      r.st == t.st.(color := Pending, percentage := 0) && r.vcd == []
    ensures FullPath(RunDir(t.path, Some(t.name))) in disk.dirs ==>
      var indir := RunStem(RunDir(t.path, Some(t.name)));
      && r.st == UpdateFromXml(t.st.(color := Pending, percentage := 0), disk, indir)
      && r.vcd == VcdFiles(disk, EngineDir(indir))
    ensures Pending <= r.st.color <= Failed
    ensures r.st.color != Pending ==> r.st.percentage == 100
  {
    var (st, vcd) := ReadRun(t.st, disk, RunDir(t.path, Some(t.name)));
    t.(st := st, vcd := vcd)
  }

  function UpdateTasks(tasks: seq<Task>, disk: Disk): (r: seq<Task>)
    ensures |r| == |tasks|
    ensures forall i | 0 <= i < |tasks| :: r[i] == UpdateTask(tasks[i], disk)
  {
    seq(|tasks|, i requires 0 <= i < |tasks| => UpdateTask(tasks[i], disk))
  }

  function Colors(tasks: seq<Task>): (r: seq<int>)
    ensures |r| == |tasks|
    ensures forall i | 0 <= i < |tasks| :: r[i] == tasks[i].st.color
  {
    seq(|tasks|, i requires 0 <= i < |tasks| => tasks[i].st.color)
  }

  // ---------------------------------------------------------------------
  // Roll-up of task colours
  // ---------------------------------------------------------------------

  /** How many colours carry a verdict (`counter`). */
  function CountResolved(colors: seq<int>): nat
    decreases |colors|
  {
    if |colors| == 0 then 0
    else CountResolved(colors[..|colors| - 1]) + (if colors[|colors| - 1] != Pending then 1 else 0)
  }

  /** How many colours are a pass (`valid`). */
  function CountPassed(colors: seq<int>): nat
    decreases |colors|
  {
    if |colors| == 0 then 0
    else CountPassed(colors[..|colors| - 1]) + (if colors[|colors| - 1] == Passed then 1 else 0)
  }

  datatype Rollup = Rollup(color: int, percentage: int)

  /** The file's colour and percentage from its tasks' colours. */
  function RollUp(colors: seq<int>): Rollup
    requires |colors| > 0
  {
    var counter := CountResolved(colors);
    var valid := CountPassed(colors);
    var color :=
      if |colors| == counter then
        if valid == counter then Passed else if valid == 0 then Failed else Pending
      else Pending;
    Rollup(color, counter * 100 / |colors|)
  }

  lemma {:induction false} CountBounds(colors: seq<int>)
    ensures CountPassed(colors) <= CountResolved(colors) <= |colors|
    ensures CountResolved(colors) == |colors| <==> forall i | 0 <= i < |colors| :: colors[i] != Pending
    ensures CountPassed(colors) == 0 <==> forall i | 0 <= i < |colors| :: colors[i] != Passed
    ensures CountPassed(colors) == |colors| <==> forall i | 0 <= i < |colors| :: colors[i] == Passed
    decreases |colors|
  {
    if |colors| > 0 {
      var init := colors[..|colors| - 1];
      CountBounds(init);
      assert forall i | 0 <= i < |init| :: init[i] == colors[i];
    }
  }

  /** The roll-up rule: a pass exactly when every task passed; a failure
      exactly when every task has a verdict and none passed; otherwise no
      verdict. The percentage counts tasks with a verdict and reaches 100
      exactly when all have one. */
  lemma RollUpMeaning(colors: seq<int>)
    requires |colors| > 0
    ensures RollUp(colors).color == Passed <==> forall i | 0 <= i < |colors| :: colors[i] == Passed
    ensures RollUp(colors).color == Failed <==>
      forall i | 0 <= i < |colors| :: colors[i] != Pending && colors[i] != Passed
    ensures 0 <= RollUp(colors).percentage <= 100
    ensures RollUp(colors).percentage == 100 <==> forall i | 0 <= i < |colors| :: colors[i] != Pending
    ensures RollUp(colors).color != Pending ==> RollUp(colors).percentage == 100
    ensures RollUp(colors).color in {Pending, Passed, Failed}
  {
    CountBounds(colors);
    Percent(CountResolved(colors), |colors|);
  }

  /** `counter * 100 / n` is a percentage, and a full one exactly when
      `counter` is `n`. */
  lemma Percent(counter: nat, n: nat)
    requires 0 < n && counter <= n
    ensures 0 <= counter * 100 / n <= 100
    ensures counter * 100 / n == 100 <==> counter == n
  {
    var p := counter * 100 / n;
    var x := counter * 100;
    assert x == n * p + x % n;
    MulLe(100, p, n);
    MulLe(p, 99, n);
    MulLe(101, p, n);
    MulLe(counter, n - 1, 100);
  }

  lemma MulLe(a: int, b: int, n: nat)
    ensures a <= b ==> a * n <= b * n
  {
  }

  /** The counting loop of `update`, as the code runs it: one pass over the
      tasks counting verdicts and passes, then the percentage and colour. */
  method RollUpLoop(colors: seq<int>) returns (color: int, percentage: int)
    requires |colors| > 0
    ensures Rollup(color, percentage) == RollUp(colors)
  {
    var counter := 0;
    var valid := 0;
    var i := 0;
    while i < |colors|
      invariant 0 <= i <= |colors|
      invariant counter == CountResolved(colors[..i])
      invariant valid == CountPassed(colors[..i])
    {
      assert colors[..i + 1][..i] == colors[..i];
      if colors[i] != Pending {
        counter := counter + 1;
      }
      if colors[i] == Passed {
        valid := valid + 1;
      }
      i := i + 1;
    }
    assert colors[..i] == colors;
    percentage := counter * 100 / |colors|;
    if |colors| == counter {
      if valid == counter {
        color := Passed;
      } else if valid == 0 {
        color := Failed;
      } else {
        color := Pending;
      }
    } else {
      color := Pending;
    }
  }

  // ---------------------------------------------------------------------
  // Refresh
  // ---------------------------------------------------------------------

  /** The reconciliation part of `refresh`: re-reads the file, appends a task
      for every name that is new (in order of first appearance), removes
      every task whose name is gone, and keeps the surviving task objects
      as they were. */
  function Reconcile(f: SbyFile, disk: Disk, hook: Hook, filesOf: FilesOf): (r: SbyFile)
    ensures r.parser == Parse(SourceOf(disk, f.path)).parser
    ensures !HaveTasks(r) ==> r.files == filesOf(SourceOf(disk, f.path), "")
    ensures HaveTasks(r) ==> r.files == f.files
    ensures r.path == f.path && r.st == f.st && r.vcd == f.vcd
  {
    var input := SourceOf(disk, f.path);
    var parser := Parse(input).parser;
    var newSet := ParseFile(NewFile(f.path), disk, hook, filesOf).tasksList;
    var added := newSet - f.tasksList;
    var deleted := f.tasksList - newSet;
    var made := MakeTasks(f.path, FirstNew(parser.tasklist, f.tasksList), input, hook, filesOf);
    var files := if |parser.tasklist| == 0 then filesOf(input, "") else f.files;
    SbyFile(f.path, parser, Without(f.tasks + made, deleted), (f.tasksList + added) - deleted, files, f.st, f.vcd)
  }

  /** The tasks appended by `Reconcile` are made from the re-read file and
      carry names the file did not have. */
  lemma AddedTasks(f: SbyFile, disk: Disk, hook: Hook, filesOf: FilesOf)
    ensures
      var input := SourceOf(disk, f.path);
      var made := MakeTasks(f.path, FirstNew(Parse(input).parser.tasklist, f.tasksList), input, hook, filesOf);
      && Names(made) == NameSet(Parse(input).parser.tasklist) - f.tasksList
      && forall t | t in made :: t.name !in f.tasksList && t == MakeTask(f.path, t.name, input, hook, filesOf)
  {
    var input := SourceOf(disk, f.path);
    var names := FirstNew(Parse(input).parser.tasklist, f.tasksList);
    var made := MakeTasks(f.path, names, input, hook, filesOf);
    NamesOfMade(f.path, names, input, hook, filesOf);
    forall t | t in made ensures t.name !in f.tasksList && t == MakeTask(f.path, t.name, input, hook, filesOf) {
      var i :| 0 <= i < |made| && made[i] == t;
      assert names[i] in NameSet(names);
    }
  }

  /** After reconciling a coherent file, the task names are exactly the
      re-read ones, and a file that has tasks has task objects. */
  lemma ReconcileNames(f: SbyFile, disk: Disk, hook: Hook, filesOf: FilesOf)
    requires Coherent(f)
    ensures
      var r := Reconcile(f, disk, hook, filesOf);
      && Coherent(r)
      && r.tasksList == NameSet(r.parser.tasklist)
      && (HaveTasks(r) ==> |r.tasks| > 0)
  {
    var input := SourceOf(disk, f.path);
    var parser := Parse(input).parser;
    var newSet := NameSet(parser.tasklist);
    ParseNewFile(f.path, disk, hook, filesOf);
    var made := MakeTasks(f.path, FirstNew(parser.tasklist, f.tasksList), input, hook, filesOf);
    AddedTasks(f, disk, hook, filesOf);
    NamesOfAppend(f.tasks, made);
    var r := Reconcile(f, disk, hook, filesOf);
    assert r.tasks == Without(f.tasks + made, f.tasksList - newSet);
    MergedNames(f.tasks, made, f.tasksList, newSet);
    assert |parser.tasklist| != 0 ==> parser.tasklist[0] in Names(r.tasks);
  }

  /** Appending tasks for the new names and dropping those of the gone names
      leaves exactly the new name set. */
  lemma MergedNames(before: seq<Task>, made: seq<Task>, curr: set<string>, newSet: set<string>)
    requires Names(before) == curr && Names(made) == newSet - curr
    ensures Names(Without(before + made, curr - newSet)) == newSet
    ensures (curr + (newSet - curr)) - (curr - newSet) == newSet
  {
    NamesOfAppend(before, made);
  }

  /** Reconciling a coherent file keeps every surviving task as it was; every
      other task is new and made from the re-read file. */
  lemma ReconcileKeeps(f: SbyFile, disk: Disk, hook: Hook, filesOf: FilesOf)
    requires Coherent(f)
    ensures
      var r := Reconcile(f, disk, hook, filesOf);
      && (forall t | t in f.tasks && t.name in r.tasksList :: t in r.tasks)
      && (forall t | t in r.tasks && t !in f.tasks ::
            t.name !in f.tasksList && t == MakeTask(f.path, t.name, SourceOf(disk, f.path), hook, filesOf))
  {
    var input := SourceOf(disk, f.path);
    var parser := Parse(input).parser;
    var newSet := NameSet(parser.tasklist);
    ParseNewFile(f.path, disk, hook, filesOf);
    var made := MakeTasks(f.path, FirstNew(parser.tasklist, f.tasksList), input, hook, filesOf);
    AddedTasks(f, disk, hook, filesOf);
    ReconcileNames(f, disk, hook, filesOf);
    var r := Reconcile(f, disk, hook, filesOf);
    assert r.tasks == Without(f.tasks + made, f.tasksList - newSet);
    assert r.tasksList == newSet;
    forall t | t in f.tasks && t.name in r.tasksList ensures t in r.tasks {
      assert t in f.tasks + made;
    }
    forall t | t in r.tasks && t !in f.tasks
      ensures t.name !in f.tasksList && t == MakeTask(f.path, t.name, input, hook, filesOf)
    {
      assert t in f.tasks + made;
    }
  }
  /** The order of the tasks after a refresh: the surviving old tasks in
      their old order, then the new tasks in the order the file declares
      them. */
  lemma ReconcileOrder(f: SbyFile, disk: Disk, hook: Hook, filesOf: FilesOf)
    ensures
      var input := SourceOf(disk, f.path);
      var names := Parse(input).parser.tasklist;
      Reconcile(f, disk, hook, filesOf).tasks
        == Without(f.tasks, f.tasksList - NameSet(names)) + MakeTasks(f.path, FirstNew(names, f.tasksList), input, hook, filesOf)
  {
    var input := SourceOf(disk, f.path);
    var names := Parse(input).parser.tasklist;
    var deleted := f.tasksList - NameSet(names);
    var newNames := FirstNew(names, f.tasksList);
    var made := MakeTasks(f.path, newNames, input, hook, filesOf);
    ParseNewFile(f.path, disk, hook, filesOf);
    assert Reconcile(f, disk, hook, filesOf).tasks == Without(f.tasks + made, deleted);
    WithoutAppend(f.tasks, made, deleted);
    forall i | 0 <= i < |made| ensures made[i].name !in deleted {
      assert made[i].name == newNames[i];
      assert newNames[i] in NameSet(newNames);
    }
    WithoutNothing(made, deleted);
  }


  /** `refresh`: reconcile, then `update`. Afterwards the task names are
      exactly the freshly parsed ones. */
  function Refresh(f: SbyFile, disk: Disk, hook: Hook, filesOf: FilesOf): (r: SbyFile)
    requires Coherent(f)
    ensures Coherent(r)
    ensures r.tasksList == NameSet(Parse(SourceOf(disk, f.path)).parser.tasklist)
  {
    ReconcileNames(f, disk, hook, filesOf);
    Update(Reconcile(f, disk, hook, filesOf), disk)
  }

  /** Every task that survives a refresh keeps its configuration and file
      list. */
  lemma RefreshKeepsSurvivors(f: SbyFile, disk: Disk, hook: Hook, filesOf: FilesOf)
    requires Coherent(f)
    ensures
      var r := Refresh(f, disk, hook, filesOf);
      forall t | t in f.tasks && t.name in r.tasksList ::
        exists j | 0 <= j < |r.tasks| :: r.tasks[j].name == t.name && r.tasks[j].content == t.content && r.tasks[j].files == t.files
  {
    var m := Reconcile(f, disk, hook, filesOf);
    ReconcileNames(f, disk, hook, filesOf);
    ReconcileKeeps(f, disk, hook, filesOf);
    var r := Update(m, disk);
    assert Refresh(f, disk, hook, filesOf) == r;
    forall t | t in f.tasks && t.name in r.tasksList
      ensures exists j | 0 <= j < |r.tasks| :: r.tasks[j].name == t.name && r.tasks[j].content == t.content && r.tasks[j].files == t.files
    {
      UpdateKeepsTask(m, disk, t);
    }
  }

  /** `update` keeps every task's name, configuration and file list. */
  lemma UpdateKeepsTask(m: SbyFile, disk: Disk, t: Task)
    requires HaveTasks(m) ==> |m.tasks| > 0
    requires t in m.tasks
    ensures exists j | 0 <= j < |Update(m, disk).tasks| ::
      && Update(m, disk).tasks[j].name == t.name
      && Update(m, disk).tasks[j].content == t.content
      && Update(m, disk).tasks[j].files == t.files
  {
    var j :| 0 <= j < |m.tasks| && m.tasks[j] == t;
    assert Update(m, disk).tasks[j].name == t.name;
  }

  /** Every task a refresh adds takes its configuration and file list from
      the re-read file. */
  lemma RefreshNewTasks(f: SbyFile, disk: Disk, hook: Hook, filesOf: FilesOf)
    requires Coherent(f)
    ensures
      var r := Refresh(f, disk, hook, filesOf);
      forall j | 0 <= j < |r.tasks| && r.tasks[j].name !in f.tasksList ::
        && r.tasks[j].content == ConfigContent(SourceOf(disk, f.path), r.tasks[j].name, hook)
        && r.tasks[j].files == filesOf(SourceOf(disk, f.path), r.tasks[j].name)
  {
    var m := Reconcile(f, disk, hook, filesOf);
    ReconcileNames(f, disk, hook, filesOf);
    ReconcileKeeps(f, disk, hook, filesOf);
    var r := Update(m, disk);
    assert Refresh(f, disk, hook, filesOf) == r;
    forall j | 0 <= j < |r.tasks| && r.tasks[j].name !in f.tasksList
      ensures r.tasks[j].content == ConfigContent(SourceOf(disk, f.path), r.tasks[j].name, hook)
      ensures r.tasks[j].files == filesOf(SourceOf(disk, f.path), r.tasks[j].name)
    {
      assert m.tasks[j] in m.tasks;
      assert m.tasks[j].name !in Names(f.tasks);
    }
  }

  // ---------------------------------------------------------------------
  // Lookup and accessors
  // ---------------------------------------------------------------------

  /** `getTask`: the position of the first task with that name, or none. */
  method GetTask(f: SbyFile, name: string) returns (r: Option<nat>)
    ensures r.None? <==> forall i | 0 <= i < |f.tasks| :: f.tasks[i].name != name
    ensures r.Some? ==> r.value < |f.tasks| && f.tasks[r.value].name == name
    ensures r.Some? ==> forall i | 0 <= i < r.value :: f.tasks[i].name != name
  {
    var i := 0;
    while i < |f.tasks|
      invariant 0 <= i <= |f.tasks|
      invariant forall k | 0 <= k < i :: f.tasks[k].name != name
    {
      if f.tasks[i].name == name {
        return Some(i);
      }
      i := i + 1;
    }
    return None;
  }

  /** An entry of the tree: a file (top level) or one of its tasks. */
  datatype Item = FileItem(file: SbyFile) | TaskItem(task: Task)

  function ItemPath(i: Item): FilePath {
    match i
    case FileItem(f) => f.path
    case TaskItem(t) => t.path
  }

  /** `getName`: a file is named after its file name, a task after itself. */
  function GetName(i: Item): string {
    match i
    case FileItem(f) => f.path.name
    case TaskItem(t) => t.name
  }

  predicate IsTop(i: Item) {
    i.FileItem?
  }

  function GetTaskName(i: Item): string {
    match i
    case FileItem(_) => ""
    case TaskItem(t) => t.name
  }

  function GetContents(i: Item): seq<string> {
    match i
    case FileItem(_) => []
    case TaskItem(t) => t.content
  }

  function GetFileName(i: Item): string {
    ItemPath(i).name
  }

  function GetWorkFolder(i: Item): string {
    ItemPath(i).dir
  }

  function GetFullPath(i: Item): string {
    FullPath(ItemPath(i))
  }

  /** The per-kind accessors: a file is top level, has no task name and no
      contents, and is named after its file; a task is named after itself.
      The work folder and file name are the two halves of the full path. */
  lemma ItemAccessors(i: Item)
    requires forall j | 0 <= j < |ItemPath(i).name| :: ItemPath(i).name[j] != '/'
    ensures IsTop(i) ==> GetTaskName(i) == "" && GetContents(i) == [] && GetName(i) == GetFileName(i)
    ensures !IsTop(i) ==> GetTaskName(i) == GetName(i) && GetContents(i) == i.task.content
    ensures SplitPath(GetFullPath(i)) == FilePath(GetWorkFolder(i), GetFileName(i))
  {
    SplitFullPath(ItemPath(i));
  }

  /** A task shares its file's work folder and file name. */
  lemma TaskSharesFolder(f: SbyFile, disk: Disk, hook: Hook, filesOf: FilesOf, k: nat)
    requires k < |ParseFile(f, disk, hook, filesOf).tasks| - |f.tasks|
    ensures
      var t := ParseFile(f, disk, hook, filesOf).tasks[|f.tasks| + k];
      GetWorkFolder(TaskItem(t)) == GetWorkFolder(FileItem(f)) && GetFileName(TaskItem(t)) == GetFileName(FileItem(f))
  {
  }
}
