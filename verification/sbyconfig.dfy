/** Resolution of a SymbiYosys `.sby` configuration for one task.

    The configuration is a list of lines. A `[tasks]` section declares task
    names and their tags; elsewhere a line may be guarded by `tag:` (kept only
    for tasks that carry the tag) or `~tag:` (kept only for tasks that do not).
    A guard with nothing after it opens a block that runs up to a line `--`.
    Lines between `--pycode-begin--` and `--pycode-end--` are Python code whose
    `output(...)` calls add lines; the code is an opaque `Hook` here.

    `Step` is one iteration of the reference `read_sbyconfig` loop, `Feed`
    runs it over a list of lines, and `Parser` is the state the GUI's parser
    keeps (task list, tag occurrences, tags per task). */
module SbyConfig {
  import opened Wrappers
  import opened Text

  /** The embedded-Python hook: given the collected code lines and the task
      name, the lines the code appends through `output(...)`. */
  type Hook = (seq<string>, string) -> seq<string>

  /** A hook for code that outputs nothing; used when only the task list is wanted. */
  const NoOutput: Hook := (code: seq<string>, task: string) => []

  datatype ConfigError =
    | /** A line looks like `word:` at column 0 but `word` is no declared tag. */
      InvalidTaskSpecifier(token: string)
    | /** `--pycode-end--` without an open region: concatenating the code
          (`None` in Python) fails. */
      PycodeEndWithoutBegin

  /** A recognised tag guard: which tag, whether it is the `~` form, and the
      text after the colon with its leading whitespace removed. */
  datatype Guard = Guard(tag: string, negated: bool, rest: string)

  /** The loop variables of `read_sbyconfig`, plus the per-task tag lists the
      GUI's parser stores. */
  datatype Scan = Scan(
    cfgdata: seq<string>,                   // resolved output lines
    tasklist: seq<string>,                  // first word of every task line
    tasksSection: bool,                     // inside `[tasks]`
    activeTags: set<string>,                // tags of the requested task
    allTags: seq<string>,                   // every word of every task line
    taskTags: map<string, seq<string>>,     // task name -> its line's words
    skipBlock: bool,                        // the open block is dropped
    skippingBlocks: bool,                   // a block is open
    pycode: Option<seq<string>>)            // code collected so far, if in a region

  const Start := Scan([], [], false, {}, [], map[], false, false, None)

  /** `line.rstrip("\n").rstrip("\r")`. */
  function CleanLine(raw: string): (line: string)
    ensures |line| <= |raw| && line == raw[..|line|]
    ensures |line| == 0 || line[|line| - 1] != '\r'
    ensures forall i | |line| <= i < |raw| :: raw[i] == '\n' || raw[i] == '\r'
  {
    RStrip(RStrip(raw, '\n'), '\r')
  }

  predicate PositiveGuard(line: string, tag: string) {
    StartsWith(line, tag + ":")
  }

  predicate NegativeGuard(line: string, tag: string) {
    StartsWith(line, "~" + tag + ":")
  }

  predicate GuardedBy(line: string, tag: string) {
    PositiveGuard(line, tag) || NegativeGuard(line, tag)
  }

  /** The guard `tag` puts on `line`; the `tag:` form is tried before `~tag:`. */
  function GuardOf(line: string, tag: string): (g: Guard)
    requires GuardedBy(line, tag)
    ensures g.tag == tag
    ensures g.negated <==> !PositiveGuard(line, tag)
    ensures |g.rest| < |line|
  {
    if PositiveGuard(line, tag) then Guard(tag, false, LStrip(line[|tag| + 1..]))
    else Guard(tag, true, LStrip(line[|tag| + 2..]))
  }

  /** Index of the first declared tag that guards `line`; `|tags|` if none does. */
  function FirstGuarding(line: string, tags: seq<string>): (k: nat)
    ensures k <= |tags|
    ensures forall j | 0 <= j < k :: !GuardedBy(line, tags[j])
    ensures k < |tags| ==> GuardedBy(line, tags[k])
    decreases |tags|
  {
    if |tags| == 0 || GuardedBy(line, tags[0]) then 0
    else
      var k := FirstGuarding(line, tags[1..]);
      assert forall j | 1 <= j < |tags| :: tags[j] == tags[1..][j - 1];
      1 + k
  }

  /** The guard of the first declared tag (in declaration order) that guards
      `line`, if any. */
  function MatchGuard(line: string, tags: seq<string>): (g: Option<Guard>)
    ensures g.None? <==> forall k | 0 <= k < |tags| :: !GuardedBy(line, tags[k])
    ensures g.Some? ==> g.value.tag in tags && GuardedBy(line, g.value.tag)
  {
    var k := FirstGuarding(line, tags);
    if k < |tags| then Some(GuardOf(line, tags[k])) else None
  }

  /** The first word ends with `:` and starts at column 0. */
  predicate LooksLikeSpecifier(line: string) {
    var tokens := Tokens(line);
    |tokens| > 0 && tokens[0][0] == line[0] && EndsWith(tokens[0], ":")
  }

  /** A guard with nothing after it: the line opens a block. */
  predicate OpensBlock(line: string, tags: seq<string>) {
    MatchGuard(line, tags).Some? && MatchGuard(line, tags).value.rest == ""
  }

  /** Lines with a meaning of their own outside `[tasks]`. */
  predicate IsDirective(line: string) {
    line == "[tasks]" || line == "--pycode-begin--" || line == "--pycode-end--"
  }

  /** A task line split into words: record the task and its tags. */
  function DeclareTask(s: Scan, words: seq<string>, task: string): (r: Scan)
    ensures r.cfgdata == s.cfgdata
    ensures r.allTags == s.allTags + words
    ensures |words| == 0 ==> r == s
    ensures |words| > 0 ==> r.tasklist == s.tasklist + [words[0]]
    ensures |words| > 0 ==> r.taskTags == s.taskTags[words[0] := words]
    ensures |words| > 0 ==> forall t :: t in r.activeTags <==> t in s.activeTags || (words[0] == task && t in words)
  {
    if |words| == 0 then s
    else
      s.(tasklist := s.tasklist + [words[0]],
         activeTags := if words[0] == task then s.activeTags + (set t | t in words) else s.activeTags,
         allTags := s.allTags + words,
         taskTags := s.taskTags[words[0] := words])
  }

  /** The `if tasks_section / elif ...` chain for a line that survived the guards. */
  function Body(s: Scan, line: string, task: string, hook: Hook): (r: Result<Scan, ConfigError>)
    ensures r.Success? ==> s.cfgdata <= r.value.cfgdata
    ensures r.Success? ==> s.tasklist <= r.value.tasklist && s.allTags <= r.value.allTags
  {
    if s.tasksSection then
      if StartsWith(line, "#") then Success(s)
      else Success(DeclareTask(s, Tokens(line), task))
    else if line == "[tasks]" then Success(s.(tasksSection := true))
    else if line == "--pycode-begin--" then Success(s.(pycode := Some([])))
    else if line == "--pycode-end--" then
      if s.pycode.None? then Failure(PycodeEndWithoutBegin)
      else Success(s.(cfgdata := s.cfgdata + hook(s.pycode.value, task), pycode := None))
    else if s.pycode.None? then Success(s.(cfgdata := s.cfgdata + [line]))
    else Success(s.(pycode := Some(s.pycode.value + [line])))
  }

  /** What the guards and the block state make of one cleaned line. */
  datatype Disposition =
    | CloseBlock                // the `--` ending an open block
    | Fatal(token: string)      // an invalid task specifier
    | OpenBlock(drop: bool)     // a guard with nothing after it
    | Drop                      // guard not matched, or inside a dropped block
    | Keep(text: string)        // goes on to the section/pycode handling

  /** The guard part of the `read_sbyconfig` loop body: the block-closing
      test, the search for a tag guard, and the invalid-specifier check. */
  function Dispose(s: Scan, line: string): Disposition
  {
    if s.skippingBlocks && line == "--" then CloseBlock
    else
      match MatchGuard(line, s.allTags)
      case None =>
        if |s.allTags| > 0 && LooksLikeSpecifier(line) then Fatal(Tokens(line)[0])
        else if s.skipBlock then Drop
        else Keep(line)
      case Some(g) =>
        var matched := (g.tag in s.activeTags) != g.negated;
        if g.rest == "" then OpenBlock(!matched)
        else if !matched || s.skipBlock then Drop
        else Keep(g.rest)
  }

  /** The rest of the loop body once the disposition `d` of `line` is known:
      the `[tasks]` section ends at a line starting with `[`, and a line that
      goes on reaches the section handling. */
  function Apply(s: Scan, line: string, d: Disposition, task: string, hook: Hook): (r: Result<Scan, ConfigError>)
    ensures r.Success? ==> s.cfgdata <= r.value.cfgdata
    ensures r.Success? ==> s.tasklist <= r.value.tasklist && s.allTags <= r.value.allTags
  {
    var s1 := s.(tasksSection := s.tasksSection && !StartsWith(line, "["));
    match d
    case CloseBlock => Success(s1.(skipBlock := false, skippingBlocks := false))
    case Fatal(token) => Failure(InvalidTaskSpecifier(token))
    case OpenBlock(drop) => Success(s1.(skippingBlocks := true, skipBlock := drop))
    case Drop => Success(s1)
    case Keep(text) => Body(s1, text, task, hook)
  }

  /** One iteration of the `read_sbyconfig` loop on the raw line `raw`. */
  function Step(s: Scan, raw: string, task: string, hook: Hook): (r: Result<Scan, ConfigError>)
    ensures r.Success? ==> s.cfgdata <= r.value.cfgdata
    ensures r.Success? ==> s.tasklist <= r.value.tasklist && s.allTags <= r.value.allTags
  {
    var line := CleanLine(raw);
    Apply(s, line, Dispose(s, line), task, hook)
  }

  /** Runs the loop over `lines` starting from `s`; stops at the first error. */
  function Feed(s: Scan, lines: seq<string>, task: string, hook: Hook): (r: Result<Scan, ConfigError>)
    ensures r.Success? ==> s.cfgdata <= r.value.cfgdata
    ensures r.Success? ==> s.tasklist <= r.value.tasklist && s.allTags <= r.value.allTags
    decreases |lines|
  {
    if |lines| == 0 then Success(s)
    else
      match Feed(s, lines[..|lines| - 1], task, hook)
      case Failure(e) => Failure(e)
      case Success(s') => Step(s', lines[|lines| - 1], task, hook)
  }

  /** The result of `read_sbyconfig`: resolved lines and declared task names. */
  datatype Config = Config(cfgdata: seq<string>, tasklist: seq<string>)

  /** `read_sbyconfig(lines, taskname)`. */
  function ReadSbyConfig(lines: seq<string>, taskname: string, hook: Hook): Result<Config, ConfigError>
  {
    match Feed(Start, lines, taskname, hook)
    case Failure(e) => Failure(e)
    case Success(s) => Success(Config(s.cfgdata, s.tasklist))
  }

  /** What the GUI's parser object stores after reading a file. */
  datatype Parser = Parser(
    tasklist: seq<string>,
    allTags: seq<string>,
    taskTags: map<string, seq<string>>)

  const EmptyParser := Parser([], [], map[])

  /** Task names and tags of a configuration, resolved for no task in
      particular (no tag is active). */
  function ExtractTasks(lines: seq<string>): (r: Result<Parser, ConfigError>)
    ensures r.Success? <==> ReadSbyConfig(lines, "", NoOutput).Success?
    ensures r.Success? ==> r.value.tasklist == ReadSbyConfig(lines, "", NoOutput).value.tasklist
  {
    match Feed(Start, lines, "", NoOutput)
    case Failure(e) => Failure(e)
    case Success(s) => Success(Parser(s.tasklist, s.allTags, s.taskTags))
  }

  /** An input stream: one that failed to open, or the lines it holds. */
  datatype Stream = Unopened | Opened(lines: seq<string>)

  datatype ParseOutcome = ParseOutcome(ok: bool, parser: Parser)

  /** `SBYParser::parse`: fails on a stream that did not open and on a
      configuration error (both are reported through `log_error`, whose
      exception is caught); otherwise stores the extracted tasks. */
  function Parse(input: Stream): (r: ParseOutcome)
    ensures !r.ok ==> r.parser == EmptyParser
    ensures input.Unopened? ==> !r.ok
    ensures input.Opened? && input.lines == [] ==> r == ParseOutcome(true, EmptyParser)
    ensures input.Opened? ==> (r.ok <==> ExtractTasks(input.lines).Success?)
    ensures input.Opened? && r.ok ==> r.parser == ExtractTasks(input.lines).value
  {
    match input
    case Unopened => ParseOutcome(false, EmptyParser)
    case Opened(lines) =>
      match ExtractTasks(lines)
      case Failure(_) => ParseOutcome(false, EmptyParser)
      case Success(p) => ParseOutcome(true, p)
  }

  function GetTasks(p: Parser): seq<string> {
    p.tasklist
  }

  function GetAllTags(p: Parser): seq<string> {
    p.allTags
  }

  /** `task_tags[task]`: a name never declared reads as an empty list. */
  function GetTags(p: Parser, task: string): seq<string> {
    if task in p.taskTags then p.taskTags[task] else []
  }

  // ---------------------------------------------------------------------
  // Facts about one line
  // ---------------------------------------------------------------------

  /** A line ending in `\n` or `\r\n` loses exactly that terminator. */
  lemma CleanLineDropsTerminator(line: string)
    requires |line| == 0 || (line[|line| - 1] != '\n' && line[|line| - 1] != '\r')
    ensures CleanLine(line) == line
    ensures CleanLine(line + "\n") == line
    ensures CleanLine(line + "\r\n") == line
  {
    assert (line + "\n")[..|line|] == line;
    assert (line + "\r\n")[..|line| + 1] == line + "\r";
    assert (line + "\r")[..|line|] == line;
  }

  /** Where the colon of a guard sits. */
  lemma GuardColon(line: string, tag: string)
    ensures PositiveGuard(line, tag) ==> |tag| < |line| && line[|tag|] == ':'
    ensures NegativeGuard(line, tag) ==> |tag| + 1 < |line| && line[0] == '~' && line[|tag| + 1] == ':'
  {
    if PositiveGuard(line, tag) {
      assert line[..|tag| + 1] == tag + ":";
      assert line[|tag|] == line[..|tag| + 1][|tag|];
    }
    if NegativeGuard(line, tag) {
      assert line[..|tag| + 2] == "~" + tag + ":";
      assert line[|tag| + 1] == line[..|tag| + 2][|tag| + 1];
      assert line[0] == line[..|tag| + 2][0];
    }
  }

  /** A line without a colon is guarded by no tag. */
  lemma ColonFreeLineUnguarded(line: string, tags: seq<string>)
    requires ':' !in line
    ensures MatchGuard(line, tags).None?
  {
    forall k | 0 <= k < |tags|
      ensures !GuardedBy(line, tags[k])
    {
      GuardColon(line, tags[k]);
    }
  }

  lemma {:induction false} TildeRun(tag: string, i: nat)
    requires tag + ":" == "~" + tag
    requires i <= |tag|
    ensures (tag + ":")[i] == '~'
    decreases i
  {
    if i > 0 {
      TildeRun(tag, i - 1);
      assert ("~" + tag)[i] == tag[i - 1] == (tag + ":")[i - 1];
    } else {
      assert ("~" + tag)[0] == '~';
    }
  }

  /** `~tag:` never also reads as the positive guard `tag:`. */
  lemma NegatedFormIsNotPositive(tag: string, text: string)
    ensures !PositiveGuard("~" + tag + ":" + text, tag)
  {
    var line := "~" + tag + ":" + text;
    if PositiveGuard(line, tag) {
      assert line[..|tag| + 1] == "~" + tag;
      TildeRun(tag, |tag|);
      assert false;
    }
  }

  /** `tag:text` is read as the positive guard of `tag` with the text
      left-stripped, when no other declared tag guards the line. */
  lemma PositiveGuardForm(tag: string, text: string, tags: seq<string>)
    requires tag in tags
    requires forall k | 0 <= k < |tags| && tags[k] != tag :: !GuardedBy(tag + ":" + text, tags[k])
    ensures MatchGuard(tag + ":" + text, tags) == Some(Guard(tag, false, LStrip(text)))
  {
    var line := tag + ":" + text;
    assert line[..|tag| + 1] == tag + ":";
    assert line[|tag| + 1..] == text;
    var k := FirstGuarding(line, tags);
    var w :| 0 <= w < |tags| && tags[w] == tag;
    assert GuardedBy(line, tags[w]);
  }

  /** `~tag:text` is read as the negative guard of `tag` with the text
      left-stripped, when no other declared tag guards the line. */
  lemma NegativeGuardForm(tag: string, text: string, tags: seq<string>)
    requires tag in tags
    requires forall k | 0 <= k < |tags| && tags[k] != tag :: !GuardedBy("~" + tag + ":" + text, tags[k])
    ensures MatchGuard("~" + tag + ":" + text, tags) == Some(Guard(tag, true, LStrip(text)))
  {
    var line := "~" + tag + ":" + text;
    NegatedFormIsNotPositive(tag, text);
    assert line[..|tag| + 2] == "~" + tag + ":";
    assert line[|tag| + 2..] == text;
    var k := FirstGuarding(line, tags);
    var w :| 0 <= w < |tags| && tags[w] == tag;
    assert GuardedBy(line, tags[w]);
  }

  /** A guarded line is never the `--` that closes a block. */
  lemma GuardedLineIsNotDashes(line: string, tags: seq<string>)
    requires MatchGuard(line, tags).Some?
    ensures line != "--"
  {
    GuardColon(line, MatchGuard(line, tags).value.tag);
  }

  /** A guard with text after it: the text goes on exactly when the guard
      matches the requested task (`tag:` when the tag is active, `~tag:` when
      it is not) and no dropped block is open. */
  lemma GuardedLineDisposition(s: Scan, line: string)
    requires MatchGuard(line, s.allTags).Some?
    requires MatchGuard(line, s.allTags).value.rest != ""
    ensures
      var g := MatchGuard(line, s.allTags).value;
      var matched := (g.tag in s.activeTags) != g.negated;
      Dispose(s, line) == if matched && !s.skipBlock then Keep(g.rest) else Drop
  {
    GuardedLineIsNotDashes(line, s.allTags);
  }

  /** A guard with nothing after it opens a block, armed to be dropped
      exactly when the guard does not match. */
  lemma BlockGuardDisposition(s: Scan, line: string)
    requires MatchGuard(line, s.allTags).Some?
    requires MatchGuard(line, s.allTags).value.rest == ""
    ensures
      var g := MatchGuard(line, s.allTags).value;
      Dispose(s, line) == OpenBlock((g.tag in s.activeTags) == g.negated)
  {
    GuardedLineIsNotDashes(line, s.allTags);
  }

  /** The invalid-specifier error fires exactly for an unguarded line that
      looks like `word:` at column 0, once some tag is declared; with no tag
      declared it never fires. */
  lemma SpecifierErrorExactly(s: Scan, line: string)
    ensures Dispose(s, line).Fatal? <==>
      && !(s.skippingBlocks && line == "--")
      && |s.allTags| > 0
      && MatchGuard(line, s.allTags).None?
      && LooksLikeSpecifier(line)
  {
  }

  /** A line that goes on, outside `[tasks]` and outside a code region, and
      is no directive, is emitted as it stands. */
  lemma KeptLineEmitted(s: Scan, raw: string, task: string, hook: Hook)
    requires !s.tasksSection && s.pycode.None?
    requires Dispose(s, CleanLine(raw)).Keep?
    requires !IsDirective(Dispose(s, CleanLine(raw)).text)
    ensures Step(s, raw, task, hook) == Success(s.(cfgdata := s.cfgdata + [Dispose(s, CleanLine(raw)).text]))
  {
    var s1 := s.(tasksSection := false);
    assert s1 == s;
  }

  /** A line that does not go on emits nothing. */
  lemma HeldLineSilent(s: Scan, raw: string, task: string, hook: Hook)
    requires !Dispose(s, CleanLine(raw)).Keep? && !Dispose(s, CleanLine(raw)).Fatal?
    ensures Step(s, raw, task, hook).Success?
    ensures Step(s, raw, task, hook).value.cfgdata == s.cfgdata
    ensures Step(s, raw, task, hook).value.allTags == s.allTags
    ensures Step(s, raw, task, hook).value.tasklist == s.tasklist
  {
  }

  /** A dropped line changes nothing outside `[tasks]`. */
  lemma DroppedLineUnchanged(s: Scan, raw: string, task: string, hook: Hook)
    requires !s.tasksSection
    requires Dispose(s, CleanLine(raw)) == Drop
    ensures Step(s, raw, task, hook) == Success(s)
  {
    assert s.(tasksSection := false) == s;
  }

  /** Outside `[tasks]`, outside a code region and outside a dropped block, a
      guarded line with text after the guard is emitted, without the guard,
      exactly when the guard matches the requested task. */
  lemma GuardedLineKeptIffMatched(s: Scan, raw: string, task: string, hook: Hook)
    requires !s.tasksSection && !s.skipBlock && s.pycode.None?
    requires MatchGuard(CleanLine(raw), s.allTags).Some?
    requires MatchGuard(CleanLine(raw), s.allTags).value.rest != ""
    requires !IsDirective(MatchGuard(CleanLine(raw), s.allTags).value.rest)
    ensures
      var g := MatchGuard(CleanLine(raw), s.allTags).value;
      (g.tag in s.activeTags) != g.negated ==>
        Step(s, raw, task, hook) == Success(s.(cfgdata := s.cfgdata + [g.rest]))
    ensures
      var g := MatchGuard(CleanLine(raw), s.allTags).value;
      (g.tag in s.activeTags) == g.negated ==> Step(s, raw, task, hook) == Success(s)
  {
    var line := CleanLine(raw);
    var g := MatchGuard(line, s.allTags).value;
    GuardedLineDisposition(s, line);
    if (g.tag in s.activeTags) != g.negated {
      assert Dispose(s, line) == Keep(g.rest);
      KeptLineEmitted(s, raw, task, hook);
    } else {
      assert Dispose(s, line) == Drop;
      DroppedLineUnchanged(s, raw, task, hook);
    }
  }

  /** A guard with nothing after it is not emitted and opens a block that is
      dropped exactly when the guard does not match. */
  lemma BlockGuardOpensBlock(s: Scan, raw: string, task: string, hook: Hook)
    requires MatchGuard(CleanLine(raw), s.allTags).Some?
    requires MatchGuard(CleanLine(raw), s.allTags).value.rest == ""
    ensures
      var g := MatchGuard(CleanLine(raw), s.allTags).value;
      var r := Step(s, raw, task, hook);
      && r.Success?
      && r.value.cfgdata == s.cfgdata
      && r.value.skippingBlocks
      && (r.value.skipBlock <==> (g.tag in s.activeTags) == g.negated)
  {
    BlockGuardDisposition(s, CleanLine(raw));
  }

  /** While a block is open, the line `--` closes it and is not emitted. */
  lemma DashesCloseBlock(s: Scan, raw: string, task: string, hook: Hook)
    requires s.skippingBlocks && CleanLine(raw) == "--"
    ensures Step(s, raw, task, hook) == Success(s.(skipBlock := false, skippingBlocks := false))
  {
    assert !StartsWith("--", "[") by {
      assert "--"[..1][0] == '-';
    }
  }

  /** `r` with the block flag raised, when it is a state. */
  function BlockOpened(r: Result<Scan, ConfigError>): Result<Scan, ConfigError> {
    match r
    case Success(v) => Success(v.(skippingBlocks := true))
    case Failure(e) => Failure(e)
  }

  /** The section handling never looks at or changes the block state. */
  lemma BodyIgnoresOpenBlock(s: Scan, line: string, task: string, hook: Hook)
    ensures Body(s.(skippingBlocks := true), line, task, hook) == BlockOpened(Body(s, line, task, hook))
  {
    var on := s.(skippingBlocks := true);
    if s.tasksSection && !StartsWith(line, "#") {
      var words := Tokens(line);
      assert DeclareTask(on, words, task) == DeclareTask(s, words, task).(skippingBlocks := true);
    }
  }

  /** Apart from the closing `--`, whether a block is open changes nothing
      about how a line is handled. */
  lemma OpenBlockTransparent(s: Scan, raw: string, task: string, hook: Hook)
    requires CleanLine(raw) != "--"
    ensures Step(s.(skippingBlocks := true), raw, task, hook) ==
      BlockOpened(Step(s.(skippingBlocks := false), raw, task, hook))
  {
    var line := CleanLine(raw);
    var on := s.(skippingBlocks := true);
    var off := s.(skippingBlocks := false);
    var d := Dispose(off, line);
    DisposeIgnoresOpenBlock(s, line);
    ApplyIgnoresOpenBlock(off, line, d, task, hook);
    assert on == off.(skippingBlocks := true);
  }

  lemma DisposeIgnoresOpenBlock(s: Scan, line: string)
    requires line != "--"
    ensures Dispose(s.(skippingBlocks := true), line) == Dispose(s.(skippingBlocks := false), line)
  {
  }

  lemma ApplyIgnoresOpenBlock(s: Scan, line: string, d: Disposition, task: string, hook: Hook)
    requires !d.CloseBlock?
    ensures Apply(s.(skippingBlocks := true), line, d, task, hook) == BlockOpened(Apply(s, line, d, task, hook))
  {
    var t := s.tasksSection && !StartsWith(line, "[");
    var on := s.(skippingBlocks := true);
    assert on.(tasksSection := t) == s.(tasksSection := t).(skippingBlocks := true);
    if d.Keep? {
      BodyIgnoresOpenBlock(s.(tasksSection := t), d.text, task, hook);
    }
  }

  /** A line that no declared tag guards and that is no directive is emitted
      unchanged (less its line terminator) outside `[tasks]`, code regions
      and dropped blocks; unless tags are declared and it looks like
      `word:` at column 0, which is fatal. */
  lemma PlainLineVerbatim(s: Scan, raw: string, task: string, hook: Hook)
    requires !s.tasksSection && !s.skipBlock && s.pycode.None?
    requires MatchGuard(CleanLine(raw), s.allTags).None?
    requires !IsDirective(CleanLine(raw))
    requires !(s.skippingBlocks && CleanLine(raw) == "--")
    ensures Step(s, raw, task, hook) ==
      if |s.allTags| > 0 && LooksLikeSpecifier(CleanLine(raw))
      then Failure(InvalidTaskSpecifier(Tokens(CleanLine(raw))[0]))
      else Success(s.(cfgdata := s.cfgdata + [CleanLine(raw)]))
  {
    if !(|s.allTags| > 0 && LooksLikeSpecifier(CleanLine(raw))) {
      KeptLineEmitted(s, raw, task, hook);
    }
  }

  /** The `[tasks]` header is never emitted; unless inside a dropped block it
      opens the section. */
  lemma TasksHeaderSilent(s: Scan, raw: string, task: string, hook: Hook)
    requires CleanLine(raw) == "[tasks]"
    ensures Step(s, raw, task, hook).Success?
    ensures Step(s, raw, task, hook).value.cfgdata == s.cfgdata
    ensures !s.skipBlock ==> Step(s, raw, task, hook).value.tasksSection
  {
    var line := CleanLine(raw);
    ColonFreeLineUnguarded(line, s.allTags);
    TokensOfWord(line);
    assert !EndsWith(line, ":");
    assert StartsWith(line, "[");
    var s1 := s.(tasksSection := false);
    if s.skipBlock {
      assert Dispose(s, line) == Drop;
      assert Step(s, raw, task, hook) == Success(s1);
    } else {
      assert Dispose(s, line) == Keep(line);
      assert Step(s, raw, task, hook) == Body(s1, line, task, hook);
    }
  }

  /** A line without `:` never looks like `word:`. */
  lemma ColonFreeNotSpecifier(line: string)
    requires ':' !in line
    ensures !LooksLikeSpecifier(line)
  {
    var tokens := Tokens(line);
    if |tokens| > 0 {
      var w := tokens[0];
      TokensAreFactors(line, 0);
      var i, j :| 0 <= i <= j <= |line| && w == line[i..j];
      assert w[|w| - 1] == line[i + |w| - 1];
      assert w[|w| - 1] != ':';
      assert !EndsWith(w, ":") by {
        if |w| >= 1 {
          assert w[|w| - 1..][0] == w[|w| - 1];
        }
      }
    }
  }

  /** A colon-free section header: `[tasks]` opens the task section, any
      other header closes it and is emitted. */
  lemma SectionHeaderStep(s: Scan, raw: string, task: string, hook: Hook)
    requires !s.skipBlock && s.pycode.None?
    requires CleanLine(raw) == raw && ':' !in raw && |raw| > 0 && raw[0] == '['
    ensures Step(s, raw, task, hook) ==
      if raw == "[tasks]" then Success(s.(tasksSection := true))
      else Success(s.(tasksSection := false, cfgdata := s.cfgdata + [raw]))
  {
    ColonFreeLineUnguarded(raw, s.allTags);
    ColonFreeNotSpecifier(raw);
    assert StartsWith(raw, "[") by {
      assert raw[..1] == [raw[0]];
    }
    assert raw != "--" && raw != "--pycode-begin--" && raw != "--pycode-end--" by {
      assert "--"[0] == '-' && "--pycode-begin--"[0] == '-' && "--pycode-end--"[0] == '-';
    }
    assert Dispose(s, raw) == Keep(raw);
  }

  /** Where a guard of a line starting with `[` must start. */
  lemma BracketLineGuards(line: string, tags: seq<string>)
    requires StartsWith(line, "[")
    ensures MatchGuard(line, tags).Some? ==> StartsWith(MatchGuard(line, tags).value.tag, "[")
  {
    if MatchGuard(line, tags).Some? {
      var t := MatchGuard(line, tags).value.tag;
      GuardColon(line, t);
      assert line[..1] == "[";
      if |t| > 0 && PositiveGuard(line, t) {
        assert line[..|t| + 1][0] == t[0];
      }
    }
  }

  /** Inside `[tasks]` nothing is emitted: a section line is either a task
      line, a comment, dropped, or a new section header (which ends the
      section). */
  lemma TasksSectionSilent(s: Scan, raw: string, task: string, hook: Hook)
    requires s.tasksSection
    requires !StartsWith(CleanLine(raw), "[")
    ensures Step(s, raw, task, hook).Success? ==> Step(s, raw, task, hook).value.cfgdata == s.cfgdata
  {
    var line := CleanLine(raw);
    assert s.(tasksSection := true) == s;
    var d := Dispose(s, line);
    if d.Keep? {
      assert Step(s, raw, task, hook) == Body(s, d.text, task, hook);
      assert Body(s, d.text, task, hook).Success?;
    } else if !d.Fatal? {
      HeldLineSilent(s, raw, task, hook);
    }
  }

  /** Inside `[tasks]`, an unguarded line that is no comment and no new
      section declares its first word as a task and all its words as tags. */
  lemma TaskLineDeclares(s: Scan, raw: string, task: string, hook: Hook)
    requires s.tasksSection
    requires Dispose(s, CleanLine(raw)) == Keep(CleanLine(raw))
    requires !StartsWith(CleanLine(raw), "[") && !StartsWith(CleanLine(raw), "#")
    ensures
      var words := Tokens(CleanLine(raw));
      var r := Step(s, raw, task, hook);
      && r.Success?
      && r.value.cfgdata == s.cfgdata
      && r.value.allTags == s.allTags + words
      && r.value.tasklist == s.tasklist + (if |words| > 0 then [words[0]] else [])
  {
  }

  /** The code-region markers are never emitted; lines inside a region are
      collected as code, not emitted; the code's own output is appended when
      the region closes. */
  lemma PycodeRegion(s: Scan, raw: string, task: string, hook: Hook)
    requires !s.tasksSection
    requires Dispose(s, CleanLine(raw)).Keep?
    ensures
      var text := Dispose(s, CleanLine(raw)).text;
      var r := Step(s, raw, task, hook);
      && (text == "--pycode-begin--" ==> r == Success(s.(pycode := Some([]))))
      && (text == "--pycode-end--" && s.pycode.None? ==> r == Failure(PycodeEndWithoutBegin))
      && (text == "--pycode-end--" && s.pycode.Some? ==>
            r == Success(s.(cfgdata := s.cfgdata + hook(s.pycode.value, task), pycode := None)))
      && (s.pycode.Some? && !IsDirective(text) ==> r == Success(s.(pycode := Some(s.pycode.value + [text]))))
  {
    assert s.(tasksSection := false) == s;
  }

  /** The scan state that the parser's accessors rely on: task names are
      words, each declared task's tag list starts with its own name, every
      recorded tag occurs in `allTags`, no tag is active before the requested
      task is declared, every tag of its recorded line is active, and while it
      has been declared on exactly one line the active tags are no more than
      that line's words. */
  ghost predicate Coherent(s: Scan, task: string) {
    && (forall k | 0 <= k < |s.tasklist| :: IsToken(s.tasklist[k]))
    && (forall k | 0 <= k < |s.allTags| :: IsToken(s.allTags[k]))
    && (forall n :: n in s.taskTags <==> n in s.tasklist)
    && (forall n | n in s.taskTags :: |s.taskTags[n]| > 0 && s.taskTags[n][0] == n)
    && (forall n, t | n in s.taskTags && t in s.taskTags[n] :: t in s.allTags)
    && (forall t | t in s.activeTags :: t in s.allTags)
    && (task in s.taskTags ==> forall t | t in s.taskTags[task] :: t in s.activeTags)
    && (task !in s.taskTags ==> s.activeTags == {})
    && (multiset(s.tasklist)[task] == 1 ==> task in s.taskTags && forall t | t in s.activeTags :: t in s.taskTags[task])
  }

  lemma StartCoherent(task: string)
    ensures Coherent(Start, task)
  {
  }

  /** Declaring a task line keeps the scan state coherent. */
  lemma DeclareKeepsCoherent(s: Scan, words: seq<string>, task: string)
    requires Coherent(s, task)
    requires forall k | 0 <= k < |words| :: IsToken(words[k])
    ensures Coherent(DeclareTask(s, words, task), task)
  {
    if |words| > 0 {
      var r := DeclareTask(s, words, task);
      assert r.tasklist == s.tasklist + [words[0]];
      assert forall n :: n in r.tasklist <==> n in s.tasklist || n == words[0];
      assert multiset(r.tasklist) == multiset(s.tasklist) + multiset{words[0]};
      if words[0] == task && multiset(s.tasklist)[task] == 0 {
        assert task !in s.tasklist;
        assert r.activeTags == set t | t in words;
      }
    }
  }

  /** The task list, tag occurrences, tags per task and active tags agree. */
  predicate SameDeclarations(a: Scan, b: Scan) {
    a.tasklist == b.tasklist && a.allTags == b.allTags && a.taskTags == b.taskTags && a.activeTags == b.activeTags
  }

  lemma CoherentOnlyReadsDeclarations(a: Scan, b: Scan, task: string)
    requires Coherent(a, task) && SameDeclarations(a, b)
    ensures Coherent(b, task)
  {
  }

  /** Only the section handling changes anything `Coherent` speaks of. */
  lemma BodyKeepsCoherent(s: Scan, line: string, task: string, hook: Hook)
    requires Coherent(s, task)
    requires Body(s, line, task, hook).Success?
    ensures Coherent(Body(s, line, task, hook).value, task)
  {
    var r := Body(s, line, task, hook).value;
    if s.tasksSection && !StartsWith(line, "#") {
      DeclareKeepsCoherent(s, Tokens(line), task);
    } else {
      BodyKeepsDeclarations(s, line, task, hook);
      CoherentOnlyReadsDeclarations(s, r, task);
    }
  }

  /** A line outside the `[tasks]` section, or a comment inside it, declares nothing. */
  lemma BodyKeepsDeclarations(s: Scan, line: string, task: string, hook: Hook)
    requires !(s.tasksSection && !StartsWith(line, "#"))
    requires Body(s, line, task, hook).Success?
    ensures SameDeclarations(s, Body(s, line, task, hook).value)
  {
  }

  /** One line keeps the scan state coherent. */
  lemma StepKeepsCoherent(s: Scan, raw: string, task: string, hook: Hook)
    requires Coherent(s, task)
    requires Step(s, raw, task, hook).Success?
    ensures Coherent(Step(s, raw, task, hook).value, task)
  {
    var line := CleanLine(raw);
    var s1 := s.(tasksSection := s.tasksSection && !StartsWith(line, "["));
    var r := Step(s, raw, task, hook).value;
    assert SameDeclarations(s, s1);
    CoherentOnlyReadsDeclarations(s, s1, task);
    match Dispose(s, line)
    case Keep(text) =>
      BodyKeepsCoherent(s1, text, task, hook);
    case Fatal(_) =>
    case _ =>
      assert SameDeclarations(s1, r);
      CoherentOnlyReadsDeclarations(s1, r, task);
  }

}
