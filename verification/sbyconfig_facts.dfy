/** Properties of whole configurations: how `Feed` composes, the invariant
    the scan keeps, blocks, configurations without tasks, and the parser's
    accessors. */
module SbyConfigFacts {
  import opened Wrappers
  import opened Text
  import opened SbyConfig

  /** Continues a run that ended in `r` with the lines `b`. */
  function Then(r: Result<Scan, ConfigError>, b: seq<string>, task: string, hook: Hook): Result<Scan, ConfigError> {
    match r
    case Failure(e) => Failure(e)
    case Success(m) => Feed(m, b, task, hook)
  }

  /** `Feed` on a non-empty list is one more `Step` after its prefix. */
  lemma FeedSnoc(s: Scan, init: seq<string>, last: string, task: string, hook: Hook)
    ensures Feed(s, init + [last], task, hook) ==
      match Feed(s, init, task, hook)
      case Failure(e) => Failure(e)
      case Success(m) => Step(m, last, task, hook)
  {
    assert (init + [last])[..|init|] == init;
    assert (init + [last])[|init|] == last;
  }

  lemma FeedOne(s: Scan, raw: string, task: string, hook: Hook)
    ensures Feed(s, [raw], task, hook) == Step(s, raw, task, hook)
  {
    FeedSnoc(s, [], raw, task, hook);
    assert [] + [raw] == [raw];
  }

  /** Reading `a + b` is reading `a`, then `b` from where `a` left off. */
  lemma {:induction false} FeedAppend(s: Scan, a: seq<string>, b: seq<string>, task: string, hook: Hook)
    ensures Feed(s, a + b, task, hook) == Then(Feed(s, a, task, hook), b, task, hook)
    decreases |b|
  {
    if |b| == 0 {
      assert a + b == a;
    } else {
      var init := b[..|b| - 1];
      var last := b[|b| - 1];
      assert a + b == (a + init) + [last];
      assert b == init + [last];
      FeedAppend(s, a, init, task, hook);
      FeedSnoc(s, a + init, last, task, hook);
      match Feed(s, a, task, hook)
      case Failure(e) =>
      case Success(m) =>
        FeedSnoc(m, init, last, task, hook);
    }
  }

  /** Reading `[x] + rest` is one `Step` on `x`, then `rest`. */
  lemma FeedCons(s: Scan, x: string, rest: seq<string>, task: string, hook: Hook)
    ensures Feed(s, [x] + rest, task, hook) == Then(Step(s, x, task, hook), rest, task, hook)
  {
    FeedAppend(s, [x], rest, task, hook);
    FeedOne(s, x, task, hook);
  }

  /** The whole scan keeps the state coherent. */
  lemma {:induction false} FeedKeepsCoherent(s: Scan, lines: seq<string>, task: string, hook: Hook)
    requires Coherent(s, task)
    requires Feed(s, lines, task, hook).Success?
    ensures Coherent(Feed(s, lines, task, hook).value, task)
    decreases |lines|
  {
    if |lines| > 0 {
      var init := lines[..|lines| - 1];
      FeedKeepsCoherent(s, init, task, hook);
      StepKeepsCoherent(Feed(s, init, task, hook).value, lines[|lines| - 1], task, hook);
    }
  }

  /** What the accessors of a successfully parsed file return: task names
      are words in declaration order; `get_tags` of a declared task is a
      non-empty list that starts with the task's own name and whose every
      entry is among `get_all_tags`; `get_tags` of anything else is empty. */
  lemma ParsedAccessors(input: Stream)
    requires Parse(input).ok
    ensures
      var p := Parse(input).parser;
      && (forall k | 0 <= k < |GetTasks(p)| :: IsToken(GetTasks(p)[k]))
      && (forall k | 0 <= k < |GetAllTags(p)| :: IsToken(GetAllTags(p)[k]))
      && (forall n | n in GetTasks(p) :: |GetTags(p, n)| > 0 && GetTags(p, n)[0] == n)
      && (forall n, t | n in GetTasks(p) && t in GetTags(p, n) :: t in GetAllTags(p))
      && (forall n | n !in GetTasks(p) :: GetTags(p, n) == [])
  {
    StartCoherent("");
    FeedKeepsCoherent(Start, input.lines, "", NoOutput);
  }

  /** The tags that guarded lines are judged against when resolving for
      `task`: every active tag was declared; a task never declared has none;
      every tag of `task`'s recorded `[tasks]` line is active; and when
      `task` is declared on exactly one line, the active tags are exactly that
      line's words. A name declared on several lines activates the words of
      all of them, while only the last line is recorded. */
  lemma ActiveTagsOfTask(lines: seq<string>, task: string, hook: Hook)
    requires Feed(Start, lines, task, hook).Success?
    ensures
      var s := Feed(Start, lines, task, hook).value;
      && (forall t | t in s.activeTags :: t in s.allTags)
      && (task in s.tasklist ==> task in s.taskTags && forall t | t in s.taskTags[task] :: t in s.activeTags)
      && (task !in s.tasklist ==> s.activeTags == {})
      && (multiset(s.tasklist)[task] == 1 ==> task in s.taskTags && s.activeTags == set t | t in s.taskTags[task])
  {
    StartCoherent(task);
    FeedKeepsCoherent(Start, lines, task, hook);
  }

  /** Each line with its terminator removed. */
  function CleanLines(lines: seq<string>): (r: seq<string>)
    ensures |r| == |lines|
    ensures forall k | 0 <= k < |lines| :: r[k] == CleanLine(lines[k])
  {
    seq(|lines|, k requires 0 <= k < |lines| => CleanLine(lines[k]))
  }

  /** Without `[tasks]` and code regions, resolution only removes the line
      terminators: every line is emitted unchanged, and no task is declared. */
  lemma {:induction false} VerbatimWithoutDirectives(lines: seq<string>, task: string, hook: Hook)
    requires forall k | 0 <= k < |lines| :: !IsDirective(CleanLine(lines[k]))
    ensures Feed(Start, lines, task, hook) == Success(Start.(cfgdata := CleanLines(lines)))
    decreases |lines|
  {
    if |lines| > 0 {
      var init := lines[..|lines| - 1];
      var last := lines[|lines| - 1];
      assert lines == init + [last];
      FeedSnoc(Start, init, last, task, hook);
      VerbatimWithoutDirectives(init, task, hook);
      var m := Start.(cfgdata := CleanLines(init));
      PlainLineVerbatim(m, last, task, hook);
      assert CleanLines(init) + [CleanLine(last)] == CleanLines(lines);
    }
  }

  lemma ReadVerbatimWithoutDirectives(lines: seq<string>, task: string, hook: Hook)
    requires forall k | 0 <= k < |lines| :: !IsDirective(CleanLine(lines[k]))
    ensures ReadSbyConfig(lines, task, hook) == Success(Config(CleanLines(lines), []))
  {
    VerbatimWithoutDirectives(lines, task, hook);
  }

  /** The scan state of a file that has not declared anything. */
  predicate NothingDeclared(s: Scan) {
    s.tasklist == [] && s.allTags == [] && s.taskTags == map[] && s.activeTags == {} && !s.tasksSection
  }

  lemma StepWithoutTasksHeader(s: Scan, raw: string, task: string, hook: Hook)
    requires NothingDeclared(s)
    requires CleanLine(raw) != "[tasks]"
    requires Step(s, raw, task, hook).Success?
    ensures NothingDeclared(Step(s, raw, task, hook).value)
  {
    var line := CleanLine(raw);
    assert MatchGuard(line, s.allTags).None?;
    assert Dispose(s, line).Keep? ==> Dispose(s, line).text == line;
  }

  /** A configuration without a `[tasks]` line declares no task and no tag
      (whatever else it holds). */
  lemma {:induction false} NoTasksHeaderNoTasks(s: Scan, lines: seq<string>, task: string, hook: Hook)
    requires NothingDeclared(s)
    requires forall k | 0 <= k < |lines| :: CleanLine(lines[k]) != "[tasks]"
    requires Feed(s, lines, task, hook).Success?
    ensures NothingDeclared(Feed(s, lines, task, hook).value)
    decreases |lines|
  {
    if |lines| > 0 {
      var init := lines[..|lines| - 1];
      var last := lines[|lines| - 1];
      assert Feed(s, init, task, hook).Success?;
      NoTasksHeaderNoTasks(s, init, task, hook);
      var m := Feed(s, init, task, hook).value;
      assert Feed(s, lines, task, hook) == Step(m, last, task, hook);
      StepWithoutTasksHeader(m, last, task, hook);
    }
  }

  /** Parsing a file without a `[tasks]` line succeeds (when it opens and
      has no stray `--pycode-end--`) with no tasks and no tags. */
  lemma ParseWithoutTasks(lines: seq<string>)
    requires forall k | 0 <= k < |lines| :: CleanLine(lines[k]) != "[tasks]"
    requires Parse(Opened(lines)).ok
    ensures Parse(Opened(lines)).parser == EmptyParser
  {
    NoTasksHeaderNoTasks(Start, lines, "", NoOutput);
  }

  /** Inside a dropped block nothing is emitted or declared until the block
      closes (a nested block guard would re-arm it and is excluded here). */
  lemma {:induction false} DroppedBlockSilent(s: Scan, body: seq<string>, task: string, hook: Hook)
    requires s.skippingBlocks && s.skipBlock
    requires forall k | 0 <= k < |body| :: CleanLine(body[k]) != "--" && !OpensBlock(CleanLine(body[k]), s.allTags)
    ensures Feed(s, body, task, hook).Success? ==>
      Feed(s, body, task, hook).value == s.(tasksSection := Feed(s, body, task, hook).value.tasksSection)
    decreases |body|
  {
    if |body| > 0 {
      var init := body[..|body| - 1];
      var last := body[|body| - 1];
      DroppedBlockSilent(s, init, task, hook);
      if Feed(s, init, task, hook).Success? {
        var m := Feed(s, init, task, hook).value;
        var line := CleanLine(last);
        assert Feed(s, body, task, hook) == Step(m, last, task, hook);
        assert line != "--" && !OpensBlock(line, s.allTags);
        assert m.allTags == s.allTags;
        assert !Dispose(m, line).Keep? && !Dispose(m, line).OpenBlock? && !Dispose(m, line).CloseBlock?;
      }
    }
  }

  /** A block whose guard does not match is dropped entirely: the guard line,
      every line up to the closing `--`, and the `--` itself emit nothing and
      declare nothing, and the block is closed afterwards. */
  lemma UnmatchedBlockDropped(s: Scan, open: string, body: seq<string>, close: string, task: string, hook: Hook)
    requires OpensBlock(CleanLine(open), s.allTags)
    requires
      var g := MatchGuard(CleanLine(open), s.allTags).value;
      (g.tag in s.activeTags) == g.negated
    requires forall k | 0 <= k < |body| :: CleanLine(body[k]) != "--" && !OpensBlock(CleanLine(body[k]), s.allTags)
    requires CleanLine(close) == "--"
    ensures
      var r := Feed(s, [open] + body + [close], task, hook);
      r.Success? ==>
        && r.value.cfgdata == s.cfgdata
        && r.value.tasklist == s.tasklist
        && r.value.allTags == s.allTags
        && !r.value.skippingBlocks && !r.value.skipBlock
  {
    FeedAppend(s, [open] + body, [close], task, hook);
    FeedAppend(s, [open], body, task, hook);
    FeedOne(s, open, task, hook);
    BlockGuardOpensBlock(s, open, task, hook);
    var m := Step(s, open, task, hook).value;
    assert m.allTags == s.allTags;
    DroppedBlockSilent(m, body, task, hook);
    if Feed(m, body, task, hook).Success? {
      var e := Feed(m, body, task, hook).value;
      FeedOne(e, close, task, hook);
      DashesCloseBlock(e, close, task, hook);
    }
  }

  lemma BlockOpenedTwice(r: Result<Scan, ConfigError>)
    ensures BlockOpened(BlockOpened(r)) == BlockOpened(r)
  {
  }

  /** The lines of an open block (before its `--`) are handled exactly as if
      no block were open. */
  lemma {:induction false} OpenBlockTransparentFeed(s: Scan, body: seq<string>, task: string, hook: Hook)
    requires forall k | 0 <= k < |body| :: CleanLine(body[k]) != "--"
    ensures Feed(s.(skippingBlocks := true), body, task, hook) ==
      BlockOpened(Feed(s.(skippingBlocks := false), body, task, hook))
    decreases |body|
  {
    if |body| > 0 {
      var init := body[..|body| - 1];
      var last := body[|body| - 1];
      OpenBlockTransparentFeed(s, init, task, hook);
      var off := Feed(s.(skippingBlocks := false), init, task, hook);
      if off.Success? {
        var r := off.value;
        OpenBlockTransparent(r, last, task, hook);
        if r.skippingBlocks {
          assert r.(skippingBlocks := true) == r;
          BlockOpenedTwice(Step(r.(skippingBlocks := false), last, task, hook));
        } else {
          assert r.(skippingBlocks := false) == r;
        }
      }
    }
  }

  /** A block whose guard matches keeps its lines: up to its `--`, they are
      handled exactly as if there were no guard line and no block. */
  lemma MatchedBlockKept(s: Scan, open: string, body: seq<string>, task: string, hook: Hook)
    requires OpensBlock(CleanLine(open), s.allTags)
    requires
      var g := MatchGuard(CleanLine(open), s.allTags).value;
      (g.tag in s.activeTags) != g.negated
    requires forall k | 0 <= k < |body| :: CleanLine(body[k]) != "--"
    ensures Step(s, open, task, hook).Success?
    ensures Step(s, open, task, hook).value.cfgdata == s.cfgdata
    ensures
      var m := Step(s, open, task, hook).value;
      Feed(s, [open] + body, task, hook) == BlockOpened(Feed(m.(skippingBlocks := false), body, task, hook))
    ensures !Step(s, open, task, hook).value.skipBlock
  {
    BlockGuardOpensBlock(s, open, task, hook);
    var m := Step(s, open, task, hook).value;
    FeedAppend(s, [open], body, task, hook);
    FeedOne(s, open, task, hook);
    assert m.(skippingBlocks := true) == m;
    OpenBlockTransparentFeed(m, body, task, hook);
  }
}
