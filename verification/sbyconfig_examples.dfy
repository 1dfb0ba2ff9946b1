/** The parser's documented examples, worked through the model: a file
    without tasks, a file with two tasks, and a file with eight tasks whose
    tag lists overlap. The lemmas before them do the work for whole classes
    of lines, so that each example only has to check its own lines. */
module SbyConfigExamples {
  import opened Wrappers
  import opened Text
  import opened SbyConfig
  import opened SbyConfigFacts

  // ---------------------------------------------------------------------
  // Lines whose handling is fixed by their shape
  // ---------------------------------------------------------------------

  /** A tag name that contains no `:` and does not start with `~`. */
  predicate PlainTag(t: string) {
    ':' !in t && (|t| == 0 || t[0] != '~')
  }

  /** With plain tag names, `tag:text` is guarded by `tag` and by no other tag. */
  lemma PositiveGuardUnique(tag: string, text: string, t: string)
    requires PlainTag(tag) && PlainTag(t)
    ensures GuardedBy(tag + ":" + text, t) <==> t == tag
  {
    var line := tag + ":" + text;
    assert line[..|tag| + 1] == tag + ":";
    assert line[|tag|] == ':';
    assert forall i | 0 <= i < |tag| :: line[i] == tag[i];
    assert line[0] != '~' by {
      if |tag| > 0 {
        assert line[0] == tag[0];
      }
    }
    GuardColon(line, t);
    if PositiveGuard(line, t) {
      assert line[..|t| + 1] == t + ":";
      assert forall i | 0 <= i < |t| :: line[i] == line[..|t| + 1][i] == t[i];
      assert |t| == |tag|;
      assert t == line[..|t|];
      assert tag == line[..|tag|];
    }
  }

  /** With plain tag names, `~tag:text` is guarded, negatively, by `tag` and
      by no other tag. */
  lemma NegativeGuardUnique(tag: string, text: string, t: string)
    requires PlainTag(tag) && PlainTag(t)
    ensures !PositiveGuard("~" + tag + ":" + text, t)
    ensures GuardedBy("~" + tag + ":" + text, t) <==> t == tag
  {
    var line := "~" + tag + ":" + text;
    assert line[0] == '~';
    assert line[..|tag| + 2] == "~" + tag + ":";
    assert line[|tag| + 1] == ':';
    assert forall i | 0 <= i < |tag| :: line[i + 1] == tag[i];
    assert (t + ":")[0] != '~' by {
      if |t| > 0 {
        assert (t + ":")[0] == t[0];
      }
    }
    assert |t| + 1 <= |line| ==> line[..|t| + 1][0] == line[0];
    if NegativeGuard(line, t) {
      NegativeGuardNames(tag, text, t);
    }
  }

  /** The tag a `~tag:` line is negatively guarded by is `tag` itself. */
  lemma NegativeGuardNames(tag: string, text: string, t: string)
    requires PlainTag(tag) && PlainTag(t)
    requires NegativeGuard("~" + tag + ":" + text, t)
    ensures t == tag
  {
    var line := "~" + tag + ":" + text;
    assert line[|tag| + 1] == ':';
    assert forall i | 0 <= i < |tag| :: line[i + 1] == tag[i];
    GuardColon(line, t);
    assert line[..|t| + 2] == "~" + t + ":";
    assert forall i | 0 <= i < |t| :: line[i + 1] == line[..|t| + 2][i + 1] == t[i];
    assert |t| == |tag|;
    assert t == line[1..|t| + 1];
    assert tag == line[1..|tag| + 1];
  }

  /** The scan state between sections: not in `[tasks]`, no block open, no
      code region open. */
  predicate Settled(s: Scan) {
    !s.tasksSection && !s.skippingBlocks && !s.skipBlock && s.pycode.None?
  }

  /** The line ends inside a word, on a character no directive and no bare
      guard ends with. */
  predicate EndsInWord(line: string) {
    && |line| > 0
    && !IsSpace(line[|line| - 1])
    && line[|line| - 1] != ':'
    && line[|line| - 1] != ']'
    && line[|line| - 1] != '-'
  }

  /** A line that changes nothing but the output once the task list is
      known: it has no terminator left to strip, is no directive, and either
      has no `:` at all or is guarded by a declared tag and ends inside a
      word. */
  predicate QuietLine(raw: string, tags: seq<string>) {
    && CleanLine(raw) == raw
    && !IsDirective(raw)
    && (':' !in raw || (EndsInWord(raw) && exists t | t in tags :: GuardedBy(raw, t)))
  }

  /** The text after a guard ends where the line ends; so it is not empty,
      and it is no directive when the line ends inside a word. */
  lemma GuardRestEndsLikeLine(line: string, tag: string)
    requires GuardedBy(line, tag) && EndsInWord(line)
    ensures
      var rest := GuardOf(line, tag).rest;
      && rest != ""
      && rest[|rest| - 1] == line[|line| - 1]
      && !IsDirective(rest)
  {
    GuardColon(line, tag);
    var g := GuardOf(line, tag);
    if PositiveGuard(line, tag) {
      assert line[|tag|] == ':';
      SuffixKeepsLast(line, |tag| + 1);
      assert g.rest == LStrip(line[|tag| + 1..]);
    } else {
      assert line[|tag| + 1] == ':';
      SuffixKeepsLast(line, |tag| + 2);
      assert g.rest == LStrip(line[|tag| + 2..]);
    }
    DirectiveEnding(g.rest);
  }

  /** Left-stripping a suffix that ends on a non-space keeps that last
      character. */
  lemma SuffixKeepsLast(line: string, p: nat)
    requires p < |line| && !IsSpace(line[|line| - 1])
    ensures
      var rest := LStrip(line[p..]);
      |rest| > 0 && rest[|rest| - 1] == line[|line| - 1]
  {
    var suffix := line[p..];
    assert suffix[|suffix| - 1] == line[|line| - 1];
    var rest := LStrip(suffix);
    assert rest[|rest| - 1] == suffix[|suffix| - 1];
  }

  /** Every directive ends with `]` or `-`. */
  lemma DirectiveEnding(d: string)
    ensures IsDirective(d) ==> |d| > 0 && (d[|d| - 1] == ']' || d[|d| - 1] == '-')
  {
    if d == "[tasks]" {
      assert d[6] == ']';
    } else if d == "--pycode-begin--" {
      assert d[15] == '-';
    } else if d == "--pycode-end--" {
      assert d[13] == '-';
    }
  }

  lemma QuietStep(s: Scan, raw: string, task: string, hook: Hook)
    requires Settled(s)
    requires QuietLine(raw, s.allTags)
    ensures Step(s, raw, task, hook).Success?
    ensures Step(s, raw, task, hook).value == s.(cfgdata := Step(s, raw, task, hook).value.cfgdata)
  {
    if ':' !in raw {
      ColonFreeLineUnguarded(raw, s.allTags);
      ColonFreeNotSpecifier(raw);
      PlainLineVerbatim(s, raw, task, hook);
    } else {
      var t :| t in s.allTags && GuardedBy(raw, t);
      var k :| 0 <= k < |s.allTags| && s.allTags[k] == t;
      var g := MatchGuard(raw, s.allTags).value;
      assert g == GuardOf(raw, g.tag);
      GuardRestEndsLikeLine(raw, g.tag);
      GuardedLineKeptIffMatched(s, raw, task, hook);
    }
  }

  /** Once the task list is known, quiet lines never fail and change nothing
      but the output. */
  lemma {:induction false} QuietTail(s: Scan, lines: seq<string>, task: string, hook: Hook)
    requires Settled(s)
    requires forall l | l in lines :: QuietLine(l, s.allTags)
    ensures Feed(s, lines, task, hook).Success?
    ensures Feed(s, lines, task, hook).value == s.(cfgdata := Feed(s, lines, task, hook).value.cfgdata)
    decreases |lines|
  {
    if |lines| > 0 {
      var init := lines[..|lines| - 1];
      var last := lines[|lines| - 1];
      assert lines == init + [last];
      FeedSnoc(s, init, last, task, hook);
      QuietTail(s, init, task, hook);
      var m := Feed(s, init, task, hook).value;
      QuietStep(m, last, task, hook);
    }
  }

  /** No directive contains a `:`. */
  lemma ColonLineIsNoDirective(line: string)
    requires ':' in line
    ensures !IsDirective(line)
  {
    assert ':' !in "[tasks]" && ':' !in "--pycode-begin--" && ':' !in "--pycode-end--";
  }

  /** With plain declared tags, the guard of `tag:text` is `tag`, wherever
      `tag` stands in the declaration order. */
  lemma PositiveGuardSelected(tag: string, text: string, tags: seq<string>)
    requires tag in tags
    requires forall t | t in tags :: PlainTag(t)
    ensures MatchGuard(tag + ":" + text, tags) == Some(Guard(tag, false, LStrip(text)))
  {
    forall k | 0 <= k < |tags| && tags[k] != tag
      ensures !GuardedBy(tag + ":" + text, tags[k])
    {
      PositiveGuardUnique(tag, text, tags[k]);
    }
    PositiveGuardForm(tag, text, tags);
  }

  /** With plain declared tags, the guard of `~tag:text` is the negated
      `tag`, wherever `tag` stands in the declaration order. */
  lemma NegativeGuardSelected(tag: string, text: string, tags: seq<string>)
    requires tag in tags
    requires forall t | t in tags :: PlainTag(t)
    ensures MatchGuard("~" + tag + ":" + text, tags) == Some(Guard(tag, true, LStrip(text)))
  {
    forall k | 0 <= k < |tags| && tags[k] != tag
      ensures !GuardedBy("~" + tag + ":" + text, tags[k])
    {
      NegativeGuardUnique(tag, text, tags[k]);
    }
    NegativeGuardForm(tag, text, tags);
  }

  /** A colon-free line that is no directive is quiet. */
  lemma PlainQuiet(line: string, tags: seq<string>)
    requires ':' !in line && !IsDirective(line)
    requires |line| == 0 || (line[|line| - 1] != '\n' && line[|line| - 1] != '\r')
    ensures QuietLine(line, tags)
  {
    CleanLineDropsTerminator(line);
  }

  /** A line guarded by a declared tag that ends inside a word is quiet. */
  lemma GuardedQuiet(line: string, tag: string, tags: seq<string>)
    requires tag in tags && GuardedBy(line, tag) && EndsInWord(line)
    ensures QuietLine(line, tags)
  {
    CleanLineDropsTerminator(line);
    GuardColon(line, tag);
    assert ':' in line;
    ColonLineIsNoDirective(line);
  }

  /** `tag:text`, with a declared tag and a text that ends inside a word,
      is quiet. */
  lemma PositiveLineQuiet(tag: string, text: string, tags: seq<string>)
    requires tag in tags && EndsInWord(text)
    ensures QuietLine(tag + ":" + text, tags)
  {
    var line := tag + ":" + text;
    assert line[..|tag| + 1] == tag + ":";
    assert line[|line| - 1] == text[|text| - 1];
    GuardedQuiet(line, tag, tags);
  }

  /** `~tag:text`, with a declared tag and a text that ends inside a word,
      is quiet. */
  lemma NegativeLineQuiet(tag: string, text: string, tags: seq<string>)
    requires tag in tags && EndsInWord(text)
    ensures QuietLine("~" + tag + ":" + text, tags)
  {
    var line := "~" + tag + ":" + text;
    assert line[..|tag| + 2] == "~" + tag + ":";
    assert line[|line| - 1] == text[|text| - 1];
    GuardedQuiet(line, tag, tags);
  }

  // ---------------------------------------------------------------------
  // The `[tasks]` section
  // ---------------------------------------------------------------------

  /** A line of the `[tasks]` section that declares the task of its words:
      no terminator, no `:`, and not a section header or comment. */
  predicate TaskLine(raw: string) {
    && CleanLine(raw) == raw
    && ':' !in raw
    && (|raw| == 0 || (raw[0] != '[' && raw[0] != '#'))
  }

  /** A colon-free line inside `[tasks]` declares the task of its words. */
  lemma TaskLineStep(s: Scan, raw: string, task: string, hook: Hook)
    requires s.tasksSection && !s.skipBlock && !s.skippingBlocks
    requires TaskLine(raw)
    ensures Step(s, raw, task, hook) == Success(DeclareTask(s, Tokens(raw), task))
  {
    ColonFreeLineUnguarded(raw, s.allTags);
    ColonFreeNotSpecifier(raw);
    assert !StartsWith(raw, "[") && !StartsWith(raw, "#") by {
      if |raw| > 0 {
        assert raw[..1][0] == raw[0];
      }
    }
    assert Dispose(s, raw) == Keep(raw);
    assert s.(tasksSection := true) == s;
  }

  /** The characters task names are made of in the examples. */
  predicate NameChar(c: char) {
    ('a' <= c <= 'z') || c == '_'
  }

  /** The whitespace that separates the words of a task line in the examples. */
  predicate GapChar(c: char) {
    c == ' ' || c == '\t'
  }

  /** Words and the gaps after them, as a task line is laid out: names made
      of name characters, each gap but the last non-empty whitespace, and
      nothing after the last word. */
  predicate Layout(words: seq<string>, gaps: seq<string>) {
    && |gaps| == |words|
    && (forall k | 0 <= k < |words| :: |words[k]| > 0)
    && (forall k, i | 0 <= k < |words| && 0 <= i < |words[k]| :: NameChar(words[k][i]))
    && (forall k, i | 0 <= k < |gaps| && 0 <= i < |gaps[k]| :: GapChar(gaps[k][i]))
    && (forall k | 0 <= k < |gaps| - 1 :: |gaps[k]| > 0)
  }

  lemma {:induction false} SpacedChars(words: seq<string>, gaps: seq<string>)
    requires Layout(words, gaps)
    ensures forall i | 0 <= i < |Spaced(words, gaps)| ::
      NameChar(Spaced(words, gaps)[i]) || GapChar(Spaced(words, gaps)[i])
    decreases |words|
  {
    if |words| > 0 {
      var tail := Spaced(words[1..], gaps[1..]);
      SpacedChars(words[1..], gaps[1..]);
      var line := words[0] + gaps[0] + tail;
      assert forall i | 0 <= i < |words[0]| :: line[i] == words[0][i];
      assert forall i | 0 <= i < |gaps[0]| :: line[|words[0]| + i] == gaps[0][i];
      assert forall i | 0 <= i < |tail| :: line[|words[0]| + |gaps[0]| + i] == tail[i];
    }
  }

  /** A laid-out line is a task line whose words are the given words. */
  lemma SpacedTaskLine(words: seq<string>, gaps: seq<string>)
    requires Layout(words, gaps)
    ensures TaskLine(Spaced(words, gaps))
    ensures Tokens(Spaced(words, gaps)) == words
  {
    var line := Spaced(words, gaps);
    SpacedChars(words, gaps);
    assert forall i | 0 <= i < |line| :: line[i] != ':' && line[i] != '[' && line[i] != '#';
    assert ':' !in line;
    CleanLineDropsTerminator(line);
    TokensOfSpaced(words, gaps);
  }

  /** Each line's words and gaps form a layout. */
  predicate Layouts(words: seq<seq<string>>, gaps: seq<seq<string>>) {
    && |gaps| == |words|
    && (forall k | 0 <= k < |words| :: |gaps[k]| == |words[k]|)
    && (forall k | 0 <= k < |words| :: Layout(words[k], gaps[k]))
  }

  /** Every line of a `[tasks]` section, laid out word by word. */
  function SpacedLines(words: seq<seq<string>>, gaps: seq<seq<string>>): (lines: seq<string>)
    requires |gaps| == |words|
    requires forall k | 0 <= k < |words| :: |gaps[k]| == |words[k]|
    ensures |lines| == |words|
    ensures forall k | 0 <= k < |words| :: lines[k] == Spaced(words[k], gaps[k])
    decreases |words|
  {
    if |words| == 0 then [] else [Spaced(words[0], gaps[0])] + SpacedLines(words[1..], gaps[1..])
  }

  /** Declaring the tasks of several lines in order. */
  function DeclareAll(s: Scan, words: seq<seq<string>>, task: string): (r: Scan)
    decreases |words|
  {
    if |words| == 0 then s else DeclareAll(DeclareTask(s, words[0], task), words[1..], task)
  }

  /** The first word of each non-empty line: the tasks the lines declare. */
  function Firsts(words: seq<seq<string>>): (names: seq<string>)
    ensures |names| <= |words|
    decreases |words|
  {
    if |words| == 0 then []
    else (if |words[0]| > 0 then [words[0][0]] else []) + Firsts(words[1..])
  }

  /** All words of all lines, in order: the tags the lines declare. */
  function Flatten(words: seq<seq<string>>): (tags: seq<string>)
    ensures |words| == 0 ==> tags == []
    decreases |words|
  {
    if |words| == 0 then [] else words[0] + Flatten(words[1..])
  }

  /** Declaring lines in order appends their first words to the task list
      and all their words to the tag list. */
  lemma {:induction false} DeclareAllLists(s: Scan, words: seq<seq<string>>, task: string)
    ensures DeclareAll(s, words, task).tasklist == s.tasklist + Firsts(words)
    ensures DeclareAll(s, words, task).allTags == s.allTags + Flatten(words)
    decreases |words|
  {
    if |words| > 0 {
      var s1 := DeclareTask(s, words[0], task);
      DeclareAllLists(s1, words[1..], task);
      if |words[0]| > 0 {
        assert s.tasklist + [words[0][0]] + Firsts(words[1..]) == s.tasklist + Firsts(words);
      } else {
        assert Firsts(words) == Firsts(words[1..]);
      }
      assert s.allTags + words[0] + Flatten(words[1..]) == s.allTags + Flatten(words);
    } else {
      assert s.tasklist + [] == s.tasklist && s.allTags + [] == s.allTags;
    }
  }

  /** A task's entry is left alone by lines that declare other tasks. */
  lemma {:induction false} DeclareAllKeepsEntry(s: Scan, words: seq<seq<string>>, task: string, name: string)
    requires name in s.taskTags
    requires forall j | 0 <= j < |words| :: |words[j]| == 0 || words[j][0] != name
    ensures name in DeclareAll(s, words, task).taskTags
    ensures DeclareAll(s, words, task).taskTags[name] == s.taskTags[name]
    decreases |words|
  {
    if |words| > 0 {
      var s1 := DeclareTask(s, words[0], task);
      DeclareAllKeepsEntry(s1, words[1..], task, name);
    }
  }

  /** Without blank lines, the first words are one per line. */
  lemma {:induction false} FirstsOfLines(words: seq<seq<string>>)
    requires forall j | 0 <= j < |words| :: |words[j]| > 0
    ensures |Firsts(words)| == |words|
    ensures forall j | 0 <= j < |words| :: Firsts(words)[j] == words[j][0]
    decreases |words|
  {
    if |words| > 0 {
      FirstsOfLines(words[1..]);
      assert forall j | 1 <= j < |words| :: words[1..][j - 1] == words[j];
    }
  }

  /** A task's tags are the words of the last line that declares it. */
  lemma {:induction false} DeclareAllTags(s: Scan, words: seq<seq<string>>, task: string, k: nat)
    requires forall j | 0 <= j < |words| :: |words[j]| > 0
    requires k < |Firsts(words)|
    requires words[k][0] !in Firsts(words)[k + 1..]
    ensures words[k][0] in DeclareAll(s, words, task).taskTags
    ensures DeclareAll(s, words, task).taskTags[words[k][0]] == words[k]
    decreases |words|
  {
    var s1 := DeclareTask(s, words[0], task);
    FirstsOfLines(words);
    FirstsOfLines(words[1..]);
    assert forall j | 1 <= j < |words| :: words[1..][j - 1] == words[j];
    if k == 0 {
      forall j | 0 <= j < |words[1..]|
        ensures words[1..][j][0] != words[0][0]
      {
        assert Firsts(words)[1..][j] == words[j + 1][0];
      }
      DeclareAllKeepsEntry(s1, words[1..], task, words[0][0]);
    } else {
      assert Firsts(words[1..])[k..] == Firsts(words)[k + 1..];
      DeclareAllTags(s1, words[1..], task, k - 1);
    }
  }

  /** Declaring tasks touches only the declarations. */
  lemma {:induction false} DeclareAllKeeps(s: Scan, words: seq<seq<string>>, task: string)
    ensures
      var r := DeclareAll(s, words, task);
      r == s.(tasklist := r.tasklist, allTags := r.allTags, taskTags := r.taskTags, activeTags := r.activeTags)
    decreases |words|
  {
    if |words| > 0 {
      DeclareAllKeeps(DeclareTask(s, words[0], task), words[1..], task);
    }
  }

  /** Inside `[tasks]`, laid-out lines declare their tasks one after the
      other, and nothing else happens. */
  lemma {:induction false} TaskLinesFeed(s: Scan, words: seq<seq<string>>, gaps: seq<seq<string>>, task: string, hook: Hook)
    requires s.tasksSection && !s.skipBlock && !s.skippingBlocks
    requires Layouts(words, gaps)
    ensures Feed(s, SpacedLines(words, gaps), task, hook) == Success(DeclareAll(s, words, task))
    decreases |words|
  {
    var lines := SpacedLines(words, gaps);
    if |words| > 0 {
      assert lines == [lines[0]] + lines[1..];
      assert lines[1..] == SpacedLines(words[1..], gaps[1..]);
      FeedCons(s, lines[0], lines[1..], task, hook);
      SpacedTaskLine(words[0], gaps[0]);
      TaskLineStep(s, lines[0], task, hook);
      var s1 := DeclareTask(s, words[0], task);
      assert Step(s, lines[0], task, hook) == Success(s1);
      assert s1.tasksSection && !s1.skipBlock && !s1.skippingBlocks;
      TaskLinesFeed(s1, words[1..], gaps[1..], task, hook);
      assert DeclareAll(s, words, task) == DeclareAll(s1, words[1..], task);
    }
  }

  /** The `[tasks]` header opens the task section of a fresh scan. */
  lemma TasksHeaderOpens(task: string, hook: Hook)
    ensures Feed(Start, ["[tasks]"], task, hook) == Success(Start.(tasksSection := true))
  {
    CleanLineDropsTerminator("[tasks]");
    SectionHeaderStep(Start, "[tasks]", task, hook);
    FeedOne(Start, "[tasks]", task, hook);
  }

  /** A blank line inside `[tasks]` declares nothing; the next section
      header closes the section and is emitted. */
  lemma BlankThenHeader(s: Scan, header: string, task: string, hook: Hook)
    requires s.tasksSection && !s.skipBlock && !s.skippingBlocks && s.pycode.None?
    requires ':' !in header && |header| > 0 && header[0] == '[' && header[|header| - 1] == ']'
    ensures Feed(s, ["", header], task, hook) ==
      if header == "[tasks]" then Success(s)
      else Success(s.(tasksSection := false, cfgdata := s.cfgdata + [header]))
  {
    FeedCons(s, "", [header], task, hook);
    TaskLineStep(s, "", task, hook);
    assert Tokens("") == [];
    assert DeclareTask(s, [], task) == s;
    FeedOne(s, header, task, hook);
    CleanLineDropsTerminator(header);
    SectionHeaderStep(s, header, task, hook);
  }

  /** A file that starts with a `[tasks]` section of laid-out lines, a blank
      line and a section header: its state once the header is read. */
  lemma TasksHead(words: seq<seq<string>>, gaps: seq<seq<string>>, header: string, task: string, hook: Hook)
    requires Layouts(words, gaps)
    requires ':' !in header && |header| > 0 && header[0] == '[' && header[|header| - 1] == ']'
    requires header != "[tasks]"
    ensures
      var s := DeclareAll(Start.(tasksSection := true), words, task);
      Feed(Start, ["[tasks]"] + SpacedLines(words, gaps) + ["", header], task, hook) ==
        Success(s.(tasksSection := false, cfgdata := [header]))
  {
    var lines := SpacedLines(words, gaps);
    var s1 := Start.(tasksSection := true);
    var s := DeclareAll(s1, words, task);
    TasksHeaderOpens(task, hook);
    TaskLinesFeed(s1, words, gaps, task, hook);
    FeedAppend(Start, ["[tasks]"], lines, task, hook);
    assert Feed(Start, ["[tasks]"] + lines, task, hook) == Success(s);
    DeclareAllKeeps(s1, words, task);
    assert s.tasksSection && !s.skipBlock && !s.skippingBlocks && s.pycode.None? && s.cfgdata == [];
    BlankThenHeader(s, header, task, hook);
    assert s.cfgdata + [header] == [header];
    FeedAppend(Start, ["[tasks]"] + lines, ["", header], task, hook);
  }

  // ---------------------------------------------------------------------
  // A file without tasks (tests/sbyparser.cc:39-60)
  // ---------------------------------------------------------------------

  const DemoOptions: seq<string> := [
    "[options]",
    "mode bmc",
    "depth 100",
    ""]

  lemma DemoOptionsLine0(tags: seq<string>)
    ensures QuietLine(DemoOptions[0], tags)
  {
    PlainQuiet(DemoOptions[0], tags);
  }

  lemma DemoOptionsLine1(tags: seq<string>)
    ensures QuietLine(DemoOptions[1], tags)
  {
    PlainQuiet(DemoOptions[1], tags);
  }

  lemma DemoOptionsLine2(tags: seq<string>)
    ensures QuietLine(DemoOptions[2], tags)
  {
    PlainQuiet(DemoOptions[2], tags);
  }

  lemma DemoOptionsLine3(tags: seq<string>)
    ensures QuietLine(DemoOptions[3], tags)
  {
    PlainQuiet(DemoOptions[3], tags);
  }

  lemma DemoOptionsQuiet(tags: seq<string>)
    ensures forall l | l in DemoOptions :: QuietLine(l, tags)
  {
    forall k | 0 <= k < |DemoOptions|
      ensures QuietLine(DemoOptions[k], tags)
    {
      if k == 0 {
        DemoOptionsLine0(tags);
      } else if k == 1 {
        DemoOptionsLine1(tags);
      } else if k == 2 {
        DemoOptionsLine2(tags);
      } else {
        DemoOptionsLine3(tags);
      }
    }
  }

  const DemoEngines: seq<string> := ["[engines]", "smtbmc", ""]

  lemma DemoEnginesLine0(tags: seq<string>)
    ensures QuietLine(DemoEngines[0], tags)
  {
    PlainQuiet(DemoEngines[0], tags);
  }

  lemma DemoEnginesLine1(tags: seq<string>)
    ensures QuietLine(DemoEngines[1], tags)
  {
    PlainQuiet(DemoEngines[1], tags);
  }

  lemma DemoEnginesLine2(tags: seq<string>)
    ensures QuietLine(DemoEngines[2], tags)
  {
    PlainQuiet(DemoEngines[2], tags);
  }

  lemma DemoEnginesQuiet(tags: seq<string>)
    ensures forall l | l in DemoEngines :: QuietLine(l, tags)
  {
    forall k | 0 <= k < |DemoEngines|
      ensures QuietLine(DemoEngines[k], tags)
    {
      if k == 0 {
        DemoEnginesLine0(tags);
      } else if k == 1 {
        DemoEnginesLine1(tags);
      } else {
        DemoEnginesLine2(tags);
      }
    }
  }

  const DemoScript: seq<string> := [
    "[script]",
    "read -formal demo.sv",
    "prep -top demo",
    ""]

  lemma DemoScriptLine0(tags: seq<string>)
    ensures QuietLine(DemoScript[0], tags)
  {
    PlainQuiet(DemoScript[0], tags);
  }

  lemma DemoScriptLine1(tags: seq<string>)
    ensures QuietLine(DemoScript[1], tags)
  {
    PlainQuiet(DemoScript[1], tags);
  }

  lemma DemoScriptLine2(tags: seq<string>)
    ensures QuietLine(DemoScript[2], tags)
  {
    PlainQuiet(DemoScript[2], tags);
  }

  lemma DemoScriptLine3(tags: seq<string>)
    ensures QuietLine(DemoScript[3], tags)
  {
    PlainQuiet(DemoScript[3], tags);
  }

  lemma DemoScriptQuiet(tags: seq<string>)
    ensures forall l | l in DemoScript :: QuietLine(l, tags)
  {
    forall k | 0 <= k < |DemoScript|
      ensures QuietLine(DemoScript[k], tags)
    {
      if k == 0 {
        DemoScriptLine0(tags);
      } else if k == 1 {
        DemoScriptLine1(tags);
      } else if k == 2 {
        DemoScriptLine2(tags);
      } else {
        DemoScriptLine3(tags);
      }
    }
  }

  const DemoFiles: seq<string> := ["[files]", "demo.sv"]

  lemma DemoFilesLine0(tags: seq<string>)
    ensures QuietLine(DemoFiles[0], tags)
  {
    PlainQuiet(DemoFiles[0], tags);
  }

  lemma DemoFilesLine1(tags: seq<string>)
    ensures QuietLine(DemoFiles[1], tags)
  {
    PlainQuiet(DemoFiles[1], tags);
  }

  lemma DemoFilesQuiet(tags: seq<string>)
    ensures forall l | l in DemoFiles :: QuietLine(l, tags)
  {
    forall k | 0 <= k < |DemoFiles|
      ensures QuietLine(DemoFiles[k], tags)
    {
      if k == 0 {
        DemoFilesLine0(tags);
      } else {
        DemoFilesLine1(tags);
      }
    }
  }

  const DemoConfig: seq<string> := DemoOptions + DemoEngines + DemoScript + DemoFiles

  lemma DemoConfigQuiet()
    ensures forall l | l in DemoConfig :: QuietLine(l, [])
  {
    DemoOptionsQuiet([]);
    DemoEnginesQuiet([]);
    DemoScriptQuiet([]);
    DemoFilesQuiet([]);
  }

  /** A file without `[tasks]` parses, and has no tasks. */
  lemma DemoParse()
    ensures Parse(Opened(DemoConfig)) == ParseOutcome(true, EmptyParser)
    ensures GetTasks(Parse(Opened(DemoConfig)).parser) == []
  {
    DemoConfigQuiet();
    QuietTail(Start, DemoConfig, "", NoOutput);
  }

  // ---------------------------------------------------------------------
  // A file with two tasks (tests/sbyparser.cc:62-97)
  // ---------------------------------------------------------------------

  /** The words of the `[tasks]` lines. */
  const TwoTaskWords: seq<seq<string>> := [
    ["prf"],
    ["cvr"]]

  /** The whitespace after each word of the `[tasks]` lines. */
  const TwoTaskGaps: seq<seq<string>> := [
    [""],
    [""]]

  /** Every tag the `[tasks]` lines declare, in order. */
  const TwoTaskTags: seq<string> := Flatten(TwoTaskWords)

  lemma TwoTaskLayouts()
    ensures Layouts(TwoTaskWords, TwoTaskGaps)
  {
  }

  const TwoTaskOptions: seq<string> := [
    "prf:" + " mode prove",
    "prf:" + " depth  5",
    "cvr:" + " mode cover",
    "cvr:" + " depth 60",
    ""]

  lemma TwoTaskOptionsLine0(tags: seq<string>)
    requires "prf" in tags
    ensures QuietLine(TwoTaskOptions[0], tags)
  {
    PositiveLineQuiet("prf", " mode prove", tags);
    assert "prf" + ":" == "prf:";
  }

  lemma TwoTaskOptionsLine1(tags: seq<string>)
    requires "prf" in tags
    ensures QuietLine(TwoTaskOptions[1], tags)
  {
    PositiveLineQuiet("prf", " depth  5", tags);
    assert "prf" + ":" == "prf:";
  }

  lemma TwoTaskOptionsLine2(tags: seq<string>)
    requires "cvr" in tags
    ensures QuietLine(TwoTaskOptions[2], tags)
  {
    PositiveLineQuiet("cvr", " mode cover", tags);
    assert "cvr" + ":" == "cvr:";
  }

  lemma TwoTaskOptionsLine3(tags: seq<string>)
    requires "cvr" in tags
    ensures QuietLine(TwoTaskOptions[3], tags)
  {
    PositiveLineQuiet("cvr", " depth 60", tags);
    assert "cvr" + ":" == "cvr:";
  }

  lemma TwoTaskOptionsLine4(tags: seq<string>)
    ensures QuietLine(TwoTaskOptions[4], tags)
  {
    PlainQuiet(TwoTaskOptions[4], tags);
  }

  lemma TwoTaskOptionsQuiet(tags: seq<string>)
    requires "prf" in tags
    requires "cvr" in tags
    ensures forall l | l in TwoTaskOptions :: QuietLine(l, tags)
  {
    forall k | 0 <= k < |TwoTaskOptions|
      ensures QuietLine(TwoTaskOptions[k], tags)
    {
      if k == 0 {
        TwoTaskOptionsLine0(tags);
      } else if k == 1 {
        TwoTaskOptionsLine1(tags);
      } else if k == 2 {
        TwoTaskOptionsLine2(tags);
      } else if k == 3 {
        TwoTaskOptionsLine3(tags);
      } else {
        TwoTaskOptionsLine4(tags);
      }
    }
  }

  const TwoTaskEngines: seq<string> := ["[engines]", "smtbmc", ""]

  lemma TwoTaskEnginesLine0(tags: seq<string>)
    ensures QuietLine(TwoTaskEngines[0], tags)
  {
    PlainQuiet(TwoTaskEngines[0], tags);
  }

  lemma TwoTaskEnginesLine1(tags: seq<string>)
    ensures QuietLine(TwoTaskEngines[1], tags)
  {
    PlainQuiet(TwoTaskEngines[1], tags);
  }

  lemma TwoTaskEnginesLine2(tags: seq<string>)
    ensures QuietLine(TwoTaskEngines[2], tags)
  {
    PlainQuiet(TwoTaskEngines[2], tags);
  }

  lemma TwoTaskEnginesQuiet(tags: seq<string>)
    ensures forall l | l in TwoTaskEngines :: QuietLine(l, tags)
  {
    forall k | 0 <= k < |TwoTaskEngines|
      ensures QuietLine(TwoTaskEngines[k], tags)
    {
      if k == 0 {
        TwoTaskEnginesLine0(tags);
      } else if k == 1 {
        TwoTaskEnginesLine1(tags);
      } else {
        TwoTaskEnginesLine2(tags);
      }
    }
  }

  const TwoTaskScript: seq<string> := [
    "[script]",
    "read -formal -DPFCACHE fwb_master.v",
    "read -formal -DPFCACHE pfcache.v",
    "prep -top pfcache",
    ""]

  lemma TwoTaskScriptLine0(tags: seq<string>)
    ensures QuietLine(TwoTaskScript[0], tags)
  {
    PlainQuiet(TwoTaskScript[0], tags);
  }

  lemma TwoTaskScriptLine1(tags: seq<string>)
    ensures QuietLine(TwoTaskScript[1], tags)
  {
    PlainQuiet(TwoTaskScript[1], tags);
  }

  lemma TwoTaskScriptLine2(tags: seq<string>)
    ensures QuietLine(TwoTaskScript[2], tags)
  {
    PlainQuiet(TwoTaskScript[2], tags);
  }

  lemma TwoTaskScriptLine3(tags: seq<string>)
    ensures QuietLine(TwoTaskScript[3], tags)
  {
    PlainQuiet(TwoTaskScript[3], tags);
  }

  lemma TwoTaskScriptLine4(tags: seq<string>)
    ensures QuietLine(TwoTaskScript[4], tags)
  {
    PlainQuiet(TwoTaskScript[4], tags);
  }

  lemma TwoTaskScriptQuiet(tags: seq<string>)
    ensures forall l | l in TwoTaskScript :: QuietLine(l, tags)
  {
    forall k | 0 <= k < |TwoTaskScript|
      ensures QuietLine(TwoTaskScript[k], tags)
    {
      if k == 0 {
        TwoTaskScriptLine0(tags);
      } else if k == 1 {
        TwoTaskScriptLine1(tags);
      } else if k == 2 {
        TwoTaskScriptLine2(tags);
      } else if k == 3 {
        TwoTaskScriptLine3(tags);
      } else {
        TwoTaskScriptLine4(tags);
      }
    }
  }

  const TwoTaskFiles: seq<string> := ["[files]", "../../rtl/core/pfcache.v", "../../rtl/ex/fwb_master.v"]

  lemma TwoTaskFilesLine0(tags: seq<string>)
    ensures QuietLine(TwoTaskFiles[0], tags)
  {
    PlainQuiet(TwoTaskFiles[0], tags);
  }

  lemma TwoTaskFilesLine1(tags: seq<string>)
    ensures QuietLine(TwoTaskFiles[1], tags)
  {
    PlainQuiet(TwoTaskFiles[1], tags);
  }

  lemma TwoTaskFilesLine2(tags: seq<string>)
    ensures QuietLine(TwoTaskFiles[2], tags)
  {
    PlainQuiet(TwoTaskFiles[2], tags);
  }

  lemma TwoTaskFilesQuiet(tags: seq<string>)
    ensures forall l | l in TwoTaskFiles :: QuietLine(l, tags)
  {
    forall k | 0 <= k < |TwoTaskFiles|
      ensures QuietLine(TwoTaskFiles[k], tags)
    {
      if k == 0 {
        TwoTaskFilesLine0(tags);
      } else if k == 1 {
        TwoTaskFilesLine1(tags);
      } else {
        TwoTaskFilesLine2(tags);
      }
    }
  }

  const TwoTaskHead: seq<string> := ["[tasks]"] + SpacedLines(TwoTaskWords, TwoTaskGaps) + ["", "[options]"]

  const TwoTaskTail: seq<string> := TwoTaskOptions + TwoTaskEngines + TwoTaskScript + TwoTaskFiles

  const TwoTaskConfig: seq<string> := TwoTaskHead + TwoTaskTail

  lemma TwoTaskTailQuiet()
    ensures forall l | l in TwoTaskTail :: QuietLine(l, TwoTaskTags)
  {
    assert "prf" in TwoTaskTags && "cvr" in TwoTaskTags;
    TwoTaskOptionsQuiet(TwoTaskTags);
    TwoTaskEnginesQuiet(TwoTaskTags);
    TwoTaskScriptQuiet(TwoTaskTags);
    TwoTaskFilesQuiet(TwoTaskTags);
  }

  /** The scan state once the header after `[tasks]` is read. */
  lemma TwoTaskHeadState() returns (r: Scan)
    ensures Feed(Start, TwoTaskHead, "", NoOutput) == Success(r)
    ensures r == DeclareAll(Start.(tasksSection := true), TwoTaskWords, "").(tasksSection := false, cfgdata := ["[options]"])
    ensures Settled(r) && r.allTags == TwoTaskTags
  {
    TwoTaskLayouts();
    TasksHead(TwoTaskWords, TwoTaskGaps, "[options]", "", NoOutput);
    DeclareAllLists(Start.(tasksSection := true), TwoTaskWords, "");
    assert [] + TwoTaskTags == TwoTaskTags;
    r := DeclareAll(Start.(tasksSection := true), TwoTaskWords, "").(tasksSection := false, cfgdata := ["[options]"]);
  }

  /** The whole file reads without error, and declares what the `[tasks]`
      section declares. */
  lemma TwoTaskState() returns (r: Scan)
    ensures Feed(Start, TwoTaskConfig, "", NoOutput).Success?
    ensures
      var s := Feed(Start, TwoTaskConfig, "", NoOutput).value;
      s.tasklist == r.tasklist && s.allTags == r.allTags && s.taskTags == r.taskTags
    ensures r == DeclareAll(Start.(tasksSection := true), TwoTaskWords, "").(tasksSection := false, cfgdata := r.cfgdata)
  {
    r := TwoTaskHeadState();
    TwoTaskTailQuiet();
    QuietTail(r, TwoTaskTail, "", NoOutput);
    FeedAppend(Start, TwoTaskHead, TwoTaskTail, "", NoOutput);
  }

  // ---------------------------------------------------------------------
  // Eight tasks whose tags overlap (tests/sbyparser.cc:99-159)
  // ---------------------------------------------------------------------

  /** The words of the `[tasks]` lines. */
  const MultiTagWords: seq<seq<string>> := [
    ["full", "system", "lock", "dualread"],
    ["full_single", "system", "lock"],
    ["bare", "nolocal", "lock", "dualread"],
    ["nolock_nolocal", "nolocal", "nolock", "dualread"],
    ["nolock_system", "system", "nolock", "dualread"],
    ["piped", "system", "lock", "dualread"],
    ["cover", "system", "lock", "dualread"],
    ["cover_pipe", "system", "lock", "dualread", "cover", "piped"]]

  /** The whitespace after each word of the `[tasks]` lines. */
  const MultiTagGaps: seq<seq<string>> := [
    ["\t\t", "  ", "    ", ""],
    ["\t", "  ", ""],
    ["\t\t", " ", "    ", ""],
    ["\t", " ", "  ", ""],
    ["\t", "  ", "  ", ""],
    ["\t\t", "\t", "    ", ""],
    ["           ", " ", "     ", ""],
    ["      ", " ", "     ", " ", " ", ""]]

  /** Every tag the `[tasks]` lines declare, in order. */
  const MultiTagTags: seq<string> := Flatten(MultiTagWords)

  lemma MultiTagTaskLine0()
    ensures Layout(MultiTagWords[0], MultiTagGaps[0])
  {
  }

  lemma MultiTagTaskLine1()
    ensures Layout(MultiTagWords[1], MultiTagGaps[1])
  {
  }

  lemma MultiTagTaskLine2()
    ensures Layout(MultiTagWords[2], MultiTagGaps[2])
  {
  }

  lemma MultiTagTaskLine3()
    ensures Layout(MultiTagWords[3], MultiTagGaps[3])
  {
  }

  lemma MultiTagTaskLine4()
    ensures Layout(MultiTagWords[4], MultiTagGaps[4])
  {
  }

  lemma MultiTagTaskLine5()
    ensures Layout(MultiTagWords[5], MultiTagGaps[5])
  {
  }

  lemma MultiTagTaskLine6()
    ensures Layout(MultiTagWords[6], MultiTagGaps[6])
  {
  }

  lemma MultiTagTaskLine7()
    ensures Layout(MultiTagWords[7], MultiTagGaps[7])
  {
  }

  lemma MultiTagLayouts()
    ensures Layouts(MultiTagWords, MultiTagGaps)
  {
    forall k | 0 <= k < |MultiTagWords|
      ensures Layout(MultiTagWords[k], MultiTagGaps[k])
    {
      if k == 0 {
        MultiTagTaskLine0();
      } else if k == 1 {
        MultiTagTaskLine1();
      } else if k == 2 {
        MultiTagTaskLine2();
      } else if k == 3 {
        MultiTagTaskLine3();
      } else if k == 4 {
        MultiTagTaskLine4();
      } else if k == 5 {
        MultiTagTaskLine5();
      } else if k == 6 {
        MultiTagTaskLine6();
      } else {
        MultiTagTaskLine7();
      }
    }
  }

  const MultiTagOptions: seq<string> := [
    "~cover:" + " mode prove",
    "cover:" + "  mode cover",
    "depth 16",
    "full:" + "           depth 10",
    "bare:" + "           depth 11",
    "nolock_nolocal:" + " depth 11",
    "nolock_system:" + "  depth 11",
    "piped:" + "          depth 11",
    "cover:" + "          depth 24",
    "cover_pipe:" + "     depth 45",
    ""]

  lemma MultiTagOptionsLine0(tags: seq<string>)
    requires "cover" in tags
    ensures QuietLine(MultiTagOptions[0], tags)
  {
    NegativeLineQuiet("cover", " mode prove", tags);
    assert "~" + "cover" + ":" == "~cover:";
  }

  lemma MultiTagOptionsLine1(tags: seq<string>)
    requires "cover" in tags
    ensures QuietLine(MultiTagOptions[1], tags)
  {
    PositiveLineQuiet("cover", "  mode cover", tags);
    assert "cover" + ":" == "cover:";
  }

  lemma MultiTagOptionsLine2(tags: seq<string>)
    ensures QuietLine(MultiTagOptions[2], tags)
  {
    PlainQuiet(MultiTagOptions[2], tags);
  }

  lemma MultiTagOptionsLine3(tags: seq<string>)
    requires "full" in tags
    ensures QuietLine(MultiTagOptions[3], tags)
  {
    PositiveLineQuiet("full", "           depth 10", tags);
    assert "full" + ":" == "full:";
  }

  lemma MultiTagOptionsLine4(tags: seq<string>)
    requires "bare" in tags
    ensures QuietLine(MultiTagOptions[4], tags)
  {
    PositiveLineQuiet("bare", "           depth 11", tags);
    assert "bare" + ":" == "bare:";
  }

  lemma MultiTagOptionsLine5(tags: seq<string>)
    requires "nolock_nolocal" in tags
    ensures QuietLine(MultiTagOptions[5], tags)
  {
    PositiveLineQuiet("nolock_nolocal", " depth 11", tags);
    assert "nolock_nolocal" + ":" == "nolock_nolocal:";
  }

  lemma MultiTagOptionsLine6(tags: seq<string>)
    requires "nolock_system" in tags
    ensures QuietLine(MultiTagOptions[6], tags)
  {
    PositiveLineQuiet("nolock_system", "  depth 11", tags);
    assert "nolock_system" + ":" == "nolock_system:";
  }

  lemma MultiTagOptionsLine7(tags: seq<string>)
    requires "piped" in tags
    ensures QuietLine(MultiTagOptions[7], tags)
  {
    PositiveLineQuiet("piped", "          depth 11", tags);
    assert "piped" + ":" == "piped:";
  }

  lemma MultiTagOptionsLine8(tags: seq<string>)
    requires "cover" in tags
    ensures QuietLine(MultiTagOptions[8], tags)
  {
    PositiveLineQuiet("cover", "          depth 24", tags);
    assert "cover" + ":" == "cover:";
  }

  lemma MultiTagOptionsLine9(tags: seq<string>)
    requires "cover_pipe" in tags
    ensures QuietLine(MultiTagOptions[9], tags)
  {
    PositiveLineQuiet("cover_pipe", "     depth 45", tags);
    assert "cover_pipe" + ":" == "cover_pipe:";
  }

  lemma MultiTagOptionsLine10(tags: seq<string>)
    ensures QuietLine(MultiTagOptions[10], tags)
  {
    PlainQuiet(MultiTagOptions[10], tags);
  }

  lemma MultiTagOptionsQuiet(tags: seq<string>)
    requires "cover" in tags
    requires "full" in tags
    requires "bare" in tags
    requires "nolock_nolocal" in tags
    requires "nolock_system" in tags
    requires "piped" in tags
    requires "cover_pipe" in tags
    ensures forall l | l in MultiTagOptions :: QuietLine(l, tags)
  {
    forall k | 0 <= k < |MultiTagOptions|
      ensures QuietLine(MultiTagOptions[k], tags)
    {
      if k == 0 {
        MultiTagOptionsLine0(tags);
      } else if k == 1 {
        MultiTagOptionsLine1(tags);
      } else if k == 2 {
        MultiTagOptionsLine2(tags);
      } else if k == 3 {
        MultiTagOptionsLine3(tags);
      } else if k == 4 {
        MultiTagOptionsLine4(tags);
      } else if k == 5 {
        MultiTagOptionsLine5(tags);
      } else if k == 6 {
        MultiTagOptionsLine6(tags);
      } else if k == 7 {
        MultiTagOptionsLine7(tags);
      } else if k == 8 {
        MultiTagOptionsLine8(tags);
      } else if k == 9 {
        MultiTagOptionsLine9(tags);
      } else {
        MultiTagOptionsLine10(tags);
      }
    }
  }

  const MultiTagEngines: seq<string> := [
    "[engines]",
    "# smtbmc yices",
    "smtbmc --nopresat boolector",
    "# abc pdr",
    "# aiger suprove",
    "# aiger avy",
    ""]

  lemma MultiTagEnginesLine0(tags: seq<string>)
    ensures QuietLine(MultiTagEngines[0], tags)
  {
    PlainQuiet(MultiTagEngines[0], tags);
  }

  lemma MultiTagEnginesLine1(tags: seq<string>)
    ensures QuietLine(MultiTagEngines[1], tags)
  {
    PlainQuiet(MultiTagEngines[1], tags);
  }

  lemma MultiTagEnginesLine2(tags: seq<string>)
    ensures QuietLine(MultiTagEngines[2], tags)
  {
    PlainQuiet(MultiTagEngines[2], tags);
  }

  lemma MultiTagEnginesLine3(tags: seq<string>)
    ensures QuietLine(MultiTagEngines[3], tags)
  {
    PlainQuiet(MultiTagEngines[3], tags);
  }

  lemma MultiTagEnginesLine4(tags: seq<string>)
    ensures QuietLine(MultiTagEngines[4], tags)
  {
    PlainQuiet(MultiTagEngines[4], tags);
  }

  lemma MultiTagEnginesLine5(tags: seq<string>)
    ensures QuietLine(MultiTagEngines[5], tags)
  {
    PlainQuiet(MultiTagEngines[5], tags);
  }

  lemma MultiTagEnginesLine6(tags: seq<string>)
    ensures QuietLine(MultiTagEngines[6], tags)
  {
    PlainQuiet(MultiTagEngines[6], tags);
  }

  lemma MultiTagEnginesQuiet(tags: seq<string>)
    ensures forall l | l in MultiTagEngines :: QuietLine(l, tags)
  {
    forall k | 0 <= k < |MultiTagEngines|
      ensures QuietLine(MultiTagEngines[k], tags)
    {
      if k == 0 {
        MultiTagEnginesLine0(tags);
      } else if k == 1 {
        MultiTagEnginesLine1(tags);
      } else if k == 2 {
        MultiTagEnginesLine2(tags);
      } else if k == 3 {
        MultiTagEnginesLine3(tags);
      } else if k == 4 {
        MultiTagEnginesLine4(tags);
      } else if k == 5 {
        MultiTagEnginesLine5(tags);
      } else {
        MultiTagEnginesLine6(tags);
      }
    }
  }

  const MultiTagScript: seq<string> := [
    "[script]",
    "read -formal -D DCACHE fwb_master.v",
    "read -formal -D DCACHE iscachable.v",
    "read -formal -D DCACHE dcache.v",
    "piped:" + "\t\tchparam -set OPT_PIPE      1 dcache",
    "~piped:" + "\t\tchparam -set OPT_PIPE      0 dcache",
    "dualread:" + "\tchparam -set OPT_DUAL_READ_PORT\t1 dcache",
    "~dualread:" + "\tchparam -set OPT_DUAL_READ_PORT\t0 dcache",
    "lock:" + "\t\tchparam -set OPT_LOCK      1 dcache",
    "system:" + " \tchparam -set OPT_LOCAL_BUS 1 dcache",
    "nolock:" + "\t\tchparam -set OPT_LOCK      0 dcache",
    "nolocal:" + "\tchparam -set OPT_LOCAL_BUS 0 dcache",
    "prep -top dcache",
    ""]

  lemma MultiTagScriptLine0(tags: seq<string>)
    ensures QuietLine(MultiTagScript[0], tags)
  {
    PlainQuiet(MultiTagScript[0], tags);
  }

  lemma MultiTagScriptLine1(tags: seq<string>)
    ensures QuietLine(MultiTagScript[1], tags)
  {
    PlainQuiet(MultiTagScript[1], tags);
  }

  lemma MultiTagScriptLine2(tags: seq<string>)
    ensures QuietLine(MultiTagScript[2], tags)
  {
    PlainQuiet(MultiTagScript[2], tags);
  }

  lemma MultiTagScriptLine3(tags: seq<string>)
    ensures QuietLine(MultiTagScript[3], tags)
  {
    PlainQuiet(MultiTagScript[3], tags);
  }

  lemma MultiTagScriptLine4(tags: seq<string>)
    requires "piped" in tags
    ensures QuietLine(MultiTagScript[4], tags)
  {
    PositiveLineQuiet("piped", "\t\tchparam -set OPT_PIPE      1 dcache", tags);
    assert "piped" + ":" == "piped:";
  }

  lemma MultiTagScriptLine5(tags: seq<string>)
    requires "piped" in tags
    ensures QuietLine(MultiTagScript[5], tags)
  {
    NegativeLineQuiet("piped", "\t\tchparam -set OPT_PIPE      0 dcache", tags);
    assert "~" + "piped" + ":" == "~piped:";
  }

  lemma MultiTagScriptLine6(tags: seq<string>)
    requires "dualread" in tags
    ensures QuietLine(MultiTagScript[6], tags)
  {
    PositiveLineQuiet("dualread", "\tchparam -set OPT_DUAL_READ_PORT\t1 dcache", tags);
    assert "dualread" + ":" == "dualread:";
  }

  lemma MultiTagScriptLine7(tags: seq<string>)
    requires "dualread" in tags
    ensures QuietLine(MultiTagScript[7], tags)
  {
    NegativeLineQuiet("dualread", "\tchparam -set OPT_DUAL_READ_PORT\t0 dcache", tags);
    assert "~" + "dualread" + ":" == "~dualread:";
  }

  lemma MultiTagScriptLine8(tags: seq<string>)
    requires "lock" in tags
    ensures QuietLine(MultiTagScript[8], tags)
  {
    PositiveLineQuiet("lock", "\t\tchparam -set OPT_LOCK      1 dcache", tags);
    assert "lock" + ":" == "lock:";
  }

  lemma MultiTagScriptLine9(tags: seq<string>)
    requires "system" in tags
    ensures QuietLine(MultiTagScript[9], tags)
  {
    PositiveLineQuiet("system", " \tchparam -set OPT_LOCAL_BUS 1 dcache", tags);
    assert "system" + ":" == "system:";
  }

  lemma MultiTagScriptLine10(tags: seq<string>)
    requires "nolock" in tags
    ensures QuietLine(MultiTagScript[10], tags)
  {
    PositiveLineQuiet("nolock", "\t\tchparam -set OPT_LOCK      0 dcache", tags);
    assert "nolock" + ":" == "nolock:";
  }

  lemma MultiTagScriptLine11(tags: seq<string>)
    requires "nolocal" in tags
    ensures QuietLine(MultiTagScript[11], tags)
  {
    PositiveLineQuiet("nolocal", "\tchparam -set OPT_LOCAL_BUS 0 dcache", tags);
    assert "nolocal" + ":" == "nolocal:";
  }

  lemma MultiTagScriptLine12(tags: seq<string>)
    ensures QuietLine(MultiTagScript[12], tags)
  {
    PlainQuiet(MultiTagScript[12], tags);
  }

  lemma MultiTagScriptLine13(tags: seq<string>)
    ensures QuietLine(MultiTagScript[13], tags)
  {
    PlainQuiet(MultiTagScript[13], tags);
  }

  lemma MultiTagScriptQuiet(tags: seq<string>)
    requires "piped" in tags
    requires "dualread" in tags
    requires "lock" in tags
    requires "system" in tags
    requires "nolock" in tags
    requires "nolocal" in tags
    ensures forall l | l in MultiTagScript :: QuietLine(l, tags)
  {
    forall k | 0 <= k < |MultiTagScript|
      ensures QuietLine(MultiTagScript[k], tags)
    {
      if k == 0 {
        MultiTagScriptLine0(tags);
      } else if k == 1 {
        MultiTagScriptLine1(tags);
      } else if k == 2 {
        MultiTagScriptLine2(tags);
      } else if k == 3 {
        MultiTagScriptLine3(tags);
      } else if k == 4 {
        MultiTagScriptLine4(tags);
      } else if k == 5 {
        MultiTagScriptLine5(tags);
      } else if k == 6 {
        MultiTagScriptLine6(tags);
      } else if k == 7 {
        MultiTagScriptLine7(tags);
      } else if k == 8 {
        MultiTagScriptLine8(tags);
      } else if k == 9 {
        MultiTagScriptLine9(tags);
      } else if k == 10 {
        MultiTagScriptLine10(tags);
      } else if k == 11 {
        MultiTagScriptLine11(tags);
      } else if k == 12 {
        MultiTagScriptLine12(tags);
      } else {
        MultiTagScriptLine13(tags);
      }
    }
  }

  const MultiTagFiles: seq<string> := [
    "[files]",
    "../../rtl/core/dcache.v",
    "../../rtl/core/iscachable.v",
    "../../rtl/ex/fwb_master.v",
    "#"]

  lemma MultiTagFilesLine0(tags: seq<string>)
    ensures QuietLine(MultiTagFiles[0], tags)
  {
    PlainQuiet(MultiTagFiles[0], tags);
  }

  lemma MultiTagFilesLine1(tags: seq<string>)
    ensures QuietLine(MultiTagFiles[1], tags)
  {
    PlainQuiet(MultiTagFiles[1], tags);
  }

  lemma MultiTagFilesLine2(tags: seq<string>)
    ensures QuietLine(MultiTagFiles[2], tags)
  {
    PlainQuiet(MultiTagFiles[2], tags);
  }

  lemma MultiTagFilesLine3(tags: seq<string>)
    ensures QuietLine(MultiTagFiles[3], tags)
  {
    PlainQuiet(MultiTagFiles[3], tags);
  }

  lemma MultiTagFilesLine4(tags: seq<string>)
    ensures QuietLine(MultiTagFiles[4], tags)
  {
    PlainQuiet(MultiTagFiles[4], tags);
  }

  lemma MultiTagFilesQuiet(tags: seq<string>)
    ensures forall l | l in MultiTagFiles :: QuietLine(l, tags)
  {
    forall k | 0 <= k < |MultiTagFiles|
      ensures QuietLine(MultiTagFiles[k], tags)
    {
      if k == 0 {
        MultiTagFilesLine0(tags);
      } else if k == 1 {
        MultiTagFilesLine1(tags);
      } else if k == 2 {
        MultiTagFilesLine2(tags);
      } else if k == 3 {
        MultiTagFilesLine3(tags);
      } else {
        MultiTagFilesLine4(tags);
      }
    }
  }

  const MultiTagHead: seq<string> := ["[tasks]"] + SpacedLines(MultiTagWords, MultiTagGaps) + ["", "[options]"]

  const MultiTagTail: seq<string> := MultiTagOptions + MultiTagEngines + MultiTagScript + MultiTagFiles

  const MultiTagConfig: seq<string> := MultiTagHead + MultiTagTail

  lemma MultiTagTailQuiet()
    ensures forall l | l in MultiTagTail :: QuietLine(l, MultiTagTags)
  {
    assert "cover" in MultiTagTags && "full" in MultiTagTags && "bare" in MultiTagTags && "nolock_nolocal" in MultiTagTags && "nolock_system" in MultiTagTags && "piped" in MultiTagTags && "cover_pipe" in MultiTagTags && "dualread" in MultiTagTags && "lock" in MultiTagTags && "system" in MultiTagTags && "nolock" in MultiTagTags && "nolocal" in MultiTagTags;
    MultiTagOptionsQuiet(MultiTagTags);
    MultiTagEnginesQuiet(MultiTagTags);
    MultiTagScriptQuiet(MultiTagTags);
    MultiTagFilesQuiet(MultiTagTags);
  }

  /** The scan state once the header after `[tasks]` is read. */
  lemma MultiTagHeadState() returns (r: Scan)
    ensures Feed(Start, MultiTagHead, "", NoOutput) == Success(r)
    ensures r == DeclareAll(Start.(tasksSection := true), MultiTagWords, "").(tasksSection := false, cfgdata := ["[options]"])
    ensures Settled(r) && r.allTags == MultiTagTags
  {
    MultiTagLayouts();
    TasksHead(MultiTagWords, MultiTagGaps, "[options]", "", NoOutput);
    DeclareAllLists(Start.(tasksSection := true), MultiTagWords, "");
    assert [] + MultiTagTags == MultiTagTags;
    r := DeclareAll(Start.(tasksSection := true), MultiTagWords, "").(tasksSection := false, cfgdata := ["[options]"]);
  }

  /** The whole file reads without error, and declares what the `[tasks]`
      section declares. */
  lemma MultiTagState() returns (r: Scan)
    ensures Feed(Start, MultiTagConfig, "", NoOutput).Success?
    ensures
      var s := Feed(Start, MultiTagConfig, "", NoOutput).value;
      s.tasklist == r.tasklist && s.allTags == r.allTags && s.taskTags == r.taskTags
    ensures r == DeclareAll(Start.(tasksSection := true), MultiTagWords, "").(tasksSection := false, cfgdata := r.cfgdata)
  {
    r := MultiTagHeadState();
    MultiTagTailQuiet();
    QuietTail(r, MultiTagTail, "", NoOutput);
    FeedAppend(Start, MultiTagHead, MultiTagTail, "", NoOutput);
  }

  /** Two tasks, each tagged only with its own name; the guarded option lines
      do not disturb the task list. */
  lemma TwoTaskParse()
    ensures
      var r := Parse(Opened(TwoTaskConfig));
      && r.ok
      && GetTasks(r.parser) == ["prf", "cvr"]
      && |GetAllTags(r.parser)| == 2
      && GetTags(r.parser, "prf") == ["prf"]
      && GetTags(r.parser, "cvr") == ["cvr"]
  {
    var s := TwoTaskState();
  }

  lemma MultiTagNames()
    ensures Firsts(MultiTagWords) == ["full", "full_single", "bare", "nolock_nolocal", "nolock_system", "piped", "cover", "cover_pipe"]
  {
  }

  lemma MultiTagLinesNonEmpty()
    ensures forall j | 0 <= j < |MultiTagWords| :: |MultiTagWords[j]| > 0
  {
  }

  /** The `[tasks]` lines declare eight tasks and 33 tag occurrences. */
  lemma MultiTagCounts()
    ensures
      var d := DeclareAll(Start.(tasksSection := true), MultiTagWords, "");
      |d.tasklist| == 8 && |d.allTags| == 33
  {
    DeclareAllLists(Start.(tasksSection := true), MultiTagWords, "");
    MultiTagNames();
    assert |Flatten(MultiTagWords)| == 33;
  }

  /** The tags of the tasks the test inspects are the words of their lines. */
  lemma MultiTagTagsOf(k: nat)
    requires k == 0 || k == 1 || k == 7
    ensures
      var d := DeclareAll(Start.(tasksSection := true), MultiTagWords, "");
      MultiTagWords[k][0] in d.taskTags && d.taskTags[MultiTagWords[k][0]] == MultiTagWords[k]
  {
    MultiTagLinesNonEmpty();
    MultiTagNames();
    DeclareAllTags(Start.(tasksSection := true), MultiTagWords, "", k);
  }

  /** The parser a successful parse of the multi-tag configuration stores. */
  lemma MultiTagParsed() returns (d: Scan)
    ensures d == DeclareAll(Start.(tasksSection := true), MultiTagWords, "")
    ensures Parse(Opened(MultiTagConfig)) == ParseOutcome(true, Parser(d.tasklist, d.allTags, d.taskTags))
  {
    var r := MultiTagState();
    d := DeclareAll(Start.(tasksSection := true), MultiTagWords, "");
  }

  /** Eight tasks with overlapping tags: the tag list holds every occurrence
      (33), and each task's tags are the words of its own line. */
  lemma MultiTagParse()
    ensures
      var r := Parse(Opened(MultiTagConfig));
      && r.ok
      && |GetTasks(r.parser)| == 8
      && |GetAllTags(r.parser)| == 33
      && |GetTags(r.parser, "full")| == 4
      && |GetTags(r.parser, "full_single")| == 3
      && GetTags(r.parser, "cover_pipe") == ["cover_pipe", "system", "lock", "dualread", "cover", "piped"]
  {
    var d := MultiTagParsed();
    MultiTagCounts();
    MultiTagTagsOf(0);
    MultiTagTagsOf(1);
    MultiTagTagsOf(7);
    assert MultiTagWords[0][0] == "full" && MultiTagWords[1][0] == "full_single" && MultiTagWords[7][0] == "cover_pipe";
  }
}
