/** The editor's syntax colouring of `.sby` text: a three-state machine run
    over the characters of a range, giving each character a style.

    Scintilla's `StyleContext` is modelled as a position in the sequence and
    a pending segment: `SetState` at position `p` colours the characters of
    the segment before `p` with the old state and starts a new segment in
    the new state; `Complete` colours what is left with the last state. */
module LexSby {

  /** The style numbers of the three states. */
  const Default := 0
  const Comment := 1
  const Section := 2

  predicate IsLineBreak(c: char) {
    c == '\r' || c == '\n'
  }

  /** One move of the walk from position `i` in `state`: the styles it
      settles, the next position it examines, and the state there. */
  datatype Move = Move(styles: seq<int>, next: nat, state: int)

  /** The move at position `i`. Line breaks reset to `Default`; in `Default`
      a `--` opens a comment and `[` opens a section; in `Section` a `]` is
      coloured with the section, the next character is coloured `Default`
      and is skipped; anything else keeps the state. */
  function StepAt(text: seq<char>, i: nat, state: int): (m: Move)
    requires i < |text|
    ensures i < m.next <= |text| && |m.styles| == m.next - i
    ensures m.state == Default || m.state == Comment || m.state == Section || m.state == state
    ensures forall k | 0 <= k < |m.styles| ::
      m.styles[k] == Default || m.styles[k] == Comment || m.styles[k] == Section || m.styles[k] == state
  {
    if IsLineBreak(text[i]) then Move([Default], i + 1, Default)
    else if state == Default then
      if text[i] == '-' && i + 1 < |text| && text[i + 1] == '-' then Move([Comment], i + 1, Comment)
      else if text[i] == '[' then Move([Section], i + 1, Section)
      else Move([Default], i + 1, Default)
    else if state == Section && text[i] == ']' then
      if i + 1 < |text| then Move([Section, Default], i + 2, Default) else Move([Section], i + 1, Default)
    else Move([state], i + 1, state)
  }

  /** The styles of `text[i..]` when the walk examines position `i` in
      `state`. */
  function Lex(text: seq<char>, i: nat, state: int): (r: seq<int>)
    requires i <= |text|
    ensures |r| == |text| - i
    ensures forall k | 0 <= k < |r| :: r[k] == Default || r[k] == Comment || r[k] == Section || r[k] == state
    decreases |text| - i
  {
    if i == |text| then []
    else
      var m := StepAt(text, i, state);
      m.styles + Lex(text, m.next, m.state)
  }

  /** The styles of a whole range, starting in `initStyle`: one per
      character, each one of the three styles when `initStyle` is one. */
  function Styles(text: seq<char>, initStyle: int): (r: seq<int>)
    ensures |r| == |text|
    ensures Default <= initStyle <= Section ==> forall k | 0 <= k < |r| :: Default <= r[k] <= Section
  {
    Lex(text, 0, initStyle)
  }

  function Repeat(x: int, n: nat): (r: seq<int>)
    ensures |r| == n && forall k | 0 <= k < n :: r[k] == x
  {
    seq(n, _ => x)
  }

  /** `SetState`: colour the pending segment up to `pos` with `state`. */
  function ColourTo(styles: seq<int>, pos: nat, state: int): (r: seq<int>)
    requires |styles| <= pos
    ensures |r| == pos && r[..|styles|] == styles
    ensures forall k | |styles| <= k < pos :: r[k] == state
  {
    styles + Repeat(state, pos - |styles|)
  }

  lemma RepeatSnoc(x: int, n: nat)
    ensures Repeat(x, n + 1) == Repeat(x, n) + [x]
  {
  }

  /** `ColouriseSBYDoc` as the code runs it: a position and a state; line
      breaks reset to `Default`; in `Default` a `--` opens a comment and `[`
      opens a section; in `Section` a `]` is coloured with the section and
      the state returns to `Default` one position later (`ForwardSetState`),
      after which the loop moves on once more. */
  method Colourise(text: seq<char>, initStyle: int) returns (styles: seq<int>)
    ensures styles == Styles(text, initStyle)
  {
    var pos := 0;
    var state := initStyle;
    styles := [];
    while pos < |text|
      invariant |styles| <= pos <= |text|
      invariant styles + Repeat(state, pos - |styles|) + Lex(text, pos, state) == Lex(text, 0, initStyle)
      decreases |text| - pos
    {
      Extend(text, styles + Repeat(state, pos - |styles|), pos, state, initStyle);
      pos, state, styles := Round(text, pos, state, styles);
    }
    styles := ColourTo(styles, |text|, state);
  }

  /** The walk's styles so far, followed by one more move and the rest of the
      walk, are still the styles of the whole text. */
  lemma Extend(text: seq<char>, prefix: seq<int>, pos: nat, state: int, initStyle: int)
    requires pos < |text|
    requires prefix + Lex(text, pos, state) == Lex(text, 0, initStyle)
    ensures
      var m := StepAt(text, pos, state);
      prefix + m.styles + Lex(text, m.next, m.state) == Lex(text, 0, initStyle)
  {
    var m := StepAt(text, pos, state);
    assert Lex(text, pos, state) == m.styles + Lex(text, m.next, m.state);
    assert prefix + m.styles + Lex(text, m.next, m.state) == prefix + (m.styles + Lex(text, m.next, m.state));
  }

  /** One round of the loop of `ColouriseSBYDoc`: examine the character at
      `pos` (and the one after it), change state, move on. The coloured
      prefix plus the pending segment grows by exactly the move's styles. */
  method Round(text: seq<char>, pos0: nat, state0: int, styles0: seq<int>) returns (pos: nat, state: int, styles: seq<int>)
    requires |styles0| <= pos0 < |text|
    ensures |styles| <= pos <= |text|
    ensures pos == StepAt(text, pos0, state0).next && state == StepAt(text, pos0, state0).state
    ensures styles + Repeat(state, pos - |styles|) == styles0 + Repeat(state0, pos0 - |styles0|) + StepAt(text, pos0, state0).styles
  {
    pos, state, styles := pos0, state0, styles0;
    var ch := text[pos];
    var chNext := if pos + 1 < |text| then text[pos + 1] else '\0';
    if ch == '\r' || ch == '\n' {
      styles, state := ColourTo(styles, pos, state), Default;
    } else if state == Default {
      if ch == '-' && chNext == '-' {
        styles, state := ColourTo(styles, pos, state), Comment;
      } else if ch == '[' {
        styles, state := ColourTo(styles, pos, state), Section;
      }
    } else if state == Section {
      if ch == ']' {
        pos := pos + 1;
        styles, state := ColourTo(styles, pos, state), Default;
      }
    }
    if pos < |text| {
      pos := pos + 1;
    }
  }

  /** A line break is coloured `Default`, and whatever the walk did before
      it, the rest is coloured as if the text started after it in `Default`. */
  lemma {:induction false} LineBreakResets(text: seq<char>, j: nat, state: int, i: nat)
    requires j <= i < |text| && IsLineBreak(text[i])
    ensures Lex(text, j, state)[i - j] == Default
    ensures Lex(text, j, state)[i - j + 1..] == Lex(text, i + 1, Default)
    decreases i - j
  {
    var m := StepAt(text, j, state);
    var rest := Lex(text, m.next, m.state);
    assert Lex(text, j, state) == m.styles + rest;
    if m.next <= i {
      LineBreakResets(text, m.next, m.state, i);
      ConcatTail(m.styles, rest, i - j);
    } else {
      StepOverLineBreak(text, j, state, i);
      assert Lex(text, j, state)[i - j + 1..] == rest;
    }
  }

  /** A move that steps over a line break ends right after it, in
      `Default`, having coloured it `Default`. */
  lemma StepOverLineBreak(text: seq<char>, j: nat, state: int, i: nat)
    requires j <= i < |text| && IsLineBreak(text[i])
    requires StepAt(text, j, state).next > i
    ensures StepAt(text, j, state).next == i + 1 && StepAt(text, j, state).state == Default
    ensures StepAt(text, j, state).styles[i - j] == Default
  {
  }

  /** Indexing and slicing past the first part of a concatenation. */
  lemma ConcatTail(a: seq<int>, b: seq<int>, k: nat)
    requires |a| <= k < |a| + |b|
    ensures (a + b)[k] == b[k - |a|]
    ensures (a + b)[k + 1..] == b[k - |a| + 1..]
  {
  }

  /** Once in a comment, every character up to the next line break is
      coloured as comment, whatever it is (`[`, `]` included). */
  lemma {:induction false} CommentPersists(text: seq<char>, i: nat, j: nat)
    requires i <= j < |text|
    requires forall k | i <= k <= j :: !IsLineBreak(text[k])
    ensures forall k | 0 <= k <= j - i :: Lex(text, i, Comment)[k] == Comment
    decreases j - i
  {
    var r := Lex(text, i, Comment);
    assert r == [Comment] + Lex(text, i + 1, Comment);
    if i < j {
      CommentPersists(text, i + 1, j);
      assert forall k | 1 <= k <= j - i :: r[k] == Lex(text, i + 1, Comment)[k - 1];
    }
  }

  /** In `Default`, `--` starts a comment at its first dash that lasts to
      the end of the line. */
  lemma DashesOpenComment(text: seq<char>, i: nat, j: nat)
    requires i + 1 < |text| && text[i] == '-' && text[i + 1] == '-'
    requires i <= j < |text|
    requires forall k | i <= k <= j :: !IsLineBreak(text[k])
    ensures forall k | 0 <= k <= j - i :: Lex(text, i, Default)[k] == Comment
  {
    var r := Lex(text, i, Default);
    assert r == [Comment] + Lex(text, i + 1, Comment);
    if i < j {
      CommentPersists(text, i + 1, j);
      assert forall k | 1 <= k <= j - i :: r[k] == Lex(text, i + 1, Comment)[k - 1];
    }
  }

  /** In a section, every character up to and including the closing `]` is
      coloured as section, whatever it is (`--` included); the character
      after the `]` is `Default` and is not examined, and the walk goes on
      in `Default` after it. */
  lemma {:induction false} SectionRuns(text: seq<char>, i: nat, j: nat)
    requires i <= j < |text| && text[j] == ']'
    requires forall k | i <= k < j :: !IsLineBreak(text[k]) && text[k] != ']'
    ensures forall k | 0 <= k <= j - i :: Lex(text, i, Section)[k] == Section
    ensures j + 1 < |text| ==>
      && Lex(text, i, Section)[j + 1 - i] == Default
      && Lex(text, i, Section)[j + 2 - i..] == Lex(text, j + 2, Default)
    decreases j - i
  {
    var r := Lex(text, i, Section);
    if i < j {
      var rest := Lex(text, i + 1, Section);
      assert r == [Section] + rest;
      SectionRuns(text, i + 1, j);
      assert forall k | 1 <= k <= j - i :: r[k] == rest[k - 1];
      if j + 1 < |text| {
        ConcatTail([Section], rest, j + 1 - i);
      }
    } else if j + 1 < |text| {
      var rest := Lex(text, j + 2, Default);
      assert r == [Section, Default] + rest;
      assert r[0] == Section && r[1] == Default && r[2..] == rest;
    } else {
      assert r == [Section];
    }
  }

  /** In `Default`, `[` opens a section at the bracket itself. */
  lemma BracketOpensSection(text: seq<char>, i: nat, j: nat)
    requires i < j < |text| && text[i] == '[' && text[j] == ']'
    requires forall k | i < k < j :: !IsLineBreak(text[k]) && text[k] != ']'
    ensures forall k | 0 <= k <= j - i :: Lex(text, i, Default)[k] == Section
    ensures j + 1 < |text| ==> Lex(text, i, Default)[j + 1 - i] == Default
  {
    var r := Lex(text, i, Default);
    assert r == [Section] + Lex(text, i + 1, Section);
    SectionRuns(text, i + 1, j);
    assert forall k | 1 <= k <= j - i :: r[k] == Lex(text, i + 1, Section)[k - 1];
  }
  /** A section whose `]` never comes stays a section up to the end of the
      line: every character before the next line break is coloured as
      section, the break itself is `Default`, and the walk goes on in
      `Default` after it. */
  lemma {:induction false} SectionUnclosed(text: seq<char>, i: nat, j: nat)
    requires i <= j <= |text|
    requires forall k | i <= k < j :: !IsLineBreak(text[k]) && text[k] != ']'
    ensures forall k | 0 <= k < j - i :: Lex(text, i, Section)[k] == Section
    ensures j < |text| && IsLineBreak(text[j]) ==>
      && Lex(text, i, Section)[j - i] == Default
      && Lex(text, i, Section)[j - i + 1..] == Lex(text, j + 1, Default)
    decreases j - i
  {
    if i < j {
      var r := Lex(text, i, Section);
      var rest := Lex(text, i + 1, Section);
      assert r == [Section] + rest;
      SectionUnclosed(text, i + 1, j);
      assert forall k | 1 <= k < j - i :: r[k] == rest[k - 1];
    }
    if j < |text| && IsLineBreak(text[j]) {
      LineBreakResets(text, i, Section, j);
    }
  }

  /** In `Default`, a `[` with no `]` after it on its line opens a section
      that runs to the end of the line. */
  lemma BracketUnclosed(text: seq<char>, i: nat, j: nat)
    requires i < j <= |text| && text[i] == '['
    requires forall k | i < k < j :: !IsLineBreak(text[k]) && text[k] != ']'
    ensures forall k | 0 <= k < j - i :: Lex(text, i, Default)[k] == Section
    ensures j < |text| && IsLineBreak(text[j]) ==> Lex(text, i, Default)[j - i] == Default
  {
    var r := Lex(text, i, Default);
    var rest := Lex(text, i + 1, Section);
    assert r == [Section] + rest;
    SectionUnclosed(text, i + 1, j);
    assert forall k | 1 <= k < j - i :: r[k] == rest[k - 1];
    if j < |text| && IsLineBreak(text[j]) {
      assert r[j - i] == rest[j - i - 1];
    }
  }


  /** In `Default`, a stretch without line breaks, `[` and `--` stays `Default`. */
  lemma {:induction false} PlainStaysDefault(text: seq<char>, i: nat, j: nat)
    requires i <= j < |text|
    requires forall k | i <= k <= j :: !IsLineBreak(text[k]) && text[k] != '['
    requires forall k | i <= k <= j :: !(text[k] == '-' && k + 1 < |text| && text[k + 1] == '-')
    ensures forall k | 0 <= k <= j - i :: Lex(text, i, Default)[k] == Default
    decreases j - i
  {
    var r := Lex(text, i, Default);
    assert r == [Default] + Lex(text, i + 1, Default);
    if i < j {
      PlainStaysDefault(text, i + 1, j);
      assert forall k | 1 <= k <= j - i :: r[k] == Lex(text, i + 1, Default)[k - 1];
    }
  }

  /** The character after a closing `]` is not examined: in `[a][b]` the
      second section is not recognised. */
  lemma SecondSectionMissed()
    ensures Styles("[a][b]", Default) == [Section, Section, Section, Default, Default, Default]
  {
  }
}
