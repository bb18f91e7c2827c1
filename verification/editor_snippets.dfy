/** The snippet an edit shows: its line numbers are those of the file just written. */
module EditorSnippets {
  import opened Sequences
  import opened TextLines
  import opened Wrappers
  import opened Editor

  /** Consecutive lines of a file, each under its own line number. */
  ghost predicate Labelled(lines: seq<string>, shown: seq<Numbered>) {
    && shown != []
    && (forall i | 0 <= i < |shown| ::
          1 <= shown[i].number <= |lines| && shown[i].line == lines[shown[i].number - 1])
    && (forall i | 0 < i < |shown| :: shown[i].number == shown[i - 1].number + 1)
  }

  lemma {:induction false} TabFreeLines(s: string)
    requires NoTabs(s)
    ensures forall i | 0 <= i < |Split(s)| :: NoTabs(Split(s)[i])
  {
    if s != "" {
      assert forall c | c in s[1..] :: c in s;
      TabFreeLines(s[1..]);
    }
  }

  lemma {:induction false} TabFreeJoin(lines: seq<string>)
    requires forall i | 0 <= i < |lines| :: NoTabs(lines[i])
    ensures NoTabs(JoinLines(lines))
  {
    if |lines| > 1 {
      TabFreeJoin(lines[1..]);
    }
  }

  /** A tab-free text that fits is shown line by line. */
  lemma TabFreeOutput(text: string, first: int)
    requires NoTabs(text) && |text| <= MAX_RESPONSE_LEN
    ensures MakeOutput(text, first) == Number(Split(text), first)
  {
    hide Split, Number, Truncated, Expand;
    ExpandIdentity(text, 0);
    FitsUntruncated(text);
  }

  lemma FitsUntruncated(text: string)
    requires |text| <= MAX_RESPONSE_LEN
    ensures Truncated(text) == text
  {
  }

  lemma NumberLabelled(lines: seq<string>, a: nat, b: nat)
    requires a < b <= |lines|
    ensures Labelled(lines, Number(lines[a..b], a + 1))
  {
  }

  /** Showing a stretch of a tab-free text's lines labels them right. */
  lemma StretchLabelled(lines: seq<string>, a: nat, b: nat)
    requires AllOneLine(lines) && (forall i | 0 <= i < |lines| :: NoTabs(lines[i])) && a < b <= |lines|
    requires |JoinLines(lines[a..b])| <= MAX_RESPONSE_LEN
    ensures Labelled(lines, MakeOutput(JoinLines(lines[a..b]), a + 1))
    ensures MakeOutput(JoinLines(lines[a..b]), a + 1) == Number(lines[a..b], a + 1)
  {
    hide MakeOutput, Labelled, Number;
    TabFreeJoin(lines[a..b]);
    SplitJoin(lines[a..b]);
    hide AllOneLine, NoTabs, JoinLines, Split;
    TabFreeOutput(JoinLines(lines[a..b]), a + 1);
    NumberLabelled(lines, a, b);
  }

  lemma SlicesTabFree(text: string, k: nat, added: string, m: nat)
    requires NoTabs(text) && NoTabs(added) && k <= |text| && m <= |text|
    ensures NoTabs(text[..k] + added + text[m..])
  {
  }

  /** The number of newlines before the replaced text is at most the number in the new file. */
  lemma NewlinesBefore(before: string, added: string, after: string)
    ensures Newlines(before) <= Newlines(before + added + after)
  {
    NewlinesAppend(before + added, after);
    NewlinesAppend(before, added);
  }

  /** Lines `from` to `to` under their numbers; of an empty file its one empty line. */
  function Window(lines: seq<string>, from: int, to: int): seq<Numbered> {
    if lines == [""] then Number([""], 1)
    else if 1 <= from && from - 1 <= Min(to, |lines|) then Number(lines[from - 1..Min(to, |lines|)], from)
    else []
  }

  lemma ReplaceLabels(text: string, from: string, to: string)
    requires NoTabs(text) && from != "" && ReplaceEdit(text, from, to).Some?
    requires |ReplaceEdit(text, from, to).value.snippet| <= MAX_RESPONSE_LEN
    ensures var e, added := ReplaceEdit(text, from, to).value, ExpandTabs(to);
            var at := Newlines(text[..FindFirst(text, ExpandTabs(from)).GetOr(0)]);
            && Labelled(Split(e.after), MakeOutput(e.snippet, e.first))
            && MakeOutput(e.snippet, e.first)
               == Window(Split(e.after), Max(1, at - SNIPPET_LINES),
                         Min(at + SNIPPET_LINES + Newlines(added), SplitLinesCount(e.after)))
  {
    hide MakeOutput, Labelled, Split, Occurrences, Replace, OccursAt, Newlines, SplitLinesCount, JoinLines, NoTabs, Expand;
    hide Window, FindFirst;
    ExpandKeepsSize(from, 0);
    var target, added := ExpandTabs(from), ExpandTabs(to);
    var e := ReplaceEdit(text, from, to).value;
    ReplaceOnce(text, target, added);
    var k := FindFirst(text, target).value;
    ExpandedHasNoTabs(to, 0);
    SlicesTabFree(text, k, added, k + |target|);
    NewlinesBefore(text[..k], added, text[k + |target|..]);
    var at := Newlines(text[..k]);
    var end := Min(at + SNIPPET_LINES + Newlines(added), SplitLinesCount(e.after));
    SplitLinesBound(e.after);
    ShownStretch(e.after, at, end);
  }

  lemma ShownStretch(after: string, at: nat, end: int)
    requires NoTabs(after) && at <= Newlines(after)
    requires at <= end && (after != "" ==> 1 <= end)
    requires |JoinLines(Slice(Split(after), Max(1, at - SNIPPET_LINES) - 1, end))| <= MAX_RESPONSE_LEN
    ensures var start := Max(1, at - SNIPPET_LINES);
            && Labelled(Split(after), MakeOutput(JoinLines(Slice(Split(after), start - 1, end)), start))
            && MakeOutput(JoinLines(Slice(Split(after), start - 1, end)), start) == Window(Split(after), start, end)
  {
    hide MakeOutput, Labelled, JoinLines;
    var lines, start := Split(after), Max(1, at - SNIPPET_LINES);
    SplitLines(after);
    TabFreeLines(after);
    var hi := Min(end, |lines|);
    if start - 1 < hi {
      hide Split, Newlines, NoTabs, AllOneLine;
      StretchLabelled(lines, start - 1, hi);
    } else {
      assert after == "" && start == 1 && Slice(lines, 0, end) == [];
      EmptyShown();
    }
  }

  lemma EmptyShown()
    ensures JoinLines([]) == "" && Labelled(Split(""), MakeOutput("", 1))
    ensures MakeOutput("", 1) == Number([""], 1) && Split("") == [""]
  {
    TabFreeOutput("", 1);
    NumberLabelled([""], 0, 1);
    assert [""][0..1] == [""];
  }

  lemma InsertedLines(text: string, line: int, added: string)
    requires InsertEdit(text, line, added).Some?
    ensures 0 <= line <= |Split(text)|
    ensures Split(InsertEdit(text, line, added).value.after)
            == Split(text)[..line] + Split(ExpandTabs(added)) + Split(text)[line..]
  {
    hide Split, JoinLines, Expand, NoTabs, AllOneLine;
    var lines, more := Split(text), Split(ExpandTabs(added));
    SplitLines(text);
    SplitLines(ExpandTabs(added));
    AllLines(lines, more, line);
    SplitJoin(lines[..line] + more + lines[line..]);
  }

  lemma AllLines(lines: seq<string>, more: seq<string>, line: nat)
    requires line <= |lines| && AllOneLine(lines) && AllOneLine(more)
    ensures AllOneLine(lines[..line] + more + lines[line..])
  {
    hide OneLine;
  }

  lemma InsertLabels(text: string, line: int, added: string)
    requires NoTabs(text) && InsertEdit(text, line, added).Some?
    requires |InsertEdit(text, line, added).value.snippet| <= MAX_RESPONSE_LEN
    ensures var e := InsertEdit(text, line, added).value;
            && Labelled(Split(e.after), MakeOutput(e.snippet, e.first))
            && MakeOutput(e.snippet, e.first)
               == Window(Split(e.after), Max(1, line - SNIPPET_LINES + 1),
                         line + |Split(ExpandTabs(added))| + SNIPPET_LINES)
  {
    hide MakeOutput, Labelled, Split, JoinLines, NoTabs, Expand, ExpandTabs, Window, AllOneLine;
    var lines, more := Split(text), Split(ExpandTabs(added));
    var all := lines[..line] + more + lines[line..];
    InsertedLines(text, line, added);
    InsertedTabFree(text, line, added);
    ShownAroundInsert(lines, more, line);
    var from, to := Max(0, line - SNIPPET_LINES), line + |more| + Min(SNIPPET_LINES, |lines| - line);
    StretchLabelled(all, from, to);
    WindowIs(all, from, to, line + |more| + SNIPPET_LINES);
  }

  lemma WindowIs(lines: seq<string>, from: nat, to: nat, end: int)
    requires from < to <= |lines| && to == Min(end, |lines|) && |lines| >= 2
    ensures Window(lines, from + 1, end) == Number(lines[from..to], from + 1)
  {
  }

  lemma InsertedTabFree(text: string, line: int, added: string)
    requires NoTabs(text) && 0 <= line <= |Split(text)|
    ensures var all := Split(text)[..line] + Split(ExpandTabs(added)) + Split(text)[line..];
            AllOneLine(all) && forall i | 0 <= i < |all| :: NoTabs(all[i])
  {
    hide Split, NoTabs, Expand, AllOneLine;
    SplitLines(text);
    SplitLines(ExpandTabs(added));
    TabFreeLines(text);
    ExpandedHasNoTabs(added, 0);
    TabFreeLines(ExpandTabs(added));
    MixedLines(Split(text), Split(ExpandTabs(added)), line);
  }

  lemma MixedLines(lines: seq<string>, more: seq<string>, line: nat)
    requires line <= |lines| && AllOneLine(lines) && AllOneLine(more)
    requires forall i | 0 <= i < |lines| :: NoTabs(lines[i])
    requires forall i | 0 <= i < |more| :: NoTabs(more[i])
    ensures var all := lines[..line] + more + lines[line..];
            AllOneLine(all) && forall i | 0 <= i < |all| :: NoTabs(all[i])
  {
    hide OneLine, NoTabs;
  }

  lemma ShownAroundInsert(lines: seq<string>, more: seq<string>, line: nat)
    requires line <= |lines|
    ensures var from, to := Max(0, line - SNIPPET_LINES), line + |more| + Min(SNIPPET_LINES, |lines| - line);
            lines[from..line] + more + Slice(lines, line, line + SNIPPET_LINES)
            == (lines[..line] + more + lines[line..])[from..to]
  {
    var from, hi := Max(0, line - SNIPPET_LINES), Min(line + SNIPPET_LINES, |lines|);
    var shown := lines[from..line] + more + lines[line..hi];
    assert lines[..line] + more + lines[line..] == lines[..from] + shown + lines[hi..];
    Middle(lines[..from], shown, lines[hi..]);
  }

  lemma Middle(a: seq<string>, b: seq<string>, c: seq<string>)
    ensures (a + b + c)[|a|..|a| + |b|] == b
  {
  }

  /** The stretch of the written file that an edit shows. */
  predicate ShowsAround(text: string, c: Command, after: string, shown: seq<Numbered>) {
    match c
    case StrReplace(Some(from), to) =>
      var at, added := Newlines(text[..FindFirst(text, ExpandTabs(from)).GetOr(0)]), ExpandTabs(to.GetOr(""));
      shown == Window(Split(after), Max(1, at - SNIPPET_LINES),
                      Min(at + SNIPPET_LINES + Newlines(added), SplitLinesCount(after)))
    case Insert(Some(line), Some(added)) =>
      shown == Window(Split(after), Max(1, line - SNIPPET_LINES + 1),
                      line + |Split(ExpandTabs(added))| + SNIPPET_LINES)
    case _ => true
  }

  /** In every response to an edit that is not truncated, the line labelled `n` is line `n` of the file
      just written, and the lines shown are those of the edit and four on either side of it. */
  lemma SnippetsAreLabelledRight(s: State, path: string, c: Command)
    requires (c.StrReplace? || c.Insert?) && Apply(s, path, c).1.Done?
    requires |EditOf(ReadExpanded(s.files[path]).value, c).value.snippet| <= MAX_RESPONSE_LEN
    ensures path in Apply(s, path, c).0.files && Apply(s, path, c).0.files[path].TextFile?
    ensures Labelled(Split(Apply(s, path, c).0.files[path].text), Apply(s, path, c).1.shown)
    ensures ShowsAround(ReadExpanded(s.files[path]).value, c, Apply(s, path, c).0.files[path].text, Apply(s, path, c).1.shown)
  {
    hide MakeOutput, Labelled, ReplaceEdit, InsertEdit, Normalize, Expand, Split, Window, Newlines, FindFirst, SplitLinesCount;
    var text := ReadExpanded(s.files[path]).value;
    ExpandedHasNoTabs(Normalize(s.files[path].text), 0);
    match c {
      case StrReplace(Some(from), to) => ReplaceLabels(text, from, to.GetOr(""));
      case Insert(Some(line), Some(added)) => InsertLabels(text, line, added);
    }
  }

  // -------------------------------------------------------------------- what an undo shows

  predicate TabFree(stack: seq<string>) {
    forall i | 0 <= i < |stack| :: NoTabs(stack[i])
  }

  ghost predicate StacksTabFree(history: Stacks) {
    forall path | path in history :: TabFree(history[path])
  }

  lemma StackTabFree(history: Stacks, path: string)
    requires StacksTabFree(history)
    ensures TabFree(Stack(history, path))
  {
    hide TabFree;
    assert TabFree([]) by { NothingTabFree(); }
  }

  lemma NothingTabFree()
    ensures TabFree([])
  {
  }

  lemma PushTabFree(stack: seq<string>, text: string)
    requires TabFree(stack) && NoTabs(text)
    ensures TabFree(stack + [text])
  {
    hide NoTabs;
  }

  lemma StoredTabFree(history: Stacks, path: string, stack: seq<string>)
    requires StacksTabFree(history) && TabFree(stack)
    ensures StacksTabFree(history[path := stack])
  {
    hide TabFree;
  }

  /** Only tab-free texts are stacked. */
  lemma StartIsTabFree(s: State, step: Step)
    ensures NoTabs(StartsFrom(s, step))
  {
    hide Normalize, Expand;
    if step.path in s.files && s.files[step.path].TextFile? {
      ExpandedHasNoTabs(Normalize(s.files[step.path].text), 0);
    }
  }

  lemma ApplyKeepsTabFree(s: State, path: string, c: Command)
    requires StacksTabFree(s.history)
    ensures StacksTabFree(Apply(s, path, c).0.history)
  {
    hide StacksTabFree, TabFree, Apply, Stack;
    StackTabFree(s.history, path);
    var t := Apply(s, path, c).0;
    ApplyWritesOneStack(s, path, c);
    if c.Undo? {
      if Stack(s.history, path) != [] {
        PopTabFree(Stack(s.history, path));
        StoredTabFree(s.history, path, Stack(s.history, path)[..|Stack(s.history, path)| - 1]);
      }
    } else {
      StartIsTabFree(s, Step(path, c));
      PushTabFree(Stack(s.history, path), StartsFrom(s, Step(path, c)));
      StoredTabFree(s.history, path, Stack(s.history, path) + [StartsFrom(s, Step(path, c))]);
    }
  }

  lemma PopTabFree(stack: seq<string>)
    requires TabFree(stack) && stack != []
    ensures TabFree(stack[..|stack| - 1])
  {
  }

  lemma {:induction false} RunKeepsTabFree(s: State, steps: seq<Step>)
    requires StacksTabFree(s.history)
    ensures StacksTabFree(RunAll(s, steps).history)
    decreases |steps|
  {
    hide StacksTabFree, Apply;
    if steps != [] {
      var n := |steps| - 1;
      RunKeepsTabFree(s, steps[..n]);
      ApplyKeepsTabFree(RunAll(s, steps[..n]), steps[n].path, steps[n].command);
    }
  }

  lemma EmptyStacks()
    ensures StacksTabFree(map[])
  {
  }

  lemma UndoneText(t: State, path: string)
    requires Apply(t, path, Undo).1.Done?
    ensures var stack := Stack(t.history, path);
            && stack != [] && path in t.files && path !in t.dirs
  {
    hide MakeOutput;
  }

  /** After any commands at all, an undo's response that is not truncated shows the whole file it has just
      written, every line under its number. */
  lemma UndoShowsTheFile(s: State, steps: seq<Step>, path: string)
    requires s.history == map[]
    requires Apply(RunAll(s, steps), path, Undo).1.Done?
    ensures var (u, r) := Apply(RunAll(s, steps), path, Undo);
            && path in u.files && u.files[path].TextFile?
            && (|u.files[path].text| <= MAX_RESPONSE_LEN ==>
                  r.shown == Number(Split(u.files[path].text), 1) && Labelled(Split(u.files[path].text), r.shown))
  {
    hide RunAll, Apply, Stack, MakeOutput, StacksTabFree, Split, Labelled;
    var t := RunAll(s, steps);
    EmptyStacks();
    RunKeepsTabFree(s, steps);
    StackTabFree(t.history, path);
    UndoneText(t, path);
    UndoPops(t, path);
    var stack := Stack(t.history, path);
    var text := stack[|stack| - 1];
    if |text| <= MAX_RESPONSE_LEN {
      TextShown(text);
    }
  }

  function LinesShown(shown: seq<Numbered>): (r: seq<string>)
    ensures |r| == |shown|
    ensures forall i | 0 <= i < |shown| :: r[i] == shown[i].line
  {
    seq(|shown|, i requires 0 <= i < |shown| => shown[i].line)
  }

  /** A response shows the whole text, tabs expanded, or its first 16000 characters and the note that it was
      clipped; its lines are numbered one by one from `first`. */
  lemma OutputShows(text: string, first: int)
    ensures var shown := MakeOutput(text, first);
            && JoinLines(LinesShown(shown))
               == ExpandTabs(if |text| <= 16000 then text else text[..16000] + TRUNCATED_MESSAGE)
            && forall i | 0 <= i < |shown| :: shown[i].number == first + i
  {
    hide Expand, Split, JoinLines;
    var lines := Split(ExpandTabs(Truncated(text)));
    JoinOfSplit(ExpandTabs(Truncated(text)));
    assert LinesShown(MakeOutput(text, first)) == lines;
  }

  lemma TextShown(text: string)
    requires NoTabs(text) && |text| <= MAX_RESPONSE_LEN
    ensures MakeOutput(text, 1) == Number(Split(text), 1) && Labelled(Split(text), MakeOutput(text, 1))
  {
    hide MakeOutput, Split, Labelled;
    TabFreeOutput(text, 1);
    NumberLabelled(Split(text), 0, |Split(text)|);
    assert Split(text)[0..|Split(text)|] == Split(text);
  }
}
