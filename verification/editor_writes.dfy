/** What the editor's commands write, and when they write at all. */
module EditorWrites {
  import opened Sequences
  import opened TextLines
  import opened Wrappers
  import opened Editor
  import opened EditorSnippets

  /** `sub` stands between `before` and `after` and nowhere else, overlapping occurrences aside. */
  ghost predicate OnlyBetween(text: string, before: string, sub: string, after: string) {
    && text == before + sub + after
    && (forall k: nat | k < |before| :: !OccursAt(text, sub, k))
    && (forall k: nat :: !OccursAt(after, sub, k))
  }

  ghost predicate InOnePlace(text: string, sub: string) {
    exists before, after :: OnlyBetween(text, before, sub, after)
  }

  /** `written` is `text` with the one place of `sub` holding `added` instead. */
  ghost predicate RewrittenOnce(text: string, sub: string, added: string, written: string) {
    exists before, after :: OnlyBetween(text, before, sub, after) && written == before + added + after
  }

  lemma OccursHere(before: string, sub: string, after: string)
    ensures OccursAt(before + sub + after, sub, |before|)
  {
    assert (before + sub + after)[|before|..|before| + |sub|] == sub;
  }

  lemma FirstIsThere(text: string, before: string, sub: string, after: string)
    requires OnlyBetween(text, before, sub, after)
    ensures FindFirst(text, sub) == Some(|before|) && text[|before| + |sub|..] == after
  {
    OccursHere(before, sub, after);
    FindFirstIsLeftmost(text, sub, |before|);
    FoundOccurs(text, sub);
  }

  lemma FoundOccurs(s: string, sub: string)
    ensures FindFirst(s, sub).Some? ==> OccursAt(s, sub, FindFirst(s, sub).value)
  {
  }

  lemma NowhereIsNone(s: string, sub: string)
    ensures FindFirst(s, sub).None? <==> forall k: nat :: !OccursAt(s, sub, k)
  {
    if FindFirst(s, sub).None? {
      forall k: nat ensures !OccursAt(s, sub, k) {
        if OccursAt(s, sub, k) {
          FindFirstIsLeftmost(s, sub, k);
        }
      }
    }
  }

  /** One occurrence is one place. */
  lemma OccursOnceIff(text: string, sub: string)
    requires sub != ""
    ensures Occurrences(text, sub) == 1 <==> InOnePlace(text, sub)
    ensures Occurrences(text, sub) == 1 ==>
              var k := FindFirst(text, sub).GetOr(0);
              k + |sub| <= |text| && OnlyBetween(text, text[..k], sub, text[k + |sub|..])
  {
    hide FindFirst, OccursAt;
    if Occurrences(text, sub) == 1 {
      ReplaceOnce(text, sub, "");
      var k := FindFirst(text, sub).value;
      assert FindFirst(text[k + |sub|..], sub).None?;
      NowhereIsNone(text[k + |sub|..], sub);
      forall j: nat | j < k ensures !OccursAt(text, sub, j) {
        if OccursAt(text, sub, j) {
          FindFirstIsLeftmost(text, sub, j);
        }
      }
      assert OnlyBetween(text, text[..k], sub, text[k + |sub|..]);
    }
    forall before, after | OnlyBetween(text, before, sub, after) ensures Occurrences(text, sub) == 1 {
      OnlyOnce(text, before, sub, after);
    }
  }

  lemma OnlyOnce(text: string, before: string, sub: string, after: string)
    requires sub != "" && OnlyBetween(text, before, sub, after)
    ensures Occurrences(text, sub) == 1
  {
    hide FindFirst, OccursAt;
    FirstIsThere(text, before, sub, after);
    NowhereIsNone(after, sub);
    assert Occurrences(after, sub) == 0;
  }

  /** What a replace changes in a text, and when it does. */
  lemma ReplaceEditIff(text: string, from: string, to: string)
    requires from != ""
    ensures |ExpandTabs(from)| >= |from|
    ensures ReplaceEdit(text, from, to).Some? <==>
              ExpandTabs(to) != ExpandTabs(from) && InOnePlace(text, ExpandTabs(from))
    ensures ReplaceEdit(text, from, to).Some? ==>
              RewrittenOnce(text, ExpandTabs(from), ExpandTabs(to), ReplaceEdit(text, from, to).value.after)
  {
    hide Expand, Occurrences, Replace, FindFirst, OnlyBetween, Newlines, SplitLinesCount, Split, JoinLines;
    ExpandKeepsSize(from, 0);
    OccursOnceIff(text, ExpandTabs(from));
    if Occurrences(text, ExpandTabs(from)) == 1 {
      ReplaceOnce(text, ExpandTabs(from), ExpandTabs(to));
    }
  }

  /** A replace is done exactly when the file is a text that holds what is to be replaced in one place
      and something changes, and then only that place is rewritten. */
  lemma ReplaceWritesIff(s: State, path: string, from: string, to: Option<string>)
    requires from != "" && PathAccepted(s, path, StrReplace(Some(from), to))
    ensures |ExpandTabs(from)| >= |from|
    ensures var c, target, added := StrReplace(Some(from), to), ExpandTabs(from), ExpandTabs(to.GetOr(""));
            && (Apply(s, path, c).1.Done? <==>
                  && s.files[path].TextFile? && added != target
                  && InOnePlace(ExpandTabs(Normalize(s.files[path].text)), target))
            && (Apply(s, path, c).1.Done? ==>
                  exists written ::
                    && RewrittenOnce(ExpandTabs(Normalize(s.files[path].text)), target, added, written)
                    && Apply(s, path, c).0.files == s.files[path := TextFile(written)])
  {
    hide MakeOutput, Expand, Normalize, InOnePlace, RewrittenOnce, ReplaceEdit;
    ExpandKeepsSize(from, 0);
    if s.files[path].TextFile? {
      var text := ExpandTabs(Normalize(s.files[path].text));
      ReplaceEditIff(text, from, to.GetOr(""));
      assert EditOf(text, StrReplace(Some(from), to)) == ReplaceEdit(text, from, to.GetOr(""));
      if ReplaceEdit(text, from, to.GetOr("")).Some? {
        var written := ReplaceEdit(text, from, to.GetOr("")).value.after;
        assert Apply(s, path, StrReplace(Some(from), to)).0.files == s.files[path := TextFile(written)];
      }
    }
  }

  /** An insert is done exactly when the file is a text with at least that many lines, and then the new
      lines stand between the first `line` lines and the rest. */
  lemma InsertWritesIff(s: State, path: string, line: int, added: string)
    requires PathAccepted(s, path, Insert(Some(line), Some(added)))
    ensures var c := Insert(Some(line), Some(added));
            && (Apply(s, path, c).1.Done? <==>
                  s.files[path].TextFile? && 0 <= line <= |Split(ExpandTabs(Normalize(s.files[path].text)))|)
            && (Apply(s, path, c).1.Done? ==>
                  var lines := Split(ExpandTabs(Normalize(s.files[path].text)));
                  exists after ::
                    && Apply(s, path, c).0.files == s.files[path := TextFile(after)]
                    && Split(after) == lines[..line] + Split(ExpandTabs(added)) + lines[line..])
  {
    hide MakeOutput, Expand, Normalize, Split, JoinLines, NoTabs;
    if s.files[path].TextFile? {
      var text := ExpandTabs(Normalize(s.files[path].text));
      if 0 <= line <= |Split(text)| {
        InsertedLines(text, line, added);
        var after := InsertEdit(text, line, added).value.after;
        assert Apply(s, path, Insert(Some(line), Some(added))).0.files == s.files[path := TextFile(after)];
      }
    }
  }

  /** A create writes exactly the given text, where nothing was and in a directory that is there. */
  lemma CreateWritesIff(s: State, path: string, text: string, parent: string)
    ensures var c := Create(Some(text), parent);
            && (Apply(s, path, c).1.Done? <==>
                  && !(path != "" && path[|path| - 1] == '/') && path !in s.files && path !in s.dirs && parent in s.dirs)
            && (Apply(s, path, c).1.Done? ==> Apply(s, path, c).0.files == s.files[path := TextFile(text)])
  {
  }

  // ------------------------------------------------------------------------------ tab stops

  /** Where a text of one line leaves off. */
  function EndColumn(s: string, column: nat): nat {
    column + |Expand(s, column)|
  }

  function NextColumn(c: char, column: nat): nat {
    if c == '\t' then column + (8 - column % 8) else column + 1
  }

  /** What the first character of a line becomes. */
  lemma ExpandFirst(s: string, column: nat)
    requires s != "" && s[0] != '\n' && s[0] != '\r'
    ensures var first := if s[0] == '\t' then Spaces(8 - column % 8) else [s[0]];
            && Expand(s, column) == first + Expand(s[1..], NextColumn(s[0], column))
            && EndColumn(s, column) == EndColumn(s[1..], NextColumn(s[0], column))
  {
  }

  lemma ExpandNothing(column: nat)
    ensures Expand("", column) == "" && EndColumn("", column) == column
  {
  }

  lemma {:induction false} ExpandAppend(a: string, b: string, column: nat)
    requires '\n' !in a && '\r' !in a
    ensures Expand(a + b, column) == Expand(a, column) + Expand(b, EndColumn(a, column))
    decreases |a|
  {
    hide Expand, EndColumn, NextColumn;
    if a == "" {
      ExpandNothing(column);
      assert a + b == b;
    } else {
      assert (a + b)[1..] == a[1..] + b && (a + b)[0] == a[0] && a[0] in a;
      TailHasNoBreaks(a);
      ExpandAppend(a[1..], b, NextColumn(a[0], column));
      ExpandFirst(a, column);
      ExpandFirst(a + b, column);
    }
  }

  lemma TailHasNoBreaks(a: string)
    requires '\n' !in a && '\r' !in a && a != ""
    ensures '\n' !in a[1..] && '\r' !in a[1..]
  {
    assert forall c | c in a[1..] :: c in a;
  }

  /** Within a line every tab reaches the next multiple of eight columns, with at least one space and nothing
      but spaces. */
  lemma TabsReachTheNextStop(a: string, b: string)
    requires '\n' !in a && '\r' !in a
    ensures var here, there := ExpandTabs(a), ExpandTabs(a + "\t");
            && |there| % 8 == 0 && |here| < |there| <= |here| + 8
            && here <= there && (forall i | |here| <= i < |there| :: there[i] == ' ')
            && there <= ExpandTabs(a + "\t" + b)
  {
    ExpandAppend(a, "\t", 0);
    assert "\t"[1..] == "";
    var column := |ExpandTabs(a)|;
    assert Expand("\t", column) == Spaces(8 - column % 8) + Expand("", column + (8 - column % 8));
    var all := a + "\t";
    assert forall c | c in all :: c in a || c == '\t';
    ExpandAppend(all, b, 0);
  }
}
