/** The string-replacing editor: its commands over a sandbox's files, and its undo stacks. */
module Editor {
  import opened Sequences
  import opened TextLines
  import opened Wrappers

  const SNIPPET_LINES := 4
  const MAX_RESPONSE_LEN := 16000
  const TRUNCATED_MESSAGE :=
    "<response clipped><NOTE>To save on context only part of this file has been shown to you. "
    + "You should retry this tool after you have searched inside the file "
    + "with `grep -n` in order to find the line numbers of what you are looking for.</NOTE>"

  /** A file's bytes: text, or something that is not UTF-8. */
  datatype File = TextFile(text: string) | BinaryFile

  type Files = map<string, File>
  type Stacks = map<string, seq<string>>

  datatype State = State(files: Files, dirs: set<string>, history: Stacks)

  datatype Command =
    | Create(text: Option<string>, parent: string)
    | StrReplace(from: Option<string>, to: Option<string>)
    | Insert(line: Option<int>, text: Option<string>)
    | Undo

  /** A numbered line of a response. */
  datatype Numbered = Numbered(number: int, line: string)

  /** A command either reports why it did nothing, fails on an unreadable file, or reports an edit
      with the numbered lines it shows. */
  datatype Reply = Refused | Unreadable | Done(shown: seq<Numbered>)

  function Stack(history: Stacks, path: string): seq<string> {
    if path in history then history[path] else []
  }

  function Truncated(text: string): string {
    if |text| <= MAX_RESPONSE_LEN then text else text[..MAX_RESPONSE_LEN] + TRUNCATED_MESSAGE
  }

  /** `cat -n`: lines numbered from `first`. */
  function Number(lines: seq<string>, first: int): (r: seq<Numbered>)
    ensures |r| == |lines|
    ensures forall i | 0 <= i < |lines| :: r[i] == Numbered(first + i, lines[i])
  {
    seq(|lines|, i requires 0 <= i < |lines| => Numbered(first + i, lines[i]))
  }

  function MakeOutput(text: string, first: int): seq<Numbered> {
    Number(Split(ExpandTabs(Truncated(text))), first)
  }

  /** What reading a file for an edit gives. */
  function ReadExpanded(f: File): Option<string> {
    match f
    case BinaryFile => None
    case TextFile(text) => Some(ExpandTabs(Normalize(text)))
  }

  /** Python's `lines[a:b]` for `a >= 0`. */
  function Slice(lines: seq<string>, a: nat, b: int): seq<string> {
    var hi := if b < 0 then Max(0, |lines| + b) else Min(b, |lines|);
    if a <= hi then lines[a..hi] else []
  }

  // ---------------------------------------------------------------------- the edits

  datatype Edit = Edit(before: string, after: string, first: int, snippet: string)

  function ReplaceEdit(text: string, from: string, to: string): Option<Edit>
    requires from != ""
  {
    ExpandKeepsSize(from, 0);
    var target, added := ExpandTabs(from), ExpandTabs(to);
    if Occurrences(text, target) != 1 || added == target then None
    else
      var after := Replace(text, target, added);
      var at := Newlines(text[..FindFirst(text, target).GetOr(0)]);
      var start := Max(1, at - SNIPPET_LINES);
      var end := Min(at + SNIPPET_LINES + Newlines(added), SplitLinesCount(after));
      Some(Edit(text, after, start, JoinLines(Slice(Split(after), start - 1, end))))
  }

  lemma {:induction false} ExpandKeepsSize(s: string, column: nat)
    ensures |Expand(s, column)| >= |s|
  {
    if s != "" {
      ExpandKeepsSize(s[1..], column + (8 - column % 8));
      ExpandKeepsSize(s[1..], if s[0] == '\n' || s[0] == '\r' then 0 else column + 1);
    }
  }

  function InsertEdit(text: string, line: int, added: string): Option<Edit> {
    var lines := Split(text);
    if line < 0 || line > |lines| then None
    else
      var more := Split(ExpandTabs(added));
      var from := Max(0, line - SNIPPET_LINES);
      Some(Edit(text, JoinLines(lines[..line] + more + lines[line..]), Max(1, line - SNIPPET_LINES + 1),
                JoinLines(lines[from..line] + more + Slice(lines, line, line + SNIPPET_LINES))))
  }

  // -------------------------------------------------------------------------- commands

  /** The checks on a path that come before every command. */
  predicate PathAccepted(s: State, path: string, c: Command) {
    if c.Create? then !(path != "" && path[|path| - 1] == '/') && path !in s.files && path !in s.dirs
    else path in s.files && path !in s.dirs
  }

  function Write(s: State, path: string, text: string, stack: seq<string>): State {
    s.(files := s.files[path := TextFile(text)], history := s.history[path := stack])
  }

  /** The edit a replace or an insert makes to a readable file. */
  function EditOf(text: string, c: Command): Option<Edit> {
    match c
    case StrReplace(Some(from), to) => if from == "" then None else ReplaceEdit(text, from, to.GetOr(""))
    case Insert(Some(line), Some(added)) => InsertEdit(text, line, added)
    case _ => None
  }

  predicate WellFormed(c: Command) {
    match c
    case Create(text, _) => text.Some?
    case StrReplace(from, _) => from.Some? && from.value != ""
    case Insert(line, text) => line.Some? && text.Some?
    case Undo => true
  }

  function Apply(s: State, path: string, c: Command): (State, Reply) {
    if !PathAccepted(s, path, c) || !WellFormed(c) then (s, Refused)
    else if c.Create? then
      if c.parent !in s.dirs then (s, Refused)
      else (Write(s, path, c.text.value, Stack(s.history, path) + [""]), Done([]))
    else if c.Undo? then
      var stack := Stack(s.history, path);
      if stack == [] then (s, Refused)
      else
        var n := |stack| - 1;
        (Write(s, path, stack[n], stack[..n]), Done(MakeOutput(stack[n], 1)))
    else match ReadExpanded(s.files[path])
         case None => (s, Unreadable)
         case Some(text) =>
           match EditOf(text, c)
           case None => (s, Refused)
           case Some(e) =>
             (Write(s, path, e.after, Stack(s.history, path) + [e.before]), Done(MakeOutput(e.snippet, e.first)))
  }

  // ------------------------------------------------------------- undo is a LIFO inverse

  datatype Step = Step(path: string, command: Command)

  function RunAll(s: State, steps: seq<Step>): State {
    if steps == [] then s
    else
      var last := steps[|steps| - 1];
      Apply(RunAll(s, steps[..|steps| - 1]), last.path, last.command).0
  }

  /** The text an edit starts from: nothing for a create, otherwise the file with line ends
      normalized and tabs expanded. */
  function StartsFrom(s: State, step: Step): string {
    if step.command.Create? || step.path !in s.files then ""
    else ReadExpanded(s.files[step.path]).GetOr("")
  }

  /** The texts that the successful edits of a path started from. */
  function Starts(s: State, steps: seq<Step>, path: string): seq<string> {
    if steps == [] then []
    else
      var n := |steps| - 1;
      var before, last := RunAll(s, steps[..n]), steps[n];
      Starts(s, steps[..n], path)
      + (if last.path == path && Apply(before, last.path, last.command).1.Done? then [StartsFrom(before, last)] else [])
  }

  function Undos(s: State, path: string, k: nat): State {
    if k == 0 then s else Apply(Undos(s, path, k - 1), path, Undo).0
  }

  lemma EditStarts(text: string, c: Command)
    ensures EditOf(text, c).Some? ==> EditOf(text, c).value.before == text
  {
  }

  /** An edit pushes the text it starts from, and writes nothing but its own file. */
  lemma EditPushes(s: State, step: Step, path: string)
    requires !step.command.Undo?
    ensures var (t, r) := Apply(s, step.path, step.command);
            && t.dirs == s.dirs
            && (!r.Done? ==> t == s)
            && Stack(t.history, path)
               == Stack(s.history, path) + (if step.path == path && r.Done? then [StartsFrom(s, step)] else [])
            && (r.Done? ==> step.path in t.files && step.path !in t.dirs)
            && (forall p | p in s.files :: p in t.files && (p != step.path ==> t.files[p] == s.files[p]))
  {
    if step.path in s.files && s.files[step.path].TextFile? {
      EditStarts(ReadExpanded(s.files[step.path]).value, step.command);
    }
    hide EditOf, ReadExpanded, MakeOutput;
    assert Stack(s.history, path) + [] == Stack(s.history, path);
  }

  lemma {:induction false} EditsPush(s: State, steps: seq<Step>, path: string)
    requires forall i | 0 <= i < |steps| :: !steps[i].command.Undo?
    ensures var t := RunAll(s, steps);
            && t.dirs == s.dirs
            && Stack(t.history, path) == Stack(s.history, path) + Starts(s, steps, path)
            && (Starts(s, steps, path) != [] ==> path in t.files && path !in t.dirs)
    decreases |steps|
  {
    if steps != [] {
      var n := |steps| - 1;
      EditsPush(s, steps[..n], path);
      var before, last := RunAll(s, steps[..n]), steps[n];
      EditPushes(before, last, path);
      assert RunAll(s, steps) == Apply(before, last.path, last.command).0;
      var more := if last.path == path && Apply(before, last.path, last.command).1.Done? then [StartsFrom(before, last)] else [];
      assert Starts(s, steps, path) == Starts(s, steps[..n], path) + more;
      hide Apply, Stack, StartsFrom, RunAll, Starts;
      assert Stack(s.history, path) + Starts(s, steps[..n], path) + more
             == Stack(s.history, path) + (Starts(s, steps[..n], path) + more);
    }
  }

  /** One more undo of a stack whose top part is `starts[..n + 1]`. */
  lemma UndoOneMore(t: State, u: State, path: string, below: seq<string>, starts: seq<string>, n: nat)
    requires n < |starts| && u.dirs == t.dirs && path in u.files && path !in u.dirs
    requires Stack(u.history, path) == below + starts[..n + 1]
    requires u.files[path := BinaryFile] == t.files[path := BinaryFile]
    ensures var v := Apply(u, path, Undo).0;
            && v.dirs == t.dirs && path in v.files
            && Stack(v.history, path) == below + starts[..n]
            && v.files == t.files[path := TextFile(starts[n])]
            && v.files[path := BinaryFile] == t.files[path := BinaryFile]
  {
    hide Apply, Stack;
    PopOne(below, starts, n);
    UndoPops(u, path);
    UndoWrites(u, path);
    SameElsewhere(u.files, t.files, path, TextFile(starts[n]));
  }

  lemma SameElsewhere(a: Files, b: Files, path: string, f: File)
    requires a[path := BinaryFile] == b[path := BinaryFile]
    ensures a[path := f] == b[path := f] && a[path := f][path := BinaryFile] == b[path := BinaryFile]
  {
    assert a[path := f] == a[path := BinaryFile][path := f];
    assert b[path := f] == b[path := BinaryFile][path := f];
  }

  /** `k` undos of a path, after any edits of any files, write back in reverse order exactly the texts
      that the last `k` successful edits of that path started from, and touch no other file. */
  lemma {:induction false} UndoIsLifo(s: State, steps: seq<Step>, path: string, k: nat)
    requires forall i | 0 <= i < |steps| :: !steps[i].command.Undo?
    requires k <= |Starts(s, steps, path)|
    ensures var t, u, starts := RunAll(s, steps), Undos(RunAll(s, steps), path, k), Starts(s, steps, path);
            && u.dirs == t.dirs && u.files[path := BinaryFile] == t.files[path := BinaryFile]
            && (starts != [] ==> path in u.files && path !in u.dirs)
            && Stack(u.history, path) == Stack(s.history, path) + starts[..|starts| - k]
            && (k > 0 ==> u.files == t.files[path := TextFile(starts[|starts| - k])])
    decreases k
  {
    hide RunAll, Starts, Apply, Stack;
    EditsPush(s, steps, path);
    var t, starts := RunAll(s, steps), Starts(s, steps, path);
    if k == 0 {
      assert starts[..|starts|] == starts;
    } else {
      UndoIsLifo(s, steps, path, k - 1);
      UndoOneMore(t, Undos(t, path, k - 1), path, Stack(s.history, path), starts, |starts| - k);
    }
  }

  lemma PopOne(below: seq<string>, starts: seq<string>, n: nat)
    requires n < |starts|
    ensures var stack := below + starts[..n + 1];
            stack != [] && stack[|stack| - 1] == starts[n] && stack[..|stack| - 1] == below + starts[..n]
  {
  }

  lemma UndoPops(s: State, path: string)
    requires path in s.files && path !in s.dirs && Stack(s.history, path) != []
    ensures var stack := Stack(s.history, path);
            var (t, r) := Apply(s, path, Undo);
            && t == Write(s, path, stack[|stack| - 1], stack[..|stack| - 1])
            && Stack(t.history, path) == stack[..|stack| - 1]
            && r == Done(MakeOutput(stack[|stack| - 1], 1))
  {
    hide MakeOutput;
  }

  /** Undoing a replace or an insert gives the very same file back exactly when the file had no
      carriage return and no tab. */
  lemma UndoRestoresIff(s: State, path: string, c: Command)
    requires (c.StrReplace? || c.Insert?) && Apply(s, path, c).1.Done?
    ensures path in s.files && s.files[path].TextFile?
    ensures var text := s.files[path].text;
            Undos(Apply(s, path, c).0, path, 1).files == s.files <==> '\r' !in text && '\t' !in text
  {
    hide Apply, Write, Stack, StartsFrom, ExpandTabs, Normalize, Undos;
    EditTouchesOne(s, path, c);
    EditPushes(s, Step(path, c), path);
    var text, t := s.files[path].text, Apply(s, path, c).0;
    var start := StartsFrom(s, Step(path, c));
    EditStartsFrom(s, path, c);
    PopOne(Stack(s.history, path), [start], 0);
    assert [start][..1] == [start];
    UndoWrites(t, path);
    OneUndo(t, path);
    UndoneFiles(s.files, t.files, path, start);
    StartIsFileIff(text);
  }

  lemma EditStartsFrom(s: State, path: string, c: Command)
    requires !c.Create? && path in s.files && s.files[path].TextFile?
    ensures StartsFrom(s, Step(path, c)) == ExpandTabs(Normalize(s.files[path].text))
  {
    hide Expand, Normalize;
  }

  lemma OneUndo(s: State, path: string)
    ensures Undos(s, path, 1) == Apply(s, path, Undo).0
  {
    hide Apply;
    assert Undos(s, path, 0) == s;
  }

  /** A command leaves the stacks alone, or pushes on its path's stack, or pops it. */
  lemma ApplyWritesOneStack(s: State, path: string, c: Command)
    ensures var h, stack := Apply(s, path, c).0.history, Stack(s.history, path);
            || h == s.history
            || (c.Undo? && stack != [] && h == s.history[path := stack[..|stack| - 1]])
            || (!c.Undo? && h == s.history[path := stack + [StartsFrom(s, Step(path, c))]])
  {
    if path in s.files && s.files[path].TextFile? {
      EditStarts(ReadExpanded(s.files[path]).value, c);
    }
    hide EditOf, ReadExpanded, MakeOutput;
  }

  /** Commands during which the stack of a path is never shorter than `h`. */
  predicate StaysAbove(s: State, steps: seq<Step>, path: string, h: nat) {
    && |Stack(RunAll(s, steps).history, path)| >= h
    && (steps == [] || StaysAbove(s, steps[..|steps| - 1], path, h))
  }

  lemma StepKeepsBelow(s: State, step: Step, path: string, h: nat)
    requires |Stack(s.history, path)| >= h
    requires |Stack(Apply(s, step.path, step.command).0.history, path)| >= h
    ensures Stack(Apply(s, step.path, step.command).0.history, path)[..h] == Stack(s.history, path)[..h]
  {
    hide Apply, StartsFrom;
    ApplyWritesOneStack(s, step.path, step.command);
  }

  lemma {:induction false} RunKeepsBelow(s: State, steps: seq<Step>, path: string, h: nat)
    requires StaysAbove(s, steps, path, h)
    ensures |Stack(s.history, path)| >= h
    ensures Stack(RunAll(s, steps).history, path)[..h] == Stack(s.history, path)[..h]
    decreases |steps|
  {
    hide Apply, Stack;
    if steps != [] {
      var n := |steps| - 1;
      RunKeepsBelow(s, steps[..n], path, h);
      StepKeepsBelow(RunAll(s, steps[..n]), steps[n], path, h);
    }
  }

  lemma StepFilesStay(s: State, path: string, c: Command)
    ensures s.files.Keys <= Apply(s, path, c).0.files.Keys && Apply(s, path, c).0.dirs == s.dirs
  {
    hide EditOf, ReadExpanded, MakeOutput;
  }

  lemma {:induction false} FilesStay(s: State, steps: seq<Step>)
    ensures s.files.Keys <= RunAll(s, steps).files.Keys && RunAll(s, steps).dirs == s.dirs
    decreases |steps|
  {
    hide Apply;
    if steps != [] {
      var n := |steps| - 1;
      FilesStay(s, steps[..n]);
      StepFilesStay(RunAll(s, steps[..n]), steps[n].path, steps[n].command);
    }
  }

  /** Undo is LIFO with undos anywhere: after a successful edit, let any commands follow, edits and undos of
      this and of other files, as long as none of them undoes that edit. Once as many undos as edits have
      succeeded, one more undo writes back exactly the text the edit started from. */
  lemma UndoMatchesItsEdit(s: State, edit: Step, steps: seq<Step>)
    requires !edit.command.Undo? && Apply(s, edit.path, edit.command).1.Done?
    requires var path, t := edit.path, Apply(s, edit.path, edit.command).0;
             var h := |Stack(t.history, path)|;
             StaysAbove(t, steps, path, h) && |Stack(RunAll(t, steps).history, path)| == h
    ensures var u := RunAll(Apply(s, edit.path, edit.command).0, steps);
            var v := Apply(u, edit.path, Undo).0;
            && v.files == u.files[edit.path := TextFile(StartsFrom(s, edit))]
            && Stack(v.history, edit.path) == Stack(s.history, edit.path)
  {
    hide Apply, Stack, StartsFrom, RunAll, StaysAbove;
    var path, t := edit.path, Apply(s, edit.path, edit.command).0;
    var u := RunAll(t, steps);
    EditPushes(s, edit, path);
    var before, start := Stack(s.history, path), StartsFrom(s, edit);
    RunKeepsBelow(t, steps, path, |Stack(t.history, path)|);
    FilesStay(t, steps);
    assert Stack(u.history, path) == Stack(t.history, path) == before + [start];
    UndoPops(u, path);
    UndoWrites(u, path);
    assert (before + [start])[..|before|] == before;
  }

  lemma UndoWrites(s: State, path: string)
    requires path in s.files && path !in s.dirs && Stack(s.history, path) != []
    ensures var stack := Stack(s.history, path);
            Apply(s, path, Undo).0.files == s.files[path := TextFile(stack[|stack| - 1])]
  {
    UndoPops(s, path);
  }

  lemma EditTouchesOne(s: State, path: string, c: Command)
    requires (c.StrReplace? || c.Insert?) && Apply(s, path, c).1.Done?
    ensures path in s.files && s.files[path].TextFile? && path !in s.dirs
    ensures Apply(s, path, c).0.files.Keys == s.files.Keys
    ensures Apply(s, path, c).0.dirs == s.dirs
  {
    hide EditOf, MakeOutput;
  }

  lemma UndoneFiles(files: Files, edited: Files, path: string, start: string)
    requires path in files && edited.Keys == files.Keys && files[path].TextFile?
    requires forall p | p in files && p != path :: edited[p] == files[p]
    ensures edited[path := TextFile(start)] == files <==> start == files[path].text
  {
    if edited[path := TextFile(start)] == files {
      assert edited[path := TextFile(start)][path] == files[path];
    }
  }

  lemma StartIsFileIff(text: string)
    ensures ExpandTabs(Normalize(text)) == text <==> '\r' !in text && '\t' !in text
  {
    NormalizeIdentity(text);
    if '\r' !in text {
      ExpandTabsIdentity(text);
    } else if ExpandTabs(Normalize(text)) == text {
      NormalizedHasNoReturns(text);
      ExpandAddsNoReturns(Normalize(text), 0);
    }
  }

  lemma {:induction false} NormalizedHasNoReturns(s: string)
    ensures '\r' !in Normalize(s)
    decreases |s|
  {
    if s != "" {
      NormalizedHasNoReturns(s[1..]);
      if |s| >= 2 {
        NormalizedHasNoReturns(s[2..]);
      }
    }
  }

  lemma {:induction false} ExpandAddsNoReturns(s: string, column: nat)
    requires '\r' !in s
    ensures '\r' !in Expand(s, column)
  {
    if s != "" {
      assert forall c | c in s[1..] :: c in s;
      ExpandAddsNoReturns(s[1..], column + (8 - column % 8));
      ExpandAddsNoReturns(s[1..], if s[0] == '\n' || s[0] == '\r' then 0 else column + 1);
    }
  }
}
