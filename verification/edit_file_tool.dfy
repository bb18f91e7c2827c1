/** The editor object: undo stacks it keeps itself, over files it only reads and writes. */
module EditFileTools {
  import opened Sequences
  import opened TextLines
  import opened Wrappers
  import opened Editor

  class EditFileTool {
    const dirs: set<string>
    var files: Files
    var history: Stacks

    constructor (files: Files, dirs: set<string>)
      ensures Abs() == State(files, dirs, map[])
    {
      this.dirs, this.files, this.history := dirs, files, map[];
    }

    ghost function Abs(): State
      reads this
    {
      State(files, dirs, history)
    }

    /** The checks that come before every command. */
    method ValidatePath(path: string, creating: bool) returns (ok: bool)
      ensures ok <==> if creating then !(path != "" && path[|path| - 1] == '/') && path !in files && path !in dirs
                      else path in files && path !in dirs
    {
      if creating && path != "" && path[|path| - 1] == '/' {
        return false;
      }
      var present := path in files || path in dirs;
      var isDir := present && path in dirs;
      if !present && !creating {
        return false;
      }
      if present && creating {
        return false;
      }
      return !isDir;
    }

    /** `write_file`, then the undo stack. */
    method WriteAndPush(path: string, text: string, previous: string)
      modifies this
      ensures Abs() == Write(old(Abs()), path, text, Stack(old(history), path) + [previous])
    {
      files := files[path := TextFile(text)];
      history := history[path := Stack(history, path) + [previous]];
    }

    method CreateFile(path: string, text: Option<string>, parent: string) returns (r: Reply)
      modifies this
      ensures (Abs(), r) == Apply(old(Abs()), path, Create(text, parent))
    {
      var ok := ValidatePath(path, true);
      if !ok {
        return Refused;
      }
      if text.None? {
        return Refused;
      }
      if parent !in dirs {
        return Refused;
      }
      WriteAndPush(path, text.value, "");
      return Done([]);
    }

    method ReplaceText(path: string, from: Option<string>, to: Option<string>) returns (r: Reply)
      modifies this
      ensures (Abs(), r) == Apply(old(Abs()), path, StrReplace(from, to))
    {
      hide MakeOutput, Expand, Occurrences, Replace, FindFirst, Newlines, SplitLinesCount, Split, JoinLines, Normalize;
      var ok := ValidatePath(path, false);
      if !ok || from.None? || from.value == "" {
        return Refused;
      }
      if files[path].BinaryFile? {
        return Unreadable;
      }
      var content := ExpandTabs(Normalize(files[path].text));
      ExpandKeepsSize(from.value, 0);
      var target, added := ExpandTabs(from.value), ExpandTabs(to.GetOr(""));
      var occurrences := Occurrences(content, target);
      if occurrences == 0 {
        return Refused;
      }
      if occurrences > 1 {
        return Refused;
      }
      if added == target {
        return Refused;
      }
      var newContent := Replace(content, target, added);
      WriteAndPush(path, newContent, content);
      var at := Newlines(content[..FindFirst(content, target).GetOr(0)]);
      var start := Max(1, at - SNIPPET_LINES);
      var end := Min(at + SNIPPET_LINES + Newlines(added), SplitLinesCount(newContent));
      var snippet := JoinLines(Slice(Split(newContent), start - 1, end));
      return Done(MakeOutput(snippet, start));
    }

    method InsertText(path: string, line: Option<int>, text: Option<string>) returns (r: Reply)
      modifies this
      ensures (Abs(), r) == Apply(old(Abs()), path, Insert(line, text))
    {
      hide MakeOutput, Expand, Split, JoinLines, Normalize;
      var ok := ValidatePath(path, false);
      if !ok || line.None? || text.None? {
        return Refused;
      }
      if files[path].BinaryFile? {
        return Unreadable;
      }
      var content := ExpandTabs(Normalize(files[path].text));
      var lines := Split(content);
      var at := line.value;
      if at < 0 || at > |lines| {
        return Refused;
      }
      var more := Split(ExpandTabs(text.value));
      var newLines := lines[..at] + more + lines[at..];
      var snippet := lines[Max(0, at - SNIPPET_LINES)..at] + more + Slice(lines, at, at + SNIPPET_LINES);
      WriteAndPush(path, JoinLines(newLines), content);
      return Done(MakeOutput(JoinLines(snippet), Max(1, at - SNIPPET_LINES + 1)));
    }

    method UndoEdit(path: string) returns (r: Reply)
      modifies this
      ensures (Abs(), r) == Apply(old(Abs()), path, Undo)
    {
      hide MakeOutput;
      var ok := ValidatePath(path, false);
      if !ok {
        return Refused;
      }
      var stack := Stack(history, path);
      if stack == [] {
        return Refused;
      }
      var previous := stack[|stack| - 1];
      files := files[path := TextFile(previous)];
      history := history[path := stack[..|stack| - 1]];
      return Done(MakeOutput(previous, 1));
    }
  }
}
