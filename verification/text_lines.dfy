/** Python's line and tab handling on strings. */
module TextLines {
  import opened Sequences
  import opened Wrappers

  /** `"\n".join(lines)`. */
  function JoinLines(lines: seq<string>): string {
    if lines == [] then ""
    else if |lines| == 1 then lines[0]
    else lines[0] + "\n" + JoinLines(lines[1..])
  }

  lemma {:induction false} JoinLast(lines: seq<string>, last: string)
    requires lines != []
    ensures JoinLines(lines + [last]) == JoinLines(lines) + "\n" + last
  {
    if |lines| > 1 {
      JoinLast(lines[1..], last);
      assert (lines + [last])[1..] == lines[1..] + [last];
      assert lines[0] + "\n" + (JoinLines(lines[1..]) + "\n" + last)
             == lines[0] + "\n" + JoinLines(lines[1..]) + "\n" + last;
    } else {
      assert (lines + [last])[1..] == [last];
    }
  }

  /** Two lists of lines one after the other. */
  lemma {:induction false} JoinAppend(a: seq<string>, b: seq<string>)
    ensures JoinLines(a + b)
            == if a == [] then JoinLines(b) else if b == [] then JoinLines(a) else JoinLines(a) + "\n" + JoinLines(b)
    decreases |b|
  {
    if a == [] {
      assert a + b == b;
    } else if b == [] {
      assert a + b == a;
    } else {
      var n := |b| - 1;
      JoinAppend(a, b[..n]);
      assert a + b == a + b[..n] + [b[n]] && b == b[..n] + [b[n]];
      JoinLast(a + b[..n], b[n]);
      if n > 0 {
        JoinLast(b[..n], b[n]);
        var x, y := JoinLines(a), JoinLines(b[..n]);
        assert x + "\n" + y + "\n" + b[n] == x + "\n" + (y + "\n" + b[n]);
      } else {
        assert a + b[..n] == a;
      }
    }
  }

  /** `s.split("\n")`. */
  function Split(s: string): (r: seq<string>)
    ensures r != []
  {
    if s == "" then [""]
    else
      var rest := Split(s[1..]);
      if s[0] == '\n' then [""] + rest else [[s[0]] + rest[0]] + rest[1..]
  }

  predicate OneLine(s: string) {
    '\n' !in s
  }

  predicate AllOneLine(lines: seq<string>) {
    forall i | 0 <= i < |lines| :: OneLine(lines[i])
  }

  /** `s.count("\n")`. */
  function Newlines(s: string): nat {
    if s == "" then 0 else (if s[0] == '\n' then 1 else 0) + Newlines(s[1..])
  }

  lemma {:induction false} SplitLines(s: string)
    ensures AllOneLine(Split(s)) && |Split(s)| == Newlines(s) + 1
  {
    if s != "" {
      SplitLines(s[1..]);
    }
  }

  lemma {:induction false} NewlinesAppend(a: string, b: string)
    ensures Newlines(a + b) == Newlines(a) + Newlines(b)
  {
    if a == "" {
      assert a + b == b;
    } else {
      NewlinesAppend(a[1..], b);
      assert (a + b)[1..] == a[1..] + b;
    }
  }

  /** Splitting loses nothing. */
  lemma {:induction false} JoinOfSplit(s: string)
    ensures JoinLines(Split(s)) == s
  {
    if s != "" {
      var rest := Split(s[1..]);
      JoinOfSplit(s[1..]);
      if s[0] == '\n' {
        assert ([""] + rest)[1..] == rest;
      } else {
        assert ([[s[0]] + rest[0]] + rest[1..])[1..] == rest[1..];
      }
    }
  }

  lemma {:induction false} SplitOneLine(s: string)
    requires OneLine(s)
    ensures Split(s) == [s]
  {
    if s != "" {
      SplitOneLine(s[1..]);
      assert [s[0]] + s[1..] == s;
    }
  }

  lemma {:induction false} SplitAtNewline(a: string, b: string)
    requires OneLine(a)
    ensures Split(a + "\n" + b) == [a] + Split(b)
  {
    if a == "" {
      assert a + "\n" + b == "\n" + b && ("\n" + b)[1..] == b;
    } else {
      SplitAtNewline(a[1..], b);
      assert (a + "\n" + b)[1..] == a[1..] + "\n" + b;
      assert [a[0]] + a[1..] == a;
    }
  }

  /** Splitting undoes joining. */
  lemma {:induction false} SplitJoin(lines: seq<string>)
    requires lines != [] && AllOneLine(lines)
    ensures Split(JoinLines(lines)) == lines
  {
    if |lines| == 1 {
      SplitOneLine(lines[0]);
    } else {
      SplitJoin(lines[1..]);
      SplitAtNewline(lines[0], JoinLines(lines[1..]));
    }
  }

  /** Python's line boundaries other than CR LF. */
  predicate Breaks(c: char) {
    c == '\n' || c == '\r' || c == '\U{0B}' || c == '\U{0C}' || c == '\U{1C}' || c == '\U{1D}' || c == '\U{1E}'
    || c == '\U{85}' || c == '\U{2028}' || c == '\U{2029}'
  }

  /** `len(s.splitlines())`: a final boundary does not start another line. */
  function SplitLinesCount(s: string): nat {
    if s == "" then 0
    else if |s| >= 2 && s[0] == '\r' && s[1] == '\n' then 1 + SplitLinesCount(s[2..])
    else if Breaks(s[0]) then 1 + SplitLinesCount(s[1..])
    else Max(1, SplitLinesCount(s[1..]))
  }

  /** Every newline ends a line, and a text that is not empty has one. */
  lemma {:induction false} SplitLinesBound(s: string)
    ensures SplitLinesCount(s) >= Newlines(s)
    ensures s != "" ==> SplitLinesCount(s) >= 1
  {
    if s != "" {
      SplitLinesBound(s[1..]);
      if |s| >= 2 {
        SplitLinesBound(s[2..]);
        assert s[1..][1..] == s[2..];
      }
    }
  }

  // ------------------------------------------------------------------------------- tabs

  /** `expandtabs()` from a given column. */
  function Expand(s: string, column: nat): string {
    if s == "" then ""
    else if s[0] == '\t' then
      var width := 8 - column % 8;
      Spaces(width) + Expand(s[1..], column + width)
    else [s[0]] + Expand(s[1..], if s[0] == '\n' || s[0] == '\r' then 0 else column + 1)
  }

  function Spaces(n: nat): (r: string)
    ensures |r| == n
    ensures forall i | 0 <= i < n :: r[i] == ' '
  {
    seq(n, _ => ' ')
  }

  function ExpandTabs(s: string): string {
    Expand(s, 0)
  }

  predicate NoTabs(s: string) {
    '\t' !in s
  }

  lemma {:induction false} ExpandedHasNoTabs(s: string, column: nat)
    ensures NoTabs(Expand(s, column))
  {
    if s != "" {
      var width := 8 - column % 8;
      ExpandedHasNoTabs(s[1..], column + width);
      ExpandedHasNoTabs(s[1..], if s[0] == '\n' || s[0] == '\r' then 0 else column + 1);
    }
  }

  lemma TailHasNoTabs(s: string)
    requires NoTabs(s) && s != ""
    ensures NoTabs(s[1..])
  {
    assert forall c | c in s[1..] :: c in s;
  }

  lemma {:induction false} ExpandIdentity(s: string, column: nat)
    requires NoTabs(s)
    ensures Expand(s, column) == s
  {
    if s != "" {
      assert s[0] in s && s == [s[0]] + s[1..];
      TailHasNoTabs(s);
      ExpandIdentity(s[1..], if s[0] == '\n' || s[0] == '\r' then 0 else column + 1);
    }
  }

  /** Reading a file turns every CR LF and every other CR into a newline. */
  function Normalize(s: string): string {
    if s == "" then ""
    else if s[0] == '\r' then "\n" + Normalize(if |s| >= 2 && s[1] == '\n' then s[2..] else s[1..])
    else [s[0]] + Normalize(s[1..])
  }

  lemma {:induction false} NormalizeIdentity(s: string)
    ensures Normalize(s) == s <==> '\r' !in s
  {
    if s != "" {
      if s[0] == '\r' {
        assert Normalize(s)[0] == '\n';
      } else {
        NormalizeIdentity(s[1..]);
        assert s == [s[0]] + s[1..];
        if Normalize(s) == s {
          assert Normalize(s)[1..] == Normalize(s[1..]);
        }
      }
    }
  }

  /** No CR LF is cut in two between the texts. */
  predicate SplitsNoLineEnd(a: string, b: string) {
    a == "" || b == "" || a[|a| - 1] != '\r' || b[0] != '\n'
  }

  /** Normalizing works line end by line end: CR LF, CR and LF become a newline, every other character stays. */
  lemma NormalizeAppend(a: string, b: string)
    requires SplitsNoLineEnd(a, b)
    ensures Normalize(a + b) == Normalize(a) + Normalize(b)
    ensures Normalize("\r\n") == Normalize("\r") == Normalize("\n") == "\n"
    ensures forall c: char | c != '\r' :: Normalize([c]) == [c]
  {
    NormalizeOne();
    NormalizePieces(a, b);
    hide Normalize;
  }

  lemma NormalizeOne()
    ensures Normalize("\r\n") == Normalize("\r") == Normalize("\n") == "\n"
    ensures forall c: char | c != '\r' :: Normalize([c]) == [c]
  {
    assert Normalize("") == "";
    assert "\r\n"[2..] == "" && "\r"[1..] == "";
    forall c: char | c != '\r' ensures Normalize([c]) == [c] {
      assert [c][1..] == "";
    }
  }

  /** How many characters the first line end, or any other first character, takes. */
  function FirstPiece(s: string): (n: nat)
    requires s != ""
    ensures 1 <= n <= |s|
  {
    if |s| >= 2 && s[0] == '\r' && s[1] == '\n' then 2 else 1
  }

  lemma NormalizeFirst(s: string)
    requires s != ""
    ensures Normalize(s) == (if s[0] == '\r' then "\n" else [s[0]]) + Normalize(s[FirstPiece(s)..])
  {
  }

  lemma {:induction false} NormalizePieces(a: string, b: string)
    requires SplitsNoLineEnd(a, b)
    ensures Normalize(a + b) == Normalize(a) + Normalize(b)
    decreases |a|
  {
    hide Normalize;
    if a == "" {
      assert a + b == b;
      NormalizeEmpty();
    } else {
      var n := FirstPiece(a);
      NormalizePieces(a[n..], b);
      assert (a + b)[n..] == a[n..] + b;
      assert FirstPiece(a + b) == n;
      NormalizeFirst(a);
      NormalizeFirst(a + b);
    }
  }

  lemma NormalizeEmpty()
    ensures Normalize("") == ""
  {
  }

  /** The line count likewise: after a line end another line is counted from its start, and a text
      without line ends is one line, or none when it is empty. */
  lemma {:induction false} SplitLinesAppend(a: string, b: string)
    requires a != "" && Breaks(a[|a| - 1]) && SplitsNoLineEnd(a, b)
    ensures SplitLinesCount(a + b) == SplitLinesCount(a) + SplitLinesCount(b)
    decreases |a|
  {
    if |a| >= 2 && a[0] == '\r' && a[1] == '\n' {
      assert (a + b)[2..] == a[2..] + b;
      if |a| > 2 {
        SplitLinesAppend(a[2..], b);
      }
    } else {
      assert (a + b)[1..] == a[1..] + b;
      if |a| > 1 {
        SplitLinesAppend(a[1..], b);
        SplitLinesOfSome(a[1..]);
      }
    }
  }

  lemma {:induction false} SplitLinesOfSome(s: string)
    requires s != ""
    ensures SplitLinesCount(s) >= 1
    ensures (forall i | 0 <= i < |s| - 1 :: !Breaks(s[i])) ==> SplitLinesCount(s) == 1
  {
    if |s| > 1 {
      SplitLinesOfSome(s[1..]);
      if forall i | 0 <= i < |s| - 1 :: !Breaks(s[i]) {
        assert forall i | 0 <= i < |s[1..]| - 1 :: s[1..][i] == s[i + 1];
      }
    }
  }

  /** Expanding changes a text exactly when it holds a tab. */
  lemma {:induction false} ExpandTabsIdentity(s: string)
    ensures ExpandTabs(s) == s <==> NoTabs(s)
  {
    ExpandedHasNoTabs(s, 0);
    if NoTabs(s) {
      ExpandIdentity(s, 0);
    }
  }

  // -------------------------------------------------------------------------- searching

  predicate OccursAt(s: string, sub: string, k: nat) {
    k + |sub| <= |s| && s[k..k + |sub|] == sub
  }

  lemma OccursLater(s: string, sub: string, k: nat)
    requires s != ""
    ensures OccursAt(s, sub, k + 1) <==> OccursAt(s[1..], sub, k)
  {
    if k + 1 + |sub| <= |s| {
      var there, here := s[k + 1..k + 1 + |sub|], s[1..][k..k + |sub|];
      assert |there| == |here| && forall i | 0 <= i < |here| :: there[i] == here[i];
      assert there == here;
    }
  }

  /** The leftmost occurrence. */
  function FindFirst(s: string, sub: string): (r: Option<nat>)
    ensures r.Some? ==> OccursAt(s, sub, r.value)
  {
    if OccursAt(s, sub, 0) then Some(0)
    else if s == "" then None
    else match FindFirst(s[1..], sub)
         case None => None
         case Some(k) => (OccursLater(s, sub, k); Some(k + 1))
  }

  lemma {:induction false} FindFirstIsLeftmost(s: string, sub: string, k: nat)
    requires OccursAt(s, sub, k)
    ensures FindFirst(s, sub).Some? && FindFirst(s, sub).value <= k
  {
    if k > 0 {
      OccursLater(s, sub, k - 1);
      FindFirstIsLeftmost(s[1..], sub, k - 1);
    }
  }

  /** `s.count(sub)`: occurrences from the left that do not overlap. */
  function Occurrences(s: string, sub: string): nat
    requires sub != ""
    decreases |s|
  {
    match FindFirst(s, sub)
    case None => 0
    case Some(k) => 1 + Occurrences(s[k + |sub|..], sub)
  }

  /** `s.replace(sub, by)`. */
  function Replace(s: string, sub: string, by_: string): string
    requires sub != ""
    decreases |s|
  {
    match FindFirst(s, sub)
    case None => s
    case Some(k) => s[..k] + by_ + Replace(s[k + |sub|..], sub, by_)
  }

  /** One occurrence: exactly the text around it stays. */
  lemma ReplaceOnce(s: string, sub: string, by_: string)
    requires sub != "" && Occurrences(s, sub) == 1
    ensures FindFirst(s, sub).Some?
    ensures var k := FindFirst(s, sub).value;
            && k + |sub| <= |s| && s == s[..k] + sub + s[k + |sub|..]
            && Replace(s, sub, by_) == s[..k] + by_ + s[k + |sub|..]
  {
    hide FindFirst;
    var k := FindFirst(s, sub).value;
    assert FindFirst(s[k + |sub|..], sub).None?;
    assert s[..k] + s[k..k + |sub|] + s[k + |sub|..] == s;
  }
}
