/** Extracting the last boxed answer from a solution text. */
module Boxed {
  import opened TextLines
  import opened Wrappers

  const BOXED := "\\boxed"
  const BOXED_SPACE := "\\boxed "
  const BOXED_BRACE := "\\boxed{"
  const FBOX := "\\fbox"

  /** The last occurrence: `rfind`. */
  function FindLast(s: string, sub: string): (r: Option<nat>)
    ensures r.Some? ==> OccursAt(s, sub, r.value)
  {
    if s == "" then (if sub == "" then Some(0) else None)
    else match FindLast(s[1..], sub)
         case Some(k) => (OccursLater(s, sub, k); Some(k + 1))
         case None => if OccursAt(s, sub, 0) then Some(0) else None
  }

  lemma {:induction false} FindLastIsLast(s: string, sub: string, k: nat)
    requires OccursAt(s, sub, k) && sub != ""
    ensures FindLast(s, sub).Some? && FindLast(s, sub).value >= k
  {
    if k > 0 {
      OccursLater(s, sub, k - 1);
      FindLastIsLast(s[1..], sub, k - 1);
    } else if FindLast(s[1..], sub).None? {
    }
  }

  predicate Contains(s: string, sub: string) {
    FindFirst(s, sub).Some?
  }

  /** The part after the last separator: `s.split(sep)[-1]`, separators taken from the left. */
  function AfterLast(s: string, sep: string): string
    requires sep != ""
    decreases |s|
  {
    match FindFirst(s, sep)
    case None => s
    case Some(k) => AfterLast(s[k + |sep|..], sep)
  }

  /** The part before the first separator: `s.split(sep)[0]`. */
  function BeforeFirst(s: string, sep: string): string {
    match FindFirst(s, sep)
    case None => s
    case Some(k) => s[..k]
  }

  /** Opening less closing braces. */
  function Depth(s: string): int {
    if s == "" then 0
    else Depth(s[..|s| - 1]) + (var c := s[|s| - 1]; if c == '{' then 1 else if c == '}' then -1 else 0)
  }

  /** The scan: the first closing brace at which as many are closed as opened. */
  ghost predicate ClosesAt(s: string, from: nat, p: nat) {
    && from <= p < |s| && s[p] == '}' && Depth(s[from..p + 1]) == 0
    && forall q | from <= q < p && s[q] == '}' :: Depth(s[from..q + 1]) != 0
  }

  ghost function FirstClose(s: string, from: nat): (r: Option<nat>)
    ensures r.Some? ==> ClosesAt(s, from, r.value)
    ensures r.None? ==> forall p :: !ClosesAt(s, from, p)
  {
    if exists p :: ClosesAt(s, from, p) then
      var p :| ClosesAt(s, from, p);
      Some(p)
    else None
  }

  lemma ClosesOnce(s: string, from: nat, p: nat)
    requires ClosesAt(s, from, p)
    ensures FirstClose(s, from) == Some(p)
  {
  }

  /** Where the brace scan starts: the last `\\boxed`, or else the last `\\fbox`. */
  function ScanStart(s: string): Option<nat> {
    if FindLast(s, BOXED).Some? then FindLast(s, BOXED) else FindLast(s, FBOX)
  }

  ghost function LastBoxed(s: string): Option<string> {
    if Contains(s, BOXED_SPACE) then Some(BOXED_SPACE + BeforeFirst(AfterLast(s, BOXED_SPACE), "$"))
    else if ScanStart(s).None? then None
    else match FirstClose(s, ScanStart(s).value)
         case None => None
         case Some(p) => Some(s[ScanStart(s).value..p + 1])
  }

  method LastBoxedOnlyString(value: string) returns (r: Option<string>)
    ensures r == LastBoxed(value)
  {
    hide FindLast, Contains, BeforeFirst, AfterLast, FirstClose;
    var index := FindLast(value, BOXED);
    if Contains(value, BOXED_SPACE) {
      return Some(BOXED_SPACE + BeforeFirst(AfterLast(value, BOXED_SPACE), "$"));
    }
    if index.None? {
      index := FindLast(value, FBOX);
      if index.None? {
        return None;
      }
    }
    r := Scan(value, index.value);
  }

  /** The loop that counts braces from the box on. */
  method Scan(value: string, from: nat) returns (r: Option<string>)
    requires from <= |value|
    ensures r == match FirstClose(value, from)
                 case None => None
                 case Some(p) => Some(value[from..p + 1])
  {
    var open := 0;
    for position := from to |value|
      invariant open == Depth(value[from..position])
      invariant forall q | from <= q < position && value[q] == '}' :: Depth(value[from..q + 1]) != 0
    {
      assert value[from..position + 1][..position - from] == value[from..position];
      if value[position] == '{' {
        open := open + 1;
      } else if value[position] == '}' {
        open := open - 1;
        if open == 0 {
          ClosesOnce(value, from, position);
          return Some(value[from..position + 1]);
        }
      }
    }
    return None;
  }

  /** Removing the box; None where an assertion fails or the text is too short to index. */
  function RemoveBoxed(value: string): Result<string> {
    if Contains(value, BOXED_SPACE) then
      if BOXED_SPACE <= value then Ok(value[|BOXED_SPACE|..]) else Err(AssertionFailed)
    else if !(BOXED_BRACE <= value) then Err(AssertionFailed)
    else if value[|value| - 1] != '}' then Err(AssertionFailed)
    else Ok(value[|BOXED_BRACE|..|value| - 1])
  }

  /** Braces match: never more closed than opened, and as many in the end. */
  predicate Balanced(s: string) {
    Depth(s) == 0 && forall i | 0 <= i <= |s| :: Depth(s[..i]) >= 0
  }

  lemma {:induction false} DepthAppend(a: string, b: string)
    ensures Depth(a + b) == Depth(a) + Depth(b)
    decreases |b|
  {
    if b == "" {
      assert a + b == a;
    } else {
      var n := |b| - 1;
      DepthAppend(a, b[..n]);
      assert (a + b)[..|a + b| - 1] == a + b[..n];
    }
  }

  // ------------------------------------------------------------------------ round trip

  lemma OccursPart(s: string, sub: string, a: nat, b: nat, k: nat)
    requires a <= b <= |s| && k + |sub| <= b - a
    ensures OccursAt(s[a..b], sub, k) <==> OccursAt(s, sub, a + k)
  {
    var here, there := s[a..b][k..k + |sub|], s[a + k..a + k + |sub|];
    assert forall i | 0 <= i < |sub| :: here[i] == there[i];
    assert here == there;
  }

  lemma AbsentNowhere(s: string, sub: string, k: nat)
    requires !Contains(s, sub)
    ensures !OccursAt(s, sub, k)
  {
    if OccursAt(s, sub, k) {
      FindFirstIsLeftmost(s, sub, k);
    }
  }

  /** What occurs in a part of a text occurs in the text. */
  lemma ContainsPart(s: string, sub: string, a: nat, b: nat)
    requires a <= b <= |s| && Contains(s[a..b], sub)
    ensures Contains(s, sub)
  {
    var k := FindFirst(s[a..b], sub).value;
    OccursPart(s, sub, a, b, k);
    FindFirstIsLeftmost(s, sub, a + k);
  }

  lemma NotBoxAt(s: string, k: nat, i: nat)
    requires i < |BOXED| && k + i < |s| && s[k + i] != BOXED[i]
    ensures !OccursAt(s, BOXED, k)
  {
    if k + |BOXED| <= |s| {
      assert s[k..k + |BOXED|][i] == s[k + i];
    }
  }

  lemma BoxChars()
    ensures |BOXED| == 6 && |BOXED_BRACE| == 7 && BOXED_BRACE == BOXED + "{"
    ensures BOXED[0] == '\\'
    ensures forall i | 0 < i < |BOXED_BRACE| :: BOXED_BRACE[i] != '\\'
    ensures forall i | 0 <= i < |BOXED| :: !IsBrace(BOXED[i])
  {
  }

  /** After its own start, a boxed answer has no other `\\boxed`: nothing in it or after it does, and none
      can cross a brace. */
  lemma NoLaterBox(pre: string, a: string, post: string, k: nat)
    requires !Contains(a, BOXED) && !Contains(post, BOXED) && k > |pre|
    ensures !OccursAt(pre + BOXED_BRACE + a + "}" + post, BOXED, k)
  {
    hide OccursAt, Contains;
    BoxChars();
    var text := pre + BOXED_BRACE + a + "}" + post;
    var n, m := |pre|, |pre| + |BOXED_BRACE|;
    var e := m + |a|;
    if k < m {
      assert text[k] == BOXED_BRACE[k - n];
      NotBoxAt(text, k, 0);
    } else if k + |BOXED| <= e {
      assert text[m..e] == a;
      OccursPart(text, BOXED, m, e, k - m);
      AbsentNowhere(a, BOXED, k - m);
    } else if k <= e {
      assert text[e] == '}';
      NotBoxAt(text, k, e - k);
    } else {
      assert text[e + 1..] == post;
      AbsentNowhere(post, BOXED, k - (e + 1));
      if k + |BOXED| <= |text| {
        assert text[e + 1..|text|] == post;
        OccursPart(text, BOXED, e + 1, |text|, k - (e + 1));
      } else {
        TooShort(text, k);
      }
    }
  }

  lemma TooShort(s: string, k: nat)
    requires k + |BOXED| > |s|
    ensures !OccursAt(s, BOXED, k)
  {
  }

  lemma BoxStartsLast(pre: string, a: string, post: string)
    requires !Contains(a, BOXED) && !Contains(post, BOXED)
    ensures FindLast(pre + BOXED_BRACE + a + "}" + post, BOXED) == Some(|pre|)
  {
    hide OccursAt, Contains, FindLast;
    var text := pre + BOXED_BRACE + a + "}" + post;
    BoxHere(pre, a, post);
    FindLastIsLast(text, BOXED, |pre|);
    var k := FindLast(text, BOXED).value;
    FindLastOccurs(text, BOXED);
    if k > |pre| {
      NoLaterBox(pre, a, post, k);
    }
  }

  lemma FindLastOccurs(s: string, sub: string)
    ensures FindLast(s, sub).Some? ==> OccursAt(s, sub, FindLast(s, sub).value)
  {
  }

  lemma BoxHere(pre: string, a: string, post: string)
    ensures OccursAt(pre + BOXED_BRACE + a + "}" + post, BOXED, |pre|)
  {
    BoxChars();
    var text, rest := pre + BOXED_BRACE + a + "}" + post, a + "}" + post;
    assert text == pre + BOXED_BRACE + rest;
    assert text[|pre|..|pre| + 7] == BOXED_BRACE;
    assert BOXED_BRACE[..6] == BOXED;
    assert text[|pre|..|pre| + 6] == BOXED_BRACE[..6];
  }

  lemma BoxCloses(pre: string, a: string, post: string)
    requires Balanced(a)
    ensures ClosesAt(pre + BOXED_BRACE + a + "}" + post, |pre|, |pre| + |BOXED_BRACE| + |a|)
  {
    var text := pre + BOXED_BRACE + a + "}" + post;
    var n, m := |pre|, |pre| + |BOXED_BRACE|;
    var p := m + |a|;
    BoxChars();
    BraceDepth();
    assert text[n..p + 1] == BOXED_BRACE + a + "}";
    DepthAppend(BOXED_BRACE + a, "}");
    DepthAppend(BOXED_BRACE, a);
    assert a[..|a|] == a;
    forall q | n <= q < m ensures text[q] != '}' {
      assert text[q] == BOXED_BRACE[q - n];
    }
    hide Depth;
    forall q | m <= q < p && text[q] == '}' ensures Depth(text[n..q + 1]) != 0 {
      assert text[n..q + 1] == BOXED_BRACE + a[..q + 1 - m];
      DepthAppend(BOXED_BRACE, a[..q + 1 - m]);
    }
  }

  lemma BraceDepth()
    ensures Depth(BOXED_BRACE) == 1 && Depth("}") == -1
  {
    BoxChars();
    NoBraceNoDepth(BOXED);
    assert "{"[..0] == "" && "}"[..0] == "";
    DepthAppend(BOXED, "{");
  }

  /** Any brace-balanced answer comes back unchanged, whatever stands before it, if neither it nor what
      follows holds another `\\boxed` and the spaced form does not occur. */
  lemma BoxedRoundTrip(pre: string, a: string, post: string)
    requires Balanced(a)
    requires !Contains(a, BOXED) && !Contains(post, BOXED)
    requires !Contains(pre + BOXED_BRACE + a + "}" + post, BOXED_SPACE)
    ensures LastBoxed(pre + BOXED_BRACE + a + "}" + post) == Some(BOXED_BRACE + a + "}")
    ensures RemoveBoxed(BOXED_BRACE + a + "}") == Ok(a)
  {
    var text, boxed := pre + BOXED_BRACE + a + "}" + post, BOXED_BRACE + a + "}";
    var p := |pre| + |BOXED_BRACE| + |a|;
    assert text[|pre|..p + 1] == boxed;
    BoxStartsLast(pre, a, post);
    BoxCloses(pre, a, post);
    ClosesOnce(text, |pre|, p);
    assert LastBoxed(text) == Some(boxed);
    if Contains(boxed, BOXED_SPACE) {
      ContainsPart(text, BOXED_SPACE, |pre|, p + 1);
    }
    hide LastBoxed, Contains, Balanced;
    assert BOXED_BRACE <= boxed && boxed[|BOXED_BRACE|..|boxed| - 1] == a;
  }

  // ------------------------------------------------------------------ the spaced form

  /** What follows the last spaced form: the answer up to the first dollar sign or the end. */
  predicate SpacedAnswer(a: string, post: string) {
    && !Contains(a + post, BOXED_SPACE) && '$' !in a
    && (post == "" || post[0] == '$')
  }

  lemma SpacedChars()
    ensures |BOXED_SPACE| == 7 && BOXED_SPACE[0] == '\\'
    ensures forall i | 0 < i < |BOXED_SPACE| :: BOXED_SPACE[i] != '\\'
  {
  }

  /** No spaced form reaches into another one. */
  lemma SpacedFormsApart(pre: string, rest: string, k: nat)
    requires OccursAt(pre + BOXED_SPACE + rest, BOXED_SPACE, k) && k < |pre|
    ensures k + |BOXED_SPACE| <= |pre|
  {
    SpacedChars();
    var text := pre + BOXED_SPACE + rest;
    assert text[|pre|] == BOXED_SPACE[0];
    if k + |BOXED_SPACE| > |pre| {
      OccursChar(text, BOXED_SPACE, k, |pre| - k);
    }
  }

  lemma {:induction false} AfterLastIsLast(pre: string, rest: string)
    requires !Contains(rest, BOXED_SPACE)
    ensures AfterLast(pre + BOXED_SPACE + rest, BOXED_SPACE) == rest
    decreases |pre|
  {
    var text, n := pre + BOXED_SPACE + rest, |BOXED_SPACE|;
    assert text[|pre|..|pre| + n] == BOXED_SPACE;
    FindFirstIsLeftmost(text, BOXED_SPACE, |pre|);
    var k := FindFirst(text, BOXED_SPACE).value;
    if k == |pre| {
      assert text[k + n..] == rest;
    } else {
      SpacedFormsApart(pre, rest, k);
      assert text[k + n..] == pre[k + n..] + BOXED_SPACE + rest;
      AfterLastIsLast(pre[k + n..], rest);
    }
  }

  lemma UpToDollar(a: string, post: string)
    requires '$' !in a && (post == "" || post[0] == '$')
    ensures BeforeFirst(a + post, "$") == a
  {
    var s := a + post;
    if post != "" {
      assert s[|a|..|a| + 1] == "$";
      FindFirstIsLeftmost(s, "$", |a|);
    }
    match FindFirst(s, "$")
    case None =>
    case Some(k) => OccursChar(s, "$", k, 0);
  }

  /** An answer in the spaced form comes back unchanged, whatever stands before it, other boxes included: it
      ends at the first dollar sign, or with the text. */
  lemma SpacedRoundTrip(pre: string, a: string, post: string)
    requires SpacedAnswer(a, post)
    ensures LastBoxed(pre + BOXED_SPACE + a + post) == Some(BOXED_SPACE + a)
    ensures RemoveBoxed(BOXED_SPACE + a) == Ok(a)
  {
    var text := pre + BOXED_SPACE + a + post;
    assert text == pre + BOXED_SPACE + (a + post);
    AfterLastIsLast(pre, a + post);
    UpToDollar(a, post);
    assert text[|pre|..|pre| + |BOXED_SPACE|] == BOXED_SPACE;
    FindFirstIsLeftmost(text, BOXED_SPACE, |pre|);
    assert (BOXED_SPACE + a)[..|BOXED_SPACE|] == BOXED_SPACE;
    FindFirstIsLeftmost(BOXED_SPACE + a, BOXED_SPACE, 0);
  }

  lemma {:induction false} LastSpacedForm(text: string) returns (pre: string, rest: string)
    requires Contains(text, BOXED_SPACE)
    ensures text == pre + BOXED_SPACE + rest && !Contains(rest, BOXED_SPACE)
    decreases |text|
  {
    var k, n := FindFirst(text, BOXED_SPACE).value, |BOXED_SPACE|;
    assert text == text[..k] + text[k..k + n] + text[k + n..];
    pre, rest := text[..k], text[k + n..];
    if Contains(rest, BOXED_SPACE) {
      var more, last := LastSpacedForm(rest);
      pre, rest := text[..k + n] + more, last;
    }
  }

  lemma {:induction false} DollarSplit(s: string) returns (a: string, post: string)
    ensures s == a + post && '$' !in a && (post == "" || post[0] == '$')
  {
    if s == "" || s[0] == '$' {
      a, post := "", s;
    } else {
      a, post := DollarSplit(s[1..]);
      a := [s[0]] + a;
    }
  }

  /** Every text with a spaced form has exactly one such answer, and that is what is extracted. */
  lemma SpacedFormExtracted(text: string) returns (pre: string, a: string, post: string)
    requires Contains(text, BOXED_SPACE)
    ensures text == pre + BOXED_SPACE + a + post && SpacedAnswer(a, post)
    ensures LastBoxed(text) == Some(BOXED_SPACE + a)
  {
    var rest;
    pre, rest := LastSpacedForm(text);
    a, post := DollarSplit(rest);
    SpacedRoundTrip(pre, a, post);
  }

  // -------------------------------------------------------------- what the scan returns

  predicate IsBrace(c: char) {
    c == '{' || c == '}'
  }

  /** The first brace of a text is at `f`. */
  predicate FirstBrace(s: string, f: nat) {
    f < |s| && IsBrace(s[f]) && forall i | 0 <= i < f :: !IsBrace(s[i])
  }

  lemma {:induction false} NoBraceNoDepth(s: string)
    requires forall i | 0 <= i < |s| :: !IsBrace(s[i])
    ensures Depth(s) == 0
    decreases |s|
  {
    if s != "" {
      NoBraceNoDepth(s[..|s| - 1]);
    }
  }

  lemma {:induction false} StaysOpen(s: string, f: nat, i: nat)
    requires FirstBrace(s, f) && s[f] == '{' && f < i < |s|
    requires forall q | 0 <= q < |s| - 1 && s[q] == '}' :: Depth(s[..q + 1]) != 0
    ensures Depth(s[..i]) >= 1
    decreases i
  {
    assert s[..i][..i - 1] == s[..i - 1];
    if i == f + 1 {
      NoBraceNoDepth(s[..f]);
    } else {
      StaysOpen(s, f, i - 1);
    }
  }

  lemma ScanPrefixes(s: string, from: nat, p: nat)
    requires ClosesAt(s, from, p)
    ensures var r := s[from..p + 1];
            forall q | 0 <= q < |r| - 1 && r[q] == '}' :: Depth(r[..q + 1]) != 0
  {
    hide Depth;
    var r := s[from..p + 1];
    forall q | 0 <= q < |r| - 1 && r[q] == '}' ensures Depth(r[..q + 1]) != 0 {
      assert r[..q + 1] == s[from..from + q + 1];
      assert s[from + q] == '}';
    }
  }

  /** A text from the brace scan closes as many braces as it opens and ends where that first happens.
      Its braces match exactly when its first brace is an opening one. */
  lemma ScanBalancedIff(s: string, from: nat, p: nat, f: nat)
    requires ClosesAt(s, from, p) && FirstBrace(s[from..p + 1], f)
    ensures Depth(s[from..p + 1]) == 0
    ensures Balanced(s[from..p + 1]) <==> s[from + f] == '{'
  {
    var r := s[from..p + 1];
    ScanPrefixes(s, from, p);
    if r[f] == '{' {
      forall i | 0 <= i <= |r| ensures Depth(r[..i]) >= 0 {
        if i == |r| {
          assert r[..i] == r;
        } else if i <= f {
          NoBraceNoDepth(r[..i]);
        } else {
          StaysOpen(r, f, i);
        }
      }
    } else {
      NoBraceNoDepth(r[..f]);
      assert r[..f + 1][..f] == r[..f];
      assert Depth(r[..f + 1]) == -1;
    }
  }

  lemma {:induction false} FirstBraceExists(s: string) returns (f: nat)
    requires s != "" && IsBrace(s[|s| - 1])
    ensures FirstBrace(s, f)
  {
    if IsBrace(s[0]) {
      f := 0;
    } else {
      f := FirstBraceExists(s[1..]);
      assert s[1..][f] == s[f + 1];
      assert forall i | 0 < i < f + 1 :: s[i] == s[1..][i - 1];
      f := f + 1;
    }
  }

  /** Whatever the extraction returns from the brace scan closes as many braces as it opens, and its braces
      match exactly when the first brace from the box on is an opening one. */
  lemma ReturnedBalancedIff(s: string) returns (f: nat)
    requires !Contains(s, BOXED_SPACE) && LastBoxed(s).Some?
    ensures ScanStart(s).Some? && ScanStart(s).value <= |s| && FirstBrace(s[ScanStart(s).value..], f)
    ensures Depth(LastBoxed(s).value) == 0
    ensures Balanced(LastBoxed(s).value) <==> s[ScanStart(s).value + f] == '{'
  {
    hide Contains, FindLast, Depth, Balanced;
    var from := ScanStart(s).value;
    var p := FirstClose(s, from).value;
    var r := s[from..p + 1];
    assert r[|r| - 1] == s[p];
    f := FirstBraceExists(r);
    ScanBalancedIff(s, from, p, f);
    assert forall i | 0 <= i < |r| :: s[from..][i] == r[i];
  }

  const CLOSED_FIRST := "\\boxed}{{}"

  lemma OccursChar(s: string, sub: string, k: nat, i: nat)
    requires OccursAt(s, sub, k) && i < |sub|
    ensures k + i < |s| && s[k + i] == sub[i]
  {
    assert s[k..k + |sub|][i] == s[k + i];
  }

  lemma ContainsChar(s: string, sub: string, i: nat)
    requires Contains(s, sub) && i < |sub|
    ensures sub[i] in s
  {
    OccursChar(s, sub, FindFirst(s, sub).value, i);
  }

  lemma NoSpaceNoSpacedBox(s: string)
    requires ' ' !in s
    ensures !Contains(s, BOXED_SPACE)
  {
    hide Contains;
    if Contains(s, BOXED_SPACE) {
      ContainsChar(s, BOXED_SPACE, 6);
    }
  }

  lemma ClosedFirstStarts()
    ensures ScanStart(CLOSED_FIRST) == Some(0)
  {
    hide FindLast;
    var s := CLOSED_FIRST;
    assert s[..6] == BOXED;
    FindLastIsLast(s, BOXED, 0);
    FindLastOccurs(s, BOXED);
    OccursChar(s, BOXED, FindLast(s, BOXED).value, 0);
    assert forall i | 0 < i < |s| :: s[i] != '\\';
  }

  lemma ClosedFirstCloses()
    ensures ClosesAt(CLOSED_FIRST, 0, 9)
  {
    var s := CLOSED_FIRST;
    BoxChars();
    NoBraceNoDepth(BOXED);
    UnmatchedDepths();
    assert s == BOXED + "}{{}";
    hide Depth;
    DepthAppend(BOXED, "}");
    DepthAppend(BOXED, "}{{}");
    assert s[0..7] == BOXED + "}" && s[0..10] == BOXED + "}{{}";
  }

  lemma UnmatchedDepths()
    ensures Depth("}") == -1 && Depth("}{{}") == 0
  {
    assert "}"[..0] == "" && "}{"[..1] == "}" && "}{{"[..2] == "}{" && "}{{}"[..3] == "}{{";
    assert Depth("}{") == 0 && Depth("}{{") == 1;
  }

  /** A box that starts with a closing brace is returned, with braces that do not match. */
  lemma UnmatchedBoxReturned()
    ensures LastBoxed(CLOSED_FIRST) == Some(CLOSED_FIRST) && !Balanced(CLOSED_FIRST)
  {
    hide Contains, FindLast, Depth, ClosesAt, FirstClose;
    NoSpaceNoSpacedBox(CLOSED_FIRST);
    ClosedFirstStarts();
    ClosedFirstCloses();
    ClosesOnce(CLOSED_FIRST, 0, 9);
    assert CLOSED_FIRST[0..10] == CLOSED_FIRST;
    assert FirstBrace(CLOSED_FIRST, 6);
    ScanBalancedIff(CLOSED_FIRST, 0, 9, 6);
  }
}
