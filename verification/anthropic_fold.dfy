/** Folding mid-conversation system entries into neighbouring user messages. */
module AnthropicFold {
  import opened TextLines
  import opened Wrappers
  import opened AnthropicContent
  import opened AnthropicMessages

  /** `clean` strips a request-scoped billing header and the white space around a system text. */
  type Cleaner = string -> string

  predicate IsSystem(e: Entry) {
    e.Dict? && e.role == "system"
  }

  predicate IsUser(e: Entry) {
    e.Dict? && e.role == "user"
  }

  predicate GoodSystem(c: Content) {
    match c
    case Blocks(blocks) => forall i | 0 <= i < |blocks| :: blocks[i].Text? && blocks[i].text.Some?
    case OtherJson(_, _) => false
    case _ => true
  }

  /** The non-empty texts of system blocks. */
  function SystemParts(blocks: seq<Block>): seq<string> {
    if blocks == [] then []
    else
      var b := blocks[|blocks| - 1];
      SystemParts(blocks[..|blocks| - 1]) + (if b.Text? && b.text.Some? && b.text.value != "" then [b.text.value] else [])
  }

  function SystemText(clean: Cleaner, c: Content): Result<string> {
    if !GoodSystem(c) then Err(Malformed)
    else match c
         case Str(s) => Ok(clean(s))
         case Blocks(blocks) => Ok(clean(JoinLines(SystemParts(blocks))))
         case _ => Ok("")
  }

  method SystemToText(clean: Cleaner, c: Content) returns (r: Result<string>)
    ensures r == SystemText(clean, c)
  {
    match c {
      case Null => return Ok("");
      case Str(s) => return Ok(clean(s));
      case OtherJson(_, _) => return Err(Malformed);
      case Blocks(blocks) =>
        var parts: seq<string> := [];
        for i := 0 to |blocks|
          invariant forall k | 0 <= k < i :: blocks[k].Text? && blocks[k].text.Some?
          invariant parts == SystemParts(blocks[..i])
        {
          var b := blocks[i];
          assert blocks[..i + 1][..i] == blocks[..i];
          if !(b.Text? && b.text.Some?) {
            return Err(Malformed);
          }
          if b.text.value != "" {
            parts := parts + [b.text.value];
          }
        }
        assert blocks[..|blocks|] == blocks;
        return Ok(clean(JoinLines(parts)));
    }
  }

  function Reminder(text: string): string {
    "<system-reminder>\n" + text + "\n</system-reminder>"
  }

  // ---------------------------------------------------------------------- the reference

  predicate AllGoodSystem(ms: seq<Entry>) {
    forall i | 0 <= i < |ms| :: IsSystem(ms[i]) ==> GoodSystem(ms[i].content)
  }

  /** The reminder an entry carries: none for other entries and for empty texts. */
  function ReminderOf(clean: Cleaner, e: Entry): seq<string> {
    if IsSystem(e) && SystemText(clean, e.content).Ok? && SystemText(clean, e.content).value != "" then
      [Reminder(SystemText(clean, e.content).value)]
    else []
  }

  /** All reminders, in order. */
  function Reminders(clean: Cleaner, ms: seq<Entry>): seq<string> {
    if ms == [] then [] else Reminders(clean, ms[..|ms| - 1]) + ReminderOf(clean, ms[|ms| - 1])
  }

  predicate HasUser(ms: seq<Entry>) {
    exists i | 0 <= i < |ms| :: IsUser(ms[i])
  }

  /** The reminders before the next user message. */
  function UntilUser(clean: Cleaner, ms: seq<Entry>): seq<string> {
    if ms == [] || IsUser(ms[0]) then [] else ReminderOf(clean, ms[0]) + UntilUser(clean, ms[1..])
  }

  /** A kept message with the reminders it takes in: those without any earlier user message go in
      front of the first one, all others behind the nearest one before them. */
  datatype Slot = Slot(entry: Entry, lead: seq<string>, tail: seq<string>)

  function SlotAt(clean: Cleaner, ms: seq<Entry>, j: nat): Slot
    requires j < |ms|
  {
    if !IsUser(ms[j]) then Slot(ms[j], [], [])
    else Slot(ms[j], if HasUser(ms[..j]) then [] else Reminders(clean, ms[..j]), UntilUser(clean, ms[j + 1..]))
  }

  /** The slots of the entries from `j` on that are not system entries. */
  function SlotsFrom(clean: Cleaner, ms: seq<Entry>, j: nat): seq<Slot>
    requires j <= |ms|
    decreases |ms| - j
  {
    if j == |ms| then []
    else (if IsSystem(ms[j]) then [] else [SlotAt(clean, ms, j)]) + SlotsFrom(clean, ms, j + 1)
  }

  function Slots(clean: Cleaner, ms: seq<Entry>): seq<Slot> {
    SlotsFrom(clean, ms, 0)
  }

  /** The reminders nobody takes in: all of them when there is no user message. */
  function Waiting(clean: Cleaner, ms: seq<Entry>): seq<string> {
    if HasUser(ms) then [] else Reminders(clean, ms)
  }

  // ------------------------------------------------------------------------- rendering

  /** One reminder folded into a content. */
  function FoldText(c: Content, text: string, prepend: bool): Content {
    match c
    case Blocks(blocks) => if prepend then Blocks([Text(Some(text))] + blocks) else Blocks(blocks + [Text(Some(text))])
    case Null => Str(text)
    case Str(s) => Str(if s == "" then text else if prepend then text + "\n" + s else s + "\n" + text)
    case OtherJson(repr, truthy) =>
      Str(if !truthy then text else if prepend then text + "\n" + repr else repr + "\n" + text)
  }

  function FoldTails(c: Content, tails: seq<string>): Content {
    if tails == [] then c else FoldText(FoldTails(c, tails[..|tails| - 1]), tails[|tails| - 1], false)
  }

  function Render(s: Slot): Entry {
    if s.entry.Scalar? then s.entry
    else
      var led := if s.lead == [] then s.entry.content else FoldText(s.entry.content, JoinLines(s.lead), true);
      Dict(s.entry.role, FoldTails(led, s.tail))
  }

  function RenderAll(slots: seq<Slot>): (r: seq<Entry>)
    ensures |r| == |slots|
    ensures forall i | 0 <= i < |slots| :: r[i] == Render(slots[i])
  {
    seq(|slots|, i requires 0 <= i < |slots| => Render(slots[i]))
  }

  function Trailer(waiting: seq<string>): seq<Entry> {
    if waiting == [] then [] else [Dict("user", Str(JoinLines(waiting)))]
  }

  /** The folded list. */
  function Folded(clean: Cleaner, ms: seq<Entry>): Result<seq<Entry>> {
    if !AllGoodSystem(ms) then Err(Malformed)
    else Ok(RenderAll(Slots(clean, ms)) + Trailer(Waiting(clean, ms)))
  }

  // ------------------------------------------------------------------------ properties

  function NonSystem(ms: seq<Entry>): seq<Entry> {
    if ms == [] then [] else (if IsSystem(ms[0]) then [] else [ms[0]]) + NonSystem(ms[1..])
  }

  function Entries(slots: seq<Slot>): (r: seq<Entry>)
    ensures |r| == |slots|
    ensures forall i | 0 <= i < |slots| :: r[i] == slots[i].entry
  {
    seq(|slots|, i requires 0 <= i < |slots| => slots[i].entry)
  }

  /** Every reminder of a list of slots, in the order a reader meets them. */
  function Taken(slots: seq<Slot>): seq<string> {
    if slots == [] then [] else slots[0].lead + slots[0].tail + Taken(slots[1..])
  }

  lemma {:induction false} SlotsKeepEntries(clean: Cleaner, ms: seq<Entry>, j: nat)
    requires j <= |ms|
    ensures Entries(SlotsFrom(clean, ms, j)) == NonSystem(ms[j..])
    decreases |ms| - j
  {
    if j < |ms| {
      SlotsKeepEntries(clean, ms, j + 1);
      assert ms[j..][1..] == ms[j + 1..];
    }
  }

  lemma RemindersSnoc(clean: Cleaner, ms: seq<Entry>, m: Entry)
    ensures Reminders(clean, ms + [m]) == Reminders(clean, ms) + ReminderOf(clean, m)
  {
    hide ReminderOf;
    assert (ms + [m])[..|ms|] == ms;
  }

  lemma {:induction false} RemindersAppend(clean: Cleaner, a: seq<Entry>, b: seq<Entry>)
    ensures Reminders(clean, a + b) == Reminders(clean, a) + Reminders(clean, b)
    decreases |b|, 1
  {
    hide ReminderOf;
    if b == [] {
      assert Reminders(clean, []) == [];
      assert a + b == a;
    } else {
      RemindersAppendOne(clean, a, b);
    }
  }

  lemma {:induction false} RemindersAppendOne(clean: Cleaner, a: seq<Entry>, b: seq<Entry>)
    requires b != []
    ensures Reminders(clean, a + b) == Reminders(clean, a) + Reminders(clean, b)
    decreases |b|, 0
  {
    hide ReminderOf, Reminders;
    var n := |b| - 1;
    RemindersAppend(clean, a, b[..n]);
    RemindersSnoc(clean, a + b[..n], b[n]);
    RemindersSnoc(clean, b[..n], b[n]);
    assert a + b == a + b[..n] + [b[n]] && b == b[..n] + [b[n]];
  }

  lemma RemindersFrom(clean: Cleaner, ms: seq<Entry>, j: nat)
    requires j < |ms|
    ensures Reminders(clean, ms[j..]) == ReminderOf(clean, ms[j]) + Reminders(clean, ms[j + 1..])
  {
    hide ReminderOf;
    assert ms[j..] == [ms[j]] + ms[j + 1..];
    RemindersAppend(clean, [ms[j]], ms[j + 1..]);
    assert [ms[j]][..0] == [] && Reminders(clean, []) == [];
  }

  lemma RemindersSplit(clean: Cleaner, ms: seq<Entry>, j: nat)
    requires j <= |ms|
    ensures Reminders(clean, ms) == Reminders(clean, ms[..j]) + Reminders(clean, ms[j..])
  {
    hide Reminders;
    RemindersAppend(clean, ms[..j], ms[j..]);
    assert ms == ms[..j] + ms[j..];
  }

  lemma HasUserNext(ms: seq<Entry>, j: nat)
    requires j < |ms|
    ensures HasUser(ms[..j + 1]) <==> HasUser(ms[..j]) || IsUser(ms[j])
  {
    if HasUser(ms[..j]) {
      var i :| 0 <= i < j && IsUser(ms[..j][i]);
      assert IsUser(ms[..j + 1][i]);
    }
    if IsUser(ms[j]) {
      assert IsUser(ms[..j + 1][j]);
    }
    if HasUser(ms[..j + 1]) && !IsUser(ms[j]) {
      var i :| 0 <= i < j + 1 && IsUser(ms[..j + 1][i]);
      assert IsUser(ms[..j][i]);
    }
  }

  lemma UntilUserFrom(clean: Cleaner, ms: seq<Entry>, j: nat)
    requires j < |ms|
    ensures UntilUser(clean, ms[j..]) == if IsUser(ms[j]) then [] else ReminderOf(clean, ms[j]) + UntilUser(clean, ms[j + 1..])
  {
    assert ms[j..][1..] == ms[j + 1..];
  }

  lemma TakenCons(clean: Cleaner, ms: seq<Entry>, j: nat)
    requires j < |ms|
    ensures Taken(SlotsFrom(clean, ms, j)) ==
            (if IsSystem(ms[j]) then [] else SlotAt(clean, ms, j).lead + SlotAt(clean, ms, j).tail)
            + Taken(SlotsFrom(clean, ms, j + 1))
  {
    hide SlotAt;
    var slots := SlotsFrom(clean, ms, j + 1);
    assert ([SlotAt(clean, ms, j)] + slots)[1..] == slots;
    assert [] + slots == slots && [] + Taken(slots) == Taken(slots);
  }

  lemma SlotFacts(clean: Cleaner, ms: seq<Entry>, j: nat)
    requires j < |ms|
    ensures !IsSystem(ms[j]) ==> ReminderOf(clean, ms[j]) == []
    ensures !IsUser(ms[j]) ==> SlotAt(clean, ms, j) == Slot(ms[j], [], [])
    ensures IsUser(ms[j]) ==> !IsSystem(ms[j])
    ensures IsUser(ms[j]) && HasUser(ms[..j]) ==>
              SlotAt(clean, ms, j) == Slot(ms[j], [], UntilUser(clean, ms[j + 1..]))
    ensures IsUser(ms[j]) && !HasUser(ms[..j]) ==>
              SlotAt(clean, ms, j) == Slot(ms[j], Reminders(clean, ms[..j]), UntilUser(clean, ms[j + 1..]))
  {
  }

  /** How the pieces of one step fit together. */
  lemma Pieces(own: seq<string>, until: seq<string>, taken: seq<string>)
    ensures [] + (([] + until) + taken) == until + taken
    ensures (own + until) + ([] + taken) == own + (until + taken)
    ensures ([] + until) + (([] + []) + taken) == until + taken
    ensures [] + (until + taken) == until + taken
    ensures (own + until) + taken == own + (until + taken)
  {
  }

  /** From a user message on, the slots take in every later reminder once and in order. */
  lemma {:induction false} TakenAfterUser(clean: Cleaner, ms: seq<Entry>, j: nat)
    requires j <= |ms| && HasUser(ms[..j])
    ensures UntilUser(clean, ms[j..]) + Taken(SlotsFrom(clean, ms, j)) == Reminders(clean, ms[j..])
    decreases |ms| - j
  {
    if j == |ms| {
      assert ms[j..] == [];
    } else {
      hide ReminderOf, SlotAt, UntilUser, Reminders, Taken, SlotsFrom, HasUser, IsUser, IsSystem;
      HasUserNext(ms, j);
      TakenAfterUser(clean, ms, j + 1);
      TakenCons(clean, ms, j);
      UntilUserFrom(clean, ms, j);
      RemindersFrom(clean, ms, j);
      SlotFacts(clean, ms, j);
      Pieces(ReminderOf(clean, ms[j]), UntilUser(clean, ms[j + 1..]), Taken(SlotsFrom(clean, ms, j + 1)));
    }
  }

  /** Up to the first user message nothing is taken in; then everything is. */
  lemma {:induction false} TakenFrom(clean: Cleaner, ms: seq<Entry>, j: nat)
    requires j <= |ms| && !HasUser(ms[..j])
    ensures Taken(SlotsFrom(clean, ms, j)) == if HasUser(ms) then Reminders(clean, ms) else []
    decreases |ms| - j
  {
    if j == |ms| {
      assert ms[..j] == ms;
    } else {
      HasUserNext(ms, j);
      TakenCons(clean, ms, j);
      if IsUser(ms[j]) {
        FirstUserTakes(clean, ms, j);
      } else {
        TakenFrom(clean, ms, j + 1);
        assert SlotAt(clean, ms, j) == Slot(ms[j], [], []);
        hide SlotAt, Taken, SlotsFrom, HasUser, Reminders;
      }
    }
  }

  lemma FirstUserTakes(clean: Cleaner, ms: seq<Entry>, j: nat)
    requires j < |ms| && IsUser(ms[j]) && !HasUser(ms[..j])
    ensures HasUser(ms) && Taken(SlotsFrom(clean, ms, j)) == Reminders(clean, ms)
  {
    assert HasUser(ms);
    hide ReminderOf, SlotAt, UntilUser, Reminders, Taken, SlotsFrom, HasUser, IsUser, IsSystem;
    HasUserNext(ms, j);
    TakenCons(clean, ms, j);
    TakenAfterUser(clean, ms, j + 1);
    RemindersFrom(clean, ms, j);
    RemindersSplit(clean, ms, j);
    SlotFacts(clean, ms, j);
    Pieces(Reminders(clean, ms[..j]), UntilUser(clean, ms[j + 1..]), Taken(SlotsFrom(clean, ms, j + 1)));
  }

  /** Nothing is lost and nothing moves: the folded list keeps every other message in order, each
      as itself or as a user message with reminders around it, and takes in every reminder
      exactly once, in the original order. */
  lemma FoldingKeepsEverything(clean: Cleaner, ms: seq<Entry>)
    ensures Entries(Slots(clean, ms)) == NonSystem(ms)
    ensures Taken(Slots(clean, ms)) + Waiting(clean, ms) == Reminders(clean, ms)
    ensures Waiting(clean, ms) != [] ==> !HasUser(ms)
  {
    SlotsKeepEntries(clean, ms, 0);
    assert ms[0..] == ms && ms[..0] == [];
    TakenFrom(clean, ms, 0);
  }

  lemma {:induction false} SlotsOnlyUsers(clean: Cleaner, ms: seq<Entry>, j: nat)
    requires j <= |ms|
    ensures forall i | 0 <= i < |SlotsFrom(clean, ms, j)| ::
              var s := SlotsFrom(clean, ms, j)[i];
              !IsSystem(s.entry) && (!IsUser(s.entry) ==> s.lead == [] && s.tail == [])
    decreases |ms| - j
  {
    if j < |ms| {
      SlotsOnlyUsers(clean, ms, j + 1);
    }
  }

  /** No system entry is left, messages that are not users are untouched, and users stay users. */
  lemma NoSystemLeft(clean: Cleaner, ms: seq<Entry>)
    requires Folded(clean, ms).Ok?
    ensures var out := Folded(clean, ms).value;
            var kept := NonSystem(ms);
            && (forall i | 0 <= i < |out| :: !IsSystem(out[i]))
            && |kept| <= |out| <= |kept| + 1
            && (forall i | 0 <= i < |kept| ::
                  (IsUser(out[i]) <==> IsUser(kept[i])) && (!IsUser(kept[i]) ==> out[i] == kept[i]))
  {
    var slots := Slots(clean, ms);
    FoldingKeepsEverything(clean, ms);
    SlotsOnlyUsers(clean, ms, 0);
    hide Slots, FoldTails, FoldText;
    forall i | 0 <= i < |slots|
      ensures !IsSystem(Render(slots[i])) && (IsUser(Render(slots[i])) <==> IsUser(slots[i].entry))
      ensures !IsUser(slots[i].entry) ==> Render(slots[i]) == slots[i].entry
    {
      RenderKeeps(slots[i]);
    }
  }

  lemma RenderKeeps(s: Slot)
    ensures IsSystem(Render(s)) <==> IsSystem(s.entry)
    ensures IsUser(Render(s)) <==> IsUser(s.entry)
    ensures s.lead == [] && s.tail == [] ==> Render(s) == s.entry
  {
  }

  function Nonempty(s: string): seq<string> {
    if s == "" then [] else [s]
  }

  /** Lines that read as something, or no lines at all. */
  predicate Visible(lines: seq<string>) {
    lines == [] || JoinLines(lines) != ""
  }

  lemma VisibleMore(lines: seq<string>, last: string)
    requires Visible(lines) && last != ""
    ensures Visible(lines + [last])
    ensures JoinLines(lines + [last]) == if lines == [] then last else JoinLines(lines) + "\n" + last
  {
    if lines == [] {
      assert lines + [last] == [last];
    } else {
      JoinLast(lines, last);
      hide JoinLines;
    }
  }

  /** The last reminder behind a message is folded in last. */
  lemma RenderMore(role: string, c: Content, lead: seq<string>, tail: seq<string>)
    requires tail != []
    ensures var n := |tail| - 1;
            var before := Render(Slot(Dict(role, c), lead, tail[..n]));
            before.Dict? && Render(Slot(Dict(role, c), lead, tail)) == Dict(role, FoldText(before.content, tail[n], false))
  {
    hide FoldText;
  }

  /** What a text message reads like afterwards: the reminders before it, its own text if it has one,
      and the reminders after it, a line each. */
  lemma {:induction false} TextReadsInOrder(text: string, lead: seq<string>, tail: seq<string>)
    requires Visible(lead) && forall i | 0 <= i < |tail| :: tail[i] != ""
    ensures Visible(lead + Nonempty(text) + tail)
    ensures Render(Slot(Dict("user", Str(text)), lead, tail))
            == Dict("user", Str(JoinLines(lead + Nonempty(text) + tail)))
    decreases |tail|
  {
    hide JoinLines, Visible, Render;
    if tail == [] {
      TextReadsLed(text, lead);
      assert lead + Nonempty(text) + [] == lead + Nonempty(text);
    } else {
      var n := |tail| - 1;
      TextReadsInOrder(text, lead, tail[..n]);
      RenderMore("user", Str(text), lead, tail);
      var before := lead + Nonempty(text) + tail[..n];
      VisibleMore(before, tail[n]);
      assert lead + Nonempty(text) + tail == before + [tail[n]];
      VisibleEmpty(before);
    }
  }

  function TextBlocks(texts: seq<string>): (r: seq<Block>)
    ensures |r| == |texts| && forall i | 0 <= i < |texts| :: r[i] == Text(Some(texts[i]))
  {
    seq(|texts|, i requires 0 <= i < |texts| => Text(Some(texts[i])))
  }

  /** What a message of blocks reads like afterwards: one block for the reminders before it, its own
      blocks, and one block for each reminder after it. */
  lemma {:induction false} BlocksReadInOrder(blocks: seq<Block>, lead: seq<string>, tail: seq<string>)
    ensures Render(Slot(Dict("user", Blocks(blocks)), lead, tail))
            == Dict("user", Blocks((if lead == [] then [] else TextBlocks([JoinLines(lead)])) + blocks + TextBlocks(tail)))
    decreases |tail|
  {
    hide JoinLines;
    var led := if lead == [] then [] else TextBlocks([JoinLines(lead)]);
    if tail == [] {
      assert [] + blocks == blocks;
      assert led + blocks + [] == led + blocks;
      assert TextBlocks([JoinLines(lead)]) == [Text(Some(JoinLines(lead)))];
    } else {
      var n := |tail| - 1;
      BlocksReadInOrder(blocks, lead, tail[..n]);
      assert led + blocks + TextBlocks(tail) == led + blocks + TextBlocks(tail[..n]) + [Text(Some(tail[n]))];
    }
  }

  lemma VisibleEmpty(lines: seq<string>)
    requires Visible(lines)
    ensures JoinLines(lines) == "" <==> lines == []
  {
  }

  lemma TextReadsLed(text: string, lead: seq<string>)
    requires Visible(lead)
    ensures Visible(lead + Nonempty(text))
    ensures Render(Slot(Dict("user", Str(text)), lead, [])) == Dict("user", Str(JoinLines(lead + Nonempty(text))))
  {
    VisibleEmpty(lead);
    if text != "" {
      VisibleMore(lead, text);
      hide JoinLines, Visible;
    } else {
      assert lead + [] == lead;
    }
  }

  /** A system text keeps its blocks' texts in order; empty ones add nothing. */
  lemma {:induction false} SystemPartsInOrder(a: seq<Block>, b: seq<Block>, x: Block)
    ensures SystemParts(a + b) == SystemParts(a) + SystemParts(b)
    ensures SystemParts([x]) == if x.Text? && x.text.Some? && x.text.value != "" then [x.text.value] else []
    decreases |b|
  {
    assert [x][..0] == [] && SystemParts([]) == [];
    if b == [] {
      assert a + b == a;
    } else {
      var n := |b| - 1;
      SystemPartsInOrder(a, b[..n], x);
      assert (a + b)[..|a + b| - 1] == a + b[..n];
    }
  }

  /** A reminder is the system text in its own tags. */
  lemma ReminderSays(text: string)
    ensures Reminder(text) == JoinLines(["<system-reminder>", text, "</system-reminder>"])
  {
    var lines := ["<system-reminder>", text, "</system-reminder>"];
    assert "<system-reminder>\n" == "<system-reminder>" + "\n" && "\n</system-reminder>" == "\n" + "</system-reminder>";
    assert JoinLines(["</system-reminder>"]) == "</system-reminder>";
    assert lines[1..] == [text, "</system-reminder>"] && [text, "</system-reminder>"][1..] == ["</system-reminder>"];
  }

  /** A content that is missing or falsy becomes the reminder; any other one that is no text and no list is
      written out beside it. */
  lemma OtherContentReadsInOrder(c: Content, text: string, prepend: bool)
    requires c.Null? || c.OtherJson?
    ensures FoldText(c, text, prepend) ==
            if c.Null? || !c.truthy then Str(text)
            else Str(JoinLines(if prepend then [text, c.repr] else [c.repr, text]))
  {
    if c.OtherJson? {
      assert [text, c.repr][1..] == [c.repr] && [c.repr, text][1..] == [text];
    }
  }

  /** Cleaning applied to nothing: the text of a system content as received. */
  function Uncleaned(c: Content): Result<string> {
    SystemText(s => s, c)
  }

  lemma {:induction false} PartsVisible(blocks: seq<Block>)
    ensures forall i | 0 <= i < |SystemParts(blocks)| :: SystemParts(blocks)[i] != ""
    decreases |blocks|
  {
    if blocks != [] {
      PartsVisible(blocks[..|blocks| - 1]);
    }
  }

  lemma JoinedVisible(lines: seq<string>)
    requires forall i | 0 <= i < |lines| :: lines[i] != ""
    ensures JoinLines(lines) == "" <==> lines == []
  {
  }

  /** A system text is cleaned as a whole. Two lists of blocks say what both say, a line apart unless one says
      nothing; a string says the same as one text block, and a missing content nothing. */
  lemma SystemSays(clean: Cleaner, c: Content, a: seq<Block>, b: seq<Block>, s: string)
    ensures SystemText(clean, c) == if c.Null? || Uncleaned(c).Err? then Uncleaned(c) else Ok(clean(Uncleaned(c).value))
    ensures Uncleaned(Str(s)) == Uncleaned(Blocks([Text(Some(s))])) == Ok(s) && Uncleaned(Null) == Ok("")
    ensures Uncleaned(c).Err? <==> (c.OtherJson? || (c.Blocks? && exists x | x in c.blocks :: !(x.Text? && x.text.Some?)))
    ensures Uncleaned(Blocks(a)).Ok? && Uncleaned(Blocks(b)).Ok? ==>
              var x, y := Uncleaned(Blocks(a)).value, Uncleaned(Blocks(b)).value;
              Uncleaned(Blocks(a + b)) == Ok(if x == "" then y else if y == "" then x else x + "\n" + y)
  {
    OneSystemText(s);
    hide SystemParts, JoinLines;
    if c.Blocks? {
      forall i | 0 <= i < |c.blocks| ensures c.blocks[i] in c.blocks {
      }
    }
    if Uncleaned(Blocks(a)).Ok? && Uncleaned(Blocks(b)).Ok? {
      SystemPartsInOrder(a, b, Text(Some(s)));
      PartsVisible(a);
      PartsVisible(b);
      JoinedVisible(SystemParts(a));
      JoinedVisible(SystemParts(b));
      JoinAppend(SystemParts(a), SystemParts(b));
    }
  }

  lemma OneSystemText(s: string)
    ensures JoinLines(SystemParts([Text(Some(s))])) == s
  {
    var b := Text(Some(s));
    assert [b][..0] == [] && SystemParts([]) == [];
  }

  /** Without a user message nothing takes the reminders in: they follow the others as one user message, a
      line each. */
  lemma {:induction false} WithoutUser(clean: Cleaner, ms: seq<Entry>)
    requires AllGoodSystem(ms) && !HasUser(ms)
    ensures var reminders := Reminders(clean, ms);
            Folded(clean, ms) == Ok(NonSystem(ms) + (if reminders == [] then [] else [Dict("user", Str(JoinLines(reminders)))]))
  {
    hide Reminders, JoinLines, UntilUser;
    SlotsKeepEntries(clean, ms, 0);
    SlotsOnlyUsers(clean, ms, 0);
    assert ms[0..] == ms;
    PlainRendered(clean, ms);
  }

  lemma PlainRendered(clean: Cleaner, ms: seq<Entry>)
    requires !HasUser(ms) && Entries(Slots(clean, ms)) == NonSystem(ms)
    ensures RenderAll(Slots(clean, ms)) == NonSystem(ms)
  {
    hide Reminders, UntilUser;
    SlotsOnlyUsers(clean, ms, 0);
    EntriesFromList(clean, ms, 0);
    forall i | 0 <= i < |Slots(clean, ms)| ensures Render(Slots(clean, ms)[i]) == NonSystem(ms)[i] {
    }
  }

  lemma {:induction false} EntriesFromList(clean: Cleaner, ms: seq<Entry>, j: nat)
    requires j <= |ms| && !HasUser(ms)
    ensures forall i | 0 <= i < |SlotsFrom(clean, ms, j)| :: !IsUser(SlotsFrom(clean, ms, j)[i].entry)
    decreases |ms| - j
  {
    if j < |ms| {
      EntriesFromList(clean, ms, j + 1);
    }
  }
}
