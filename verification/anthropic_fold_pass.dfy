/** The folding pass as it runs: one loop over message objects, edited in place. */
module AnthropicFoldPass {
  import opened TextLines
  import opened Wrappers
  import opened AnthropicContent
  import opened AnthropicMessages
  import opened AnthropicFold

  class MessageObject {
    var role: string
    var content: Content

    constructor (role: string, content: Content)
      ensures View() == Dict(role, content)
    {
      this.role, this.content := role, content;
    }

    ghost function View(): Entry
      reads this
    {
      Dict(role, content)
    }

    /** Fold a reminder into this message's content, in front of it or behind it. */
    method FoldReminder(text: string, prepend: bool)
      modifies this`content
      ensures content == FoldText(old(content), text, prepend)
    {
      match content {
        case Blocks(blocks) =>
          var part := Text(Some(text));
          content := Blocks(if prepend then [part] + blocks else blocks + [part]);
        case Null =>
          content := Str(text);
        case Str(s) =>
          content := Str(if s == "" then text else if prepend then text + "\n" + s else s + "\n" + text);
        case OtherJson(repr, truthy) =>
          content := Str(if !truthy then text else if prepend then text + "\n" + repr else repr + "\n" + text);
      }
    }
  }

  /** An entry of the list: an object, or something that is not one. */
  datatype EntryRef = Object(m: MessageObject) | Bare

  ghost function ViewOf(e: EntryRef): Entry
    reads if e.Object? then {e.m} else {}
  {
    if e.Object? then e.m.View() else Scalar
  }

  ghost function Objects(es: seq<EntryRef>): set<MessageObject> {
    set e | e in es && e.Object? :: e.m
  }

  ghost function Views(es: seq<EntryRef>): (r: seq<Entry>)
    reads Objects(es)
    ensures |r| == |es|
    ensures forall i | 0 <= i < |es| :: r[i] == ViewOf(es[i])
  {
    seq(|es|, i requires 0 <= i < |es| reads Objects(es) => ViewOf(es[i]))
  }

  ghost predicate Distinct(es: seq<EntryRef>) {
    forall i, j | 0 <= i < j < |es| && es[i].Object? && es[j].Object? :: es[i].m != es[j].m
  }

  // ------------------------------------------------------------- slots, one entry at a time

  predicate AnyUser(slots: seq<Slot>) {
    exists i | 0 <= i < |slots| :: IsUser(slots[i].entry)
  }

  /** A reminder behind the last user message, if there is one. */
  function WithTail(slots: seq<Slot>, reminder: seq<string>): (r: seq<Slot>)
    ensures |r| == |slots|
  {
    if slots == [] then []
    else if AnyUser(slots[1..]) then [slots[0]] + WithTail(slots[1..], reminder)
    else if IsUser(slots[0].entry) then [slots[0].(tail := slots[0].tail + reminder)] + slots[1..]
    else slots
  }

  lemma {:induction false} WithTailAt(slots: seq<Slot>, reminder: seq<string>, k: nat)
    requires k < |slots| && IsUser(slots[k].entry)
    requires forall i | k < i < |slots| :: !IsUser(slots[i].entry)
    ensures WithTail(slots, reminder) == slots[k := slots[k].(tail := slots[k].tail + reminder)]
  {
    if k > 0 {
      assert IsUser(slots[1..][k - 1].entry);
      WithTailAt(slots[1..], reminder, k - 1);
    }
  }

  lemma {:induction false} UntilUserSnoc(clean: Cleaner, ms: seq<Entry>, m: Entry)
    ensures UntilUser(clean, ms + [m])
            == UntilUser(clean, ms) + (if HasUser(ms) || IsUser(m) then [] else ReminderOf(clean, m))
  {
    hide ReminderOf;
    if ms == [] {
      assert ms + [m] == [m] && [m][1..] == [];
    } else {
      UntilUserSnoc(clean, ms[1..], m);
      assert (ms + [m])[1..] == ms[1..] + [m];
      HasUserCons(ms);
    }
  }

  lemma HasUserCons(ms: seq<Entry>)
    requires ms != []
    ensures HasUser(ms) <==> IsUser(ms[0]) || HasUser(ms[1..])
  {
    if HasUser(ms) && !IsUser(ms[0]) {
      var i :| 0 <= i < |ms| && IsUser(ms[i]);
      assert IsUser(ms[1..][i - 1]);
    }
    if HasUser(ms[1..]) {
      var i :| 0 <= i < |ms[1..]| && IsUser(ms[1..][i]);
      assert IsUser(ms[i + 1]);
    }
  }

  lemma SlotAtSnoc(clean: Cleaner, ms: seq<Entry>, m: Entry, j: nat)
    requires j < |ms|
    ensures var s := SlotAt(clean, ms, j);
            SlotAt(clean, ms + [m], j)
            == if IsUser(ms[j]) && !HasUser(ms[j + 1..]) && !IsUser(m) then s.(tail := s.tail + ReminderOf(clean, m)) else s
  {
    assert (ms + [m])[j + 1..] == ms[j + 1..] + [m] && (ms + [m])[..j] == ms[..j];
    UntilUserSnoc(clean, ms[j + 1..], m);
    hide ReminderOf, Reminders, UntilUser, HasUser;
  }

  lemma {:induction false} UsersInSlots(clean: Cleaner, ms: seq<Entry>, j: nat)
    requires j <= |ms|
    ensures AnyUser(SlotsFrom(clean, ms, j)) <==> HasUser(ms[j..])
    decreases |ms| - j
  {
    if j < |ms| {
      UsersInSlots(clean, ms, j + 1);
      HasUserCons(ms[j..]);
      assert ms[j..][1..] == ms[j + 1..];
      var rest := SlotsFrom(clean, ms, j + 1);
      if !IsSystem(ms[j]) {
        AnyUserCons(SlotAt(clean, ms, j), rest);
      } else {
        assert [] + rest == rest;
      }
    }
  }

  lemma AnyUserCons(s: Slot, rest: seq<Slot>)
    ensures AnyUser([s] + rest) <==> IsUser(s.entry) || AnyUser(rest)
  {
    if AnyUser(rest) {
      var i :| 0 <= i < |rest| && IsUser(rest[i].entry);
      assert IsUser(([s] + rest)[i + 1].entry);
    }
    if IsUser(s.entry) {
      assert IsUser(([s] + rest)[0].entry);
    }
  }

  /** What one more entry does to the slots from `j` on. */
  function NextSlots(clean: Cleaner, ms: seq<Entry>, slots: seq<Slot>, m: Entry): seq<Slot> {
    if IsSystem(m) then WithTail(slots, ReminderOf(clean, m))
    else slots + [Slot(m, if IsUser(m) then Waiting(clean, ms) else [], [])]
  }

  lemma {:induction false} SlotsSnoc(clean: Cleaner, ms: seq<Entry>, m: Entry, j: nat)
    requires j <= |ms|
    ensures SlotsFrom(clean, ms + [m], j) == NextSlots(clean, ms, SlotsFrom(clean, ms, j), m)
    decreases |ms| - j
  {
    var all := ms + [m];
    if j == |ms| {
      SlotsSnocLast(clean, ms, m);
    } else {
      SlotsSnoc(clean, ms, m, j + 1);
      SlotAtSnoc(clean, ms, m, j);
      UsersInSlots(clean, ms, j + 1);
      var s, rest := SlotAt(clean, ms, j), SlotsFrom(clean, ms, j + 1);
      assert all[j] == ms[j];
      assert s.entry == ms[j];
      assert !IsSystem(m) ==> ReminderOf(clean, m) == [];
      assert s.tail + [] == s.tail;
      hide SlotAt, ReminderOf, Waiting;
      assert SlotsFrom(clean, all, j) == (if IsSystem(ms[j]) then [] else [SlotAt(clean, all, j)]) + SlotsFrom(clean, all, j + 1);
      assert SlotsFrom(clean, ms, j) == (if IsSystem(ms[j]) then [] else [s]) + rest;
      if IsSystem(ms[j]) {
        assert [] + rest == rest && [] + SlotsFrom(clean, all, j + 1) == SlotsFrom(clean, all, j + 1);
      } else {
        NextSlotsCons(clean, ms, s, rest, m);
      }
    }
  }

  lemma SlotsSnocLast(clean: Cleaner, ms: seq<Entry>, m: Entry)
    ensures SlotsFrom(clean, ms + [m], |ms|) == NextSlots(clean, ms, [], m)
  {
    var all := ms + [m];
    assert all[|ms|] == m && all[..|ms|] == ms && all[|ms| + 1..] == [];
    assert SlotsFrom(clean, all, |all|) == [] && UntilUser(clean, []) == [];
    assert WithTail([], ReminderOf(clean, m)) == [];
    SlotFacts(clean, all, |ms|);
    hide SlotAt, UntilUser, Reminders, ReminderOf, HasUser, WithTail;
  }

  lemma NextSlotsCons(clean: Cleaner, ms: seq<Entry>, s: Slot, rest: seq<Slot>, m: Entry)
    ensures var reminder := ReminderOf(clean, m);
            NextSlots(clean, ms, [s] + rest, m)
            == [if IsSystem(m) && IsUser(s.entry) && !AnyUser(rest) then s.(tail := s.tail + reminder) else s]
               + NextSlots(clean, ms, rest, m)
  {
    assert ([s] + rest)[1..] == rest;
    if IsSystem(m) && !AnyUser(rest) {
      WithoutUsers(rest, ReminderOf(clean, m));
    }
  }

  lemma WithoutUsers(slots: seq<Slot>, reminder: seq<string>)
    requires !AnyUser(slots)
    ensures WithTail(slots, reminder) == slots
  {
    if slots != [] {
      assert forall i | 0 <= i < |slots[1..]| :: slots[1..][i] == slots[i + 1];
    }
  }

  lemma WaitingSnoc(clean: Cleaner, ms: seq<Entry>, m: Entry)
    ensures Waiting(clean, ms + [m])
            == if HasUser(ms) || IsUser(m) then [] else Waiting(clean, ms) + ReminderOf(clean, m)
  {
    assert (ms + [m])[..|ms|] == ms && (ms + [m])[|ms|] == m;
    HasUserNext(ms + [m], |ms|);
    assert (ms + [m])[..|ms| + 1] == ms + [m];
    hide HasUser, ReminderOf;
  }

  // --------------------------------------------------------------------------- the pass

  lemma RenderTail(s: Slot, reminder: string)
    requires s.entry.Dict?
    ensures Render(s.(tail := s.tail + [reminder]))
            == Dict(s.entry.role, FoldText(Render(s).content, reminder, false))
  {
    assert (s.tail + [reminder])[..|s.tail|] == s.tail;
    hide FoldText;
  }

  /** The last user message so far. */
  method LastUser(out: seq<EntryRef>) returns (r: Option<nat>)
    ensures r.Some? ==> r.value < |out| && IsUser(ViewOf(out[r.value]))
                        && forall i | r.value < i < |out| :: !IsUser(ViewOf(out[i]))
    ensures r.None? ==> forall i | 0 <= i < |out| :: !IsUser(ViewOf(out[i]))
  {
    var k := |out|;
    while k > 0
      invariant 0 <= k <= |out|
      invariant forall i | k <= i < |out| :: !IsUser(ViewOf(out[i]))
    {
      k := k - 1;
      if out[k].Object? && out[k].m.role == "user" {
        return Some(k);
      }
    }
    return None;
  }

  // ------------------------------------------------------ between two entries, by value

  /** The list built so far is the rendered slots of what was read, and the buffered text
      is the waiting reminders. */
  ghost predicate Core(clean: Cleaner, given: seq<Entry>, i: nat, views: seq<Entry>, pending: string) {
    && i <= |given|
    && views == RenderAll(Slots(clean, given[..i]))
    && pending == JoinLines(Waiting(clean, given[..i])) && Visible(Waiting(clean, given[..i]))
  }

  /** What the next entry does to slots and waiting reminders. */
  lemma NextEntry(clean: Cleaner, given: seq<Entry>, i: nat)
    requires i < |given|
    ensures var before, m := given[..i], given[i];
            && Slots(clean, given[..i + 1]) == NextSlots(clean, before, Slots(clean, before), m)
            && Waiting(clean, given[..i + 1])
               == (if HasUser(before) || IsUser(m) then [] else Waiting(clean, before) + ReminderOf(clean, m))
            && (AnyUser(Slots(clean, before)) <==> HasUser(before))
  {
    assert given[..i + 1] == given[..i] + [given[i]];
    SlotsSnoc(clean, given[..i], given[i], 0);
    WaitingSnoc(clean, given[..i], given[i]);
    UsersInSlots(clean, given[..i], 0);
    assert given[..i][0..] == given[..i];
  }

  lemma UsersSeen(slots: seq<Slot>)
    ensures forall i | 0 <= i < |slots| :: IsUser(RenderAll(slots)[i]) <==> IsUser(slots[i].entry)
  {
    forall i | 0 <= i < |slots| ensures IsUser(Render(slots[i])) <==> IsUser(slots[i].entry) {
      RenderKeeps(slots[i]);
    }
    hide Render;
  }

  lemma CoreFoldBehind(clean: Cleaner, given: seq<Entry>, i: nat, views: seq<Entry>, pending: string, k: nat, reminder: string)
    requires Core(clean, given, i, views, pending) && i < |given|
    requires IsSystem(given[i]) && ReminderOf(clean, given[i]) == [reminder]
    requires k < |views| && IsUser(views[k]) && forall j | k < j < |views| :: !IsUser(views[j])
    ensures Core(clean, given, i + 1, views[k := Dict(views[k].role, FoldText(views[k].content, reminder, false))], pending)
  {
    var slots := Slots(clean, given[..i]);
    NextEntry(clean, given, i);
    UsersSeen(slots);
    WithTailAt(slots, [reminder], k);
    assert AnyUser(slots);
    RenderTail(slots[k], reminder);
    RenderRole(slots[k]);
    WaitingEmpty(clean, given[..i]);
    hide Slots, ReminderOf, Waiting, HasUser, FoldText, Render, JoinLines, Visible, WithTail;
  }

  lemma RenderRole(s: Slot)
    requires s.entry.Dict?
    ensures Render(s).Dict? && Render(s).role == s.entry.role
  {
  }

  lemma WaitingEmpty(clean: Cleaner, ms: seq<Entry>)
    ensures HasUser(ms) ==> Waiting(clean, ms) == []
  {
  }

  lemma CoreBuffer(clean: Cleaner, given: seq<Entry>, i: nat, views: seq<Entry>, pending: string, reminder: string)
    requires Core(clean, given, i, views, pending) && i < |given|
    requires IsSystem(given[i]) && ReminderOf(clean, given[i]) == [reminder] && reminder != ""
    requires forall j | 0 <= j < |views| :: !IsUser(views[j])
    ensures Core(clean, given, i + 1, views, if pending != "" then pending + "\n" + reminder else reminder)
  {
    var slots := Slots(clean, given[..i]);
    NextEntry(clean, given, i);
    UsersSeen(slots);
    WithoutUsers(slots, [reminder]);
    VisibleMore(Waiting(clean, given[..i]), reminder);
    VisibleEmpty(Waiting(clean, given[..i]));
    hide Slots, ReminderOf, Waiting, HasUser, RenderAll, JoinLines, Visible, WithTail;
  }

  lemma CoreSkip(clean: Cleaner, given: seq<Entry>, i: nat, views: seq<Entry>, pending: string)
    requires Core(clean, given, i, views, pending) && i < |given|
    requires IsSystem(given[i]) && ReminderOf(clean, given[i]) == []
    ensures Core(clean, given, i + 1, views, pending)
  {
    NextEntry(clean, given, i);
    WaitingEmpty(clean, given[..i]);
    TailOfNothing(Slots(clean, given[..i]));
    assert Waiting(clean, given[..i]) + [] == Waiting(clean, given[..i]);
    hide Slots, ReminderOf, Waiting, HasUser, RenderAll, JoinLines, Visible, WithTail;
  }

  lemma {:induction false} TailOfNothing(slots: seq<Slot>)
    ensures WithTail(slots, []) == slots
  {
    if slots != [] {
      TailOfNothing(slots[1..]);
      assert slots[0].tail + [] == slots[0].tail;
    }
  }

  lemma CoreKeep(clean: Cleaner, given: seq<Entry>, i: nat, views: seq<Entry>, pending: string)
    requires Core(clean, given, i, views, pending) && i < |given| && !IsSystem(given[i])
    ensures var m := given[i];
            var kept := if IsUser(m) && pending != "" then Dict(m.role, FoldText(m.content, pending, true)) else m;
            Core(clean, given, i + 1, views + [kept], if IsUser(m) then "" else pending)
  {
    var m, waiting := given[i], Waiting(clean, given[..i]);
    NextEntry(clean, given, i);
    WaitingEmpty(clean, given[..i]);
    VisibleEmpty(waiting);
    assert ReminderOf(clean, m) == [] && waiting + [] == waiting;
    assert JoinLines([]) == "" && Visible([]);
    RenderNew(m, if IsUser(m) then waiting else []);
    hide Slots, ReminderOf, Waiting, HasUser, FoldText, Render, JoinLines, Visible;
  }

  lemma RenderNew(m: Entry, lead: seq<string>)
    requires lead != [] ==> m.Dict?
    ensures Render(Slot(m, lead, []))
            == if lead == [] then m else Dict(m.role, FoldText(m.content, JoinLines(lead), true))
  {
  }

  lemma CoreEnd(clean: Cleaner, given: seq<Entry>, views: seq<Entry>, pending: string)
    requires Core(clean, given, |given|, views, pending) && AllGoodSystem(given)
    ensures Folded(clean, given) == Ok(views + (if pending == "" then [] else [Dict("user", Str(pending))]))
  {
    assert given[..|given|] == given;
    VisibleEmpty(Waiting(clean, given));
    hide Slots, Waiting, RenderAll, JoinLines, Visible, AllGoodSystem;
  }

  lemma CoreStart(clean: Cleaner, given: seq<Entry>)
    ensures Core(clean, given, 0, [], "")
  {
    assert given[..0] == [];
  }

  // ------------------------------------------------------------------ and by reference

  /** The list built so far holds entries already read, and those not read are as they came. */
  ghost predicate Layout(ms: seq<EntryRef>, given: seq<Entry>, i: nat, out: seq<EntryRef>)
    reads Objects(ms)
  {
    && i <= |ms| == |given|
    && Distinct(out) && (forall k | 0 <= k < |out| :: out[k] in ms[..i])
    && (forall k | i <= k < |ms| :: ViewOf(ms[k]) == given[k])
  }

  /** A system entry with a reminder: behind the last user message, or to the buffer. */
  method TakeReminder(clean: Cleaner, ms: seq<EntryRef>, ghost given: seq<Entry>, i: nat, out: seq<EntryRef>,
                      pending: string, reminder: string) returns (buffer: string)
    requires Distinct(ms) && i < |ms| && Layout(ms, given, i, out) && Core(clean, given, i, Views(out), pending)
    requires IsSystem(given[i]) && ReminderOf(clean, given[i]) == [reminder] && reminder != ""
    modifies Objects(out)
    ensures Layout(ms, given, i + 1, out) && Core(clean, given, i + 1, Views(out), buffer)
  {
    hide Core, ReminderOf, FoldText;
    buffer := pending;
    var user := LastUser(out);
    if user.Some? {
      var k := user.value;
      CoreFoldBehind(clean, given, i, Views(out), pending, k, reminder);
      out[k].m.FoldReminder(reminder, false);
      assert Views(out) == old(Views(out))[k := ViewOf(out[k])];
    } else {
      CoreBuffer(clean, given, i, Views(out), pending, reminder);
      buffer := if pending != "" then pending + "\n" + reminder else reminder;
    }
  }

  /** Any other entry is kept; the first user message takes in what was buffered. */
  method KeepEntry(clean: Cleaner, ms: seq<EntryRef>, ghost given: seq<Entry>, i: nat, out: seq<EntryRef>, pending: string)
    returns (kept: seq<EntryRef>, buffer: string)
    requires Distinct(ms) && i < |ms| && Layout(ms, given, i, out) && Core(clean, given, i, Views(out), pending)
    requires !IsSystem(given[i])
    modifies if ms[i].Object? then {ms[i].m} else {}
    ensures kept == out + [ms[i]]
    ensures Layout(ms, given, i + 1, kept) && Core(clean, given, i + 1, Views(kept), buffer)
  {
    hide Core, FoldText;
    CoreKeep(clean, given, i, Views(out), pending);
    ghost var views := Views(out);
    var e := ms[i];
    KeptApart(ms, i, out);
    buffer := pending;
    if e.Object? && e.m.role == "user" {
      if pending != "" {
        e.m.FoldReminder(pending, true);
      }
      buffer := "";
    }
    kept := out + [e];
    assert Views(out) == views;
    assert Views(kept) == views + [ViewOf(e)];
  }

  lemma KeptApart(ms: seq<EntryRef>, i: nat, out: seq<EntryRef>)
    requires Distinct(ms) && i < |ms| && forall k | 0 <= k < |out| :: out[k] in ms[..i]
    ensures ms[i].Object? ==> ms[i].m !in Objects(out)
    ensures Distinct(out) ==> Distinct(out + [ms[i]])
  {
    forall k | 0 <= k < |out| && out[k].Object? && ms[i].Object? ensures out[k].m != ms[i].m {
      var j :| 0 <= j < i && ms[..i][j] == out[k];
      assert ms[j] == out[k];
    }
  }

  method AnySystem(ms: seq<EntryRef>) returns (r: bool)
    ensures r <==> exists i | 0 <= i < |ms| :: IsSystem(ViewOf(ms[i]))
  {
    for i := 0 to |ms|
      invariant forall k | 0 <= k < i :: !IsSystem(ViewOf(ms[k]))
    {
      if ms[i].Object? && ms[i].m.role == "system" {
        return true;
      }
    }
    return false;
  }

  /** Without system entries the list is returned as it is. */
  lemma NothingToFold(clean: Cleaner, ms: seq<Entry>)
    requires forall i | 0 <= i < |ms| :: !IsSystem(ms[i])
    ensures Folded(clean, ms) == Ok(ms)
  {
    NoReminders(clean, ms);
    PlainSlots(clean, ms, 0);
    assert RenderAll(Slots(clean, ms)) == ms && Waiting(clean, ms) == [];
    hide Slots, SlotsFrom, Waiting;
    assert ms + [] == ms;
  }

  lemma {:induction false} NoReminders(clean: Cleaner, ms: seq<Entry>)
    requires forall i | 0 <= i < |ms| :: !IsSystem(ms[i])
    ensures Reminders(clean, ms) == [] && UntilUser(clean, ms) == []
    decreases |ms|
  {
    if ms != [] {
      NoReminders(clean, ms[..|ms| - 1]);
      NoReminders(clean, ms[1..]);
    }
  }

  lemma PlainSlot(clean: Cleaner, ms: seq<Entry>, j: nat)
    requires j < |ms| && forall i | 0 <= i < |ms| :: !IsSystem(ms[i])
    ensures SlotAt(clean, ms, j) == Slot(ms[j], [], []) && Render(SlotAt(clean, ms, j)) == ms[j]
  {
    NoReminders(clean, ms[..j]);
    NoReminders(clean, ms[j + 1..]);
    RenderKeeps(SlotAt(clean, ms, j));
    hide UntilUser, Reminders, HasUser, Render;
  }

  lemma {:induction false} PlainSlots(clean: Cleaner, ms: seq<Entry>, j: nat)
    requires j <= |ms| && forall i | 0 <= i < |ms| :: !IsSystem(ms[i])
    ensures RenderAll(SlotsFrom(clean, ms, j)) == ms[j..]
    decreases |ms| - j
  {
    hide SlotAt, Render;
    if j < |ms| {
      PlainSlots(clean, ms, j + 1);
      PlainSlot(clean, ms, j);
      assert SlotsFrom(clean, ms, j) == [SlotAt(clean, ms, j)] + SlotsFrom(clean, ms, j + 1);
      RenderCons(SlotAt(clean, ms, j), SlotsFrom(clean, ms, j + 1));
      hide SlotsFrom, RenderAll;
      assert ms[j..] == [ms[j]] + ms[j + 1..];
    }
  }

  lemma RenderCons(s: Slot, rest: seq<Slot>)
    ensures RenderAll([s] + rest) == [Render(s)] + RenderAll(rest)
  {
    hide Render;
  }

  lemma LayoutStart(ms: seq<EntryRef>)
    ensures Layout(ms, Views(ms), 0, [])
  {
  }

  lemma LayoutHere(ms: seq<EntryRef>, given: seq<Entry>, i: nat, out: seq<EntryRef>)
    requires Layout(ms, given, i, out) && i < |ms|
    ensures |given| == |ms| && given[i] == ViewOf(ms[i])
    ensures Layout(ms, given, i + 1, out)
    ensures Objects(out) <= Objects(ms)
  {
  }

  /** What a system entry's text says about its reminder. */
  lemma SystemReminder(clean: Cleaner, e: Entry)
    requires IsSystem(e)
    ensures SystemText(clean, e.content).Err? <==> !GoodSystem(e.content)
    ensures SystemText(clean, e.content).Err? ==> SystemText(clean, e.content).error == Malformed
    ensures SystemText(clean, e.content).Ok? ==>
              var text := SystemText(clean, e.content).value;
              ReminderOf(clean, e) == (if text == "" then [] else [Reminder(text)]) && Reminder(text) != ""
  {
    if SystemText(clean, e.content).Ok? {
      assert |Reminder(SystemText(clean, e.content).value)| >= 17;
    }
  }

  lemma BadSystemFails(clean: Cleaner, ms: seq<Entry>, i: nat)
    requires i < |ms| && IsSystem(ms[i]) && !GoodSystem(ms[i].content)
    ensures Folded(clean, ms) == Err(Malformed)
  {
  }

  /** The whole pass over the list. */
  method FoldMidListSystemIntoUser(clean: Cleaner, ms: seq<EntryRef>) returns (r: Result<seq<EntryRef>>)
    requires Distinct(ms)
    modifies Objects(ms)
    ensures match Folded(clean, old(Views(ms)))
            case Err(e) => r == Err(e)
            case Ok(v) => r.Ok? && Views(r.value) == v
  {
    ghost var given := Views(ms);
    var any := AnySystem(ms);
    if !any {
      NothingToFold(clean, given);
      return Ok(ms);
    }
    hide Core, Layout, Folded, SystemText;
    var looped, pending := FoldLoop(clean, ms, given);
    if looped.Err? {
      return Err(looped.error);
    }
    var out := looped.value;
    if pending == "" {
      assert Views(out) + [] == Views(out);
      return Ok(out);
    }
    var last := new MessageObject("user", Str(pending));
    ghost var views := Views(out);
    assert Views(out + [Object(last)]) == views + [Dict("user", Str(pending))];
    return Ok(out + [Object(last)]);
  }

  method FoldLoop(clean: Cleaner, ms: seq<EntryRef>, ghost given: seq<Entry>)
    returns (r: Result<seq<EntryRef>>, pending: string)
    requires Distinct(ms) && given == Views(ms)
    modifies Objects(ms)
    ensures match Folded(clean, given)
            case Err(e) => r == Err(e)
            case Ok(v) => r.Ok? && v == Views(r.value) + (if pending == "" then [] else [Dict("user", Str(pending))])
  {
    hide Core, Layout, Folded, SystemText;
    var out: seq<EntryRef> := [];
    pending := "";
    CoreStart(clean, given);
    LayoutStart(ms);
    assert Views([]) == [];
    for i := 0 to |ms|
      invariant Layout(ms, given, i, out) && Core(clean, given, i, Views(out), pending)
      invariant forall k | 0 <= k < i :: IsSystem(given[k]) ==> GoodSystem(given[k].content)
    {
      LayoutHere(ms, given, i, out);
      if ms[i].Object? && ms[i].m.role == "system" {
        SystemReminder(clean, given[i]);
        var ok;
        ok, pending := ReadSystem(clean, ms, given, i, out, pending);
        if !ok {
          BadSystemFails(clean, given, i);
          return Err(Malformed), pending;
        }
      } else {
        out, pending := KeepEntry(clean, ms, given, i, out, pending);
      }
    }
    CoreEnd(clean, given, Views(out), pending);
    return Ok(out), pending;
  }

  /** One system entry: rejected, without a text, or a reminder to place. */
  method ReadSystem(clean: Cleaner, ms: seq<EntryRef>, ghost given: seq<Entry>, i: nat, out: seq<EntryRef>, pending: string)
    returns (ok: bool, buffer: string)
    requires Distinct(ms) && i < |ms| && Layout(ms, given, i, out) && Core(clean, given, i, Views(out), pending)
    requires IsSystem(given[i]) && ms[i].Object?
    modifies Objects(out)
    ensures ok <==> GoodSystem(given[i].content)
    ensures ok ==> Layout(ms, given, i + 1, out) && Core(clean, given, i + 1, Views(out), buffer)
  {
    LayoutHere(ms, given, i, out);
    SystemReminder(clean, given[i]);
    hide Core, SystemText, GoodSystem, ReminderOf, Reminder;
    ghost var views := Views(out);
    var text := SystemToText(clean, ms[i].m.content);
    if text.Err? {
      return false, pending;
    }
    assert Views(out) == views;
    if text.value == "" {
      CoreSkip(clean, given, i, Views(out), pending);
      return true, pending;
    }
    buffer := TakeReminder(clean, ms, given, i, out, pending, Reminder(text.value));
    ok := true;
  }
}
