/** Lowering whole user and assistant messages, and the list of them. */
module AnthropicMessages {
  import opened TextLines
  import opened Wrappers
  import opened AnthropicContent

  // ------------------------------------------------------------------------ user messages

  /** A user message's blocks, neighbouring text and images together. */
  datatype Group = Said(parts: seq<Part>) | Answer(id: string, content: Content)

  predicate GoodInUser(b: Block) {
    || (b.Text? && b.text.Some?)
    || (b.Image? && b.url.Ok?)
    || (b.ToolResult? && b.id.Some? && b.id.value != "" && ResultMessages(b.id.value, b.content).Ok?)
  }

  function PartIn(b: Block): Part
    requires GoodInUser(b) && !b.ToolResult?
  {
    if b.Text? then TextPart(b.text.value) else ImagePart(b.url.value)
  }

  function PushBlock(groups: seq<Group>, b: Block): seq<Group>
    requires GoodInUser(b)
  {
    var n := |groups| - 1;
    if b.ToolResult? then groups + [Answer(b.id.value, b.content)]
    else if groups != [] && groups[n].Said? then groups[..n] + [Said(groups[n].parts + [PartIn(b)])]
    else groups + [Said([PartIn(b)])]
  }

  predicate AllGoodInUser(blocks: seq<Block>) {
    forall i | 0 <= i < |blocks| :: GoodInUser(blocks[i])
  }

  function Groups(blocks: seq<Block>): seq<Group>
    requires AllGoodInUser(blocks)
  {
    if blocks == [] then [] else PushBlock(Groups(blocks[..|blocks| - 1]), blocks[|blocks| - 1])
  }

  /** Texts alone become one string; with an image among them the parts are kept. */
  function Collapse(parts: seq<Part>): UserContent {
    if exists i | 0 <= i < |parts| :: parts[i].ImagePart? then AnthropicContent.Parts(parts)
    else Plain(JoinLines(PartTexts(parts)))
  }

  function PartTexts(parts: seq<Part>): seq<string> {
    if parts == [] then []
    else (if parts[0].TextPart? then [parts[0].text] else []) + PartTexts(parts[1..])
  }

  function LowerGroup(g: Group): seq<Lowered> {
    match g
    case Said(parts) => [User(Collapse(parts))]
    case Answer(id, content) => if ResultMessages(id, content).Ok? then ResultMessages(id, content).value else []
  }

  function LowerGroups(groups: seq<Group>): seq<Lowered> {
    if groups == [] then [] else LowerGroups(groups[..|groups| - 1]) + LowerGroup(groups[|groups| - 1])
  }

  /** What a user message becomes: one user message per run of texts and images, and the answers
      to tool calls between them where they stood. */
  function UserMessages(content: Content): Result<seq<Lowered>> {
    match content
    case Str(s) => Ok([User(Plain(s))])
    case Blocks(blocks) => if AllGoodInUser(blocks) then Ok(LowerGroups(Groups(blocks))) else Err(Malformed)
    case _ => Err(Malformed)
  }

  /** The blocks a list of groups was made from. */
  function Ungroup(groups: seq<Group>): seq<Block> {
    if groups == [] then [] else Ungroup(groups[..|groups| - 1]) + GroupBlocks(groups[|groups| - 1])
  }

  function GroupBlocks(g: Group): seq<Block> {
    match g
    case Said(parts) => PartBlocks(parts)
    case Answer(id, content) => [ToolResult(Some(id), content)]
  }

  function PartBlock(p: Part): Block {
    if p.TextPart? then Text(Some(p.text)) else Image(Ok(p.url))
  }

  function PartBlocks(parts: seq<Part>): seq<Block> {
    if parts == [] then [] else PartBlocks(parts[..|parts| - 1]) + [PartBlock(parts[|parts| - 1])]
  }

  /** No text or image starts a new run right after another one. */
  predicate Coarse(groups: seq<Group>) {
    forall i | 0 < i < |groups| :: groups[i - 1].Answer? || groups[i].Answer?
  }

  /** Grouping loses nothing: the groups give back the blocks, in order, and texts and images are
      split only where a tool result stood between them. */
  lemma {:induction false} GroupingIsReversible(blocks: seq<Block>)
    requires AllGoodInUser(blocks)
    ensures Ungroup(Groups(blocks)) == blocks && Coarse(Groups(blocks))
    decreases |blocks|
  {
    hide Ungroup, PushBlock, Coarse, GoodInUser;
    if blocks == [] {
      NothingGrouped();
    } else {
      var n := |blocks| - 1;
      assert forall i | 0 <= i < n :: GoodInUser(blocks[i]);
      GroupingIsReversible(blocks[..n]);
      UngroupPush(Groups(blocks[..n]), blocks[n]);
      CoarsePush(Groups(blocks[..n]), blocks[n]);
      assert blocks == blocks[..n] + [blocks[n]];
    }
  }

  lemma NothingGrouped()
    ensures Ungroup([]) == [] && Coarse([])
  {
  }

  lemma CoarsePush(groups: seq<Group>, b: Block)
    requires GoodInUser(b) && Coarse(groups)
    ensures Coarse(PushBlock(groups, b))
  {
    hide GoodInUser;
  }

  lemma UngroupSnoc(groups: seq<Group>, g: Group)
    ensures Ungroup(groups + [g]) == Ungroup(groups) + GroupBlocks(g)
  {
    hide GroupBlocks;
    assert (groups + [g])[..|groups|] == groups;
  }

  lemma MoreParts(parts: seq<Part>, p: Part)
    ensures GroupBlocks(Said(parts + [p])) == GroupBlocks(Said(parts)) + [PartBlock(p)]
    ensures GroupBlocks(Said([p])) == [PartBlock(p)]
  {
    hide PartBlock;
    assert (parts + [p])[..|parts|] == parts;
    assert PartBlocks([p]) == PartBlocks([p][..0]) + [PartBlock(p)];
    assert [p][..0] == [] && PartBlocks([]) == [];
    assert [] + [PartBlock(p)] == [PartBlock(p)];
  }

  lemma PartBlockBack(b: Block)
    requires GoodInUser(b)
    ensures b.ToolResult? ==> GroupBlocks(Answer(b.id.value, b.content)) == [b]
    ensures !b.ToolResult? ==> PartBlock(PartIn(b)) == b
  {
    hide ResultMessages;
  }

  lemma UngroupPush(groups: seq<Group>, b: Block)
    requires GoodInUser(b)
    ensures Ungroup(PushBlock(groups, b)) == Ungroup(groups) + [b]
  {
    PartBlockBack(b);
    hide GoodInUser, Ungroup, GroupBlocks, PartIn, PartBlock;
    var n := |groups| - 1;
    if b.ToolResult? {
      UngroupSnoc(groups, Answer(b.id.value, b.content));
    } else if groups != [] && groups[n].Said? {
      UngroupSnoc(groups[..n], groups[n]);
      assert groups == groups[..n] + [groups[n]];
      MoreParts(groups[n].parts, PartIn(b));
      UngroupSnoc(groups[..n], Said(groups[n].parts + [PartIn(b)]));
    } else {
      MoreParts([], PartIn(b));
      UngroupSnoc(groups, Said([PartIn(b)]));
    }
  }

  /** The flushed groups are lowered; the buffered parts are the last group. */
  ghost predicate Flushed(groups: seq<Group>, parts: seq<Part>, messages: seq<Lowered>) {
    var n := |groups| - 1;
    if parts == [] then messages == LowerGroups(groups) && (groups == [] || groups[n].Answer?)
    else groups != [] && groups[n] == Said(parts) && messages == LowerGroups(groups[..n])
  }

  lemma FlushedMore(groups: seq<Group>, parts: seq<Part>, messages: seq<Lowered>, b: Block)
    requires Flushed(groups, parts, messages) && GoodInUser(b) && !b.ToolResult?
    ensures Flushed(PushBlock(groups, b), parts + [PartIn(b)], messages)
  {
    hide LowerGroups;
    var n := |groups| - 1;
    var pushed := PushBlock(groups, b);
    assert pushed[..|pushed| - 1] == if parts == [] then groups else groups[..n];
  }

  lemma FlushedAnswer(groups: seq<Group>, parts: seq<Part>, messages: seq<Lowered>, b: Block)
    requires Flushed(groups, parts, messages) && GoodInUser(b) && b.ToolResult?
    ensures var said := if parts == [] then messages else messages + [User(Collapse(parts))];
            Flushed(PushBlock(groups, b), [], said + ResultMessages(b.id.value, b.content).value)
  {
    hide Collapse, ResultMessages;
    var n := |groups| - 1;
    var pushed := PushBlock(groups, b);
    assert pushed[..|pushed| - 1] == groups;
    assert LowerGroups(pushed) == LowerGroups(groups) + ResultMessages(b.id.value, b.content).value;
    if parts != [] {
      assert LowerGroups(groups) == messages + [User(Collapse(parts))];
    }
  }

  method UserMessagesFromContent(content: Content) returns (r: Result<seq<Lowered>>)
    ensures r == UserMessages(content)
  {
    if content.Str? {
      return Ok([User(Plain(content.s))]);
    }
    if !content.Blocks? {
      return Err(Malformed);
    }
    r := UserBlocks(content.blocks);
  }

  /** The loop over the blocks of one user message. */
  method UserBlocks(blocks: seq<Block>) returns (r: Result<seq<Lowered>>)
    ensures r == if AllGoodInUser(blocks) then Ok(LowerGroups(Groups(blocks))) else Err(Malformed)
  {
    hide PushBlock, LowerGroups, Collapse, ResultMessages, Flushed;
    var messages: seq<Lowered>, parts: seq<Part> := [], [];
    StartFlushed();
    for i := 0 to |blocks|
      invariant forall k | 0 <= k < i :: GoodInUser(blocks[k])
      invariant Flushed(Groups(blocks[..i]), parts, messages)
    {
      var b := blocks[i];
      GroupsNext(blocks, i);
      ghost var groups := Groups(blocks[..i]);
      hide Groups;
      if (b.Text? && b.text.Some?) || (b.Image? && b.url.Ok?) {
        FlushedMore(groups, parts, messages, b);
        parts := parts + [if b.Text? then TextPart(b.text.value) else ImagePart(b.url.value)];
      } else if b.ToolResult? && b.id.Some? && b.id.value != "" {
        var answers := ToolResultMessages(b.id.value, b.content);
        if answers.Err? {
          ResultErrors(b.id.value, b.content);
          return Err(answers.error);
        }
        FlushedAnswer(groups, parts, messages, b);
        if parts != [] {
          messages := messages + [User(Collapse(parts))];
          parts := [];
        }
        messages := messages + answers.value;
      } else {
        return Err(Malformed);
      }
    }
    assert blocks[..|blocks|] == blocks;
    EndFlushed(Groups(blocks), parts, messages);
    if parts != [] {
      messages := messages + [User(Collapse(parts))];
    }
    return Ok(messages);
  }

  lemma GroupsNext(blocks: seq<Block>, i: nat)
    requires i < |blocks| && forall k | 0 <= k < i :: GoodInUser(blocks[k])
    ensures GoodInUser(blocks[i]) ==> Groups(blocks[..i + 1]) == PushBlock(Groups(blocks[..i]), blocks[i])
    ensures !GoodInUser(blocks[i]) ==> !AllGoodInUser(blocks)
  {
    hide PushBlock;
    assert blocks[..i + 1][..i] == blocks[..i];
  }

  lemma StartFlushed()
    ensures Flushed([], [], [])
  {
  }

  lemma EndFlushed(groups: seq<Group>, parts: seq<Part>, messages: seq<Lowered>)
    requires Flushed(groups, parts, messages)
    ensures (if parts == [] then messages else messages + [User(Collapse(parts))]) == LowerGroups(groups)
  {
    hide Collapse;
  }

  lemma ResultErrors(id: string, content: Content)
    ensures ResultMessages(id, content).Err? ==> ResultMessages(id, content) == Err(Malformed)
  {
  }

  // ------------------------------------------------------------------- assistant messages

  predicate GoodInAssistant(b: Block) {
    match b
    case Text(t) => t.Some?
    case ToolUse(id, name, input) => id.Some? && id.value != "" && name.Some? && input.Some?
    case Thinking => true
    case _ => false
  }

  function TextsIn(blocks: seq<Block>): seq<string> {
    if blocks == [] then []
    else
      var b := blocks[|blocks| - 1];
      TextsIn(blocks[..|blocks| - 1]) + (if b.Text? && b.text.Some? then [b.text.value] else [])
  }

  function CallsIn(blocks: seq<Block>): seq<ToolCall> {
    if blocks == [] then []
    else
      var b := blocks[|blocks| - 1];
      CallsIn(blocks[..|blocks| - 1])
      + (if b.ToolUse? && GoodInAssistant(b) then [ToolCall(b.id.value, b.name.value, b.input.value)] else [])
  }

  /** Texts joined, tool calls in order, thinking dropped. */
  function AssistantMessage(content: Content): Result<Lowered> {
    match content
    case Str(s) => Ok(Assistant(s, []))
    case Blocks(blocks) =>
      if forall i | 0 <= i < |blocks| :: GoodInAssistant(blocks[i]) then Ok(Assistant(JoinLines(TextsIn(blocks)), CallsIn(blocks)))
      else Err(Malformed)
    case _ => Err(Malformed)
  }

  method AssistantMessageFromContent(content: Content) returns (r: Result<Lowered>)
    ensures r == AssistantMessage(content)
  {
    if content.Str? {
      return Ok(Assistant(content.s, []));
    }
    if !content.Blocks? {
      return Err(Malformed);
    }
    var blocks := content.blocks;
    var texts: seq<string>, calls: seq<ToolCall> := [], [];
    for i := 0 to |blocks|
      invariant forall k | 0 <= k < i :: GoodInAssistant(blocks[k])
      invariant texts == TextsIn(blocks[..i]) && calls == CallsIn(blocks[..i])
    {
      var b := blocks[i];
      assert blocks[..i + 1][..i] == blocks[..i];
      if b.Text? && b.text.Some? {
        texts := texts + [b.text.value];
      } else if b.ToolUse? && b.id.Some? && b.id.value != "" && b.name.Some? && b.input.Some? {
        calls := calls + [ToolCall(b.id.value, b.name.value, b.input.value)];
      } else if !b.Thinking? {
        assert !GoodInAssistant(blocks[i]);
        return Err(Malformed);
      }
    }
    assert blocks[..|blocks|] == blocks;
    return Ok(Assistant(JoinLines(texts), calls));
  }

  // ------------------------------------------------------------------------- the whole list

  datatype Entry = Dict(role: string, content: Content) | Scalar

  function EntryMessages(e: Entry): Result<seq<Lowered>> {
    if e.Dict? && e.role == "user" then UserMessages(e.content)
    else if e.Dict? && e.role == "assistant" then
      var m :- AssistantMessage(e.content);
      Ok([m])
    else Err(Malformed)
  }

  function AllMessages(entries: seq<Entry>): Result<seq<Lowered>> {
    if entries == [] then Ok([])
    else
      var before :- AllMessages(entries[..|entries| - 1]);
      var last :- EntryMessages(entries[|entries| - 1]);
      Ok(before + last)
  }

  lemma {:induction false} AllMessagesFail(entries: seq<Entry>, i: nat)
    requires i < |entries| && EntryMessages(entries[i]).Err?
    ensures AllMessages(entries) == Err(Malformed)
    decreases |entries|
  {
    hide UserMessages, AssistantMessage;
    EntryErrors(entries[|entries| - 1]);
    if i < |entries| - 1 {
      AllMessagesFail(entries[..|entries| - 1], i);
    } else if AllMessages(entries[..i]).Err? {
      AllErrors(entries[..i]);
    }
  }

  lemma EntryErrors(e: Entry)
    ensures EntryMessages(e).Err? ==> EntryMessages(e) == Err(Malformed)
  {
  }

  lemma {:induction false} AllErrors(entries: seq<Entry>)
    ensures AllMessages(entries).Err? ==> AllMessages(entries) == Err(Malformed)
    decreases |entries|
  {
    hide UserMessages, AssistantMessage;
    if entries != [] {
      AllErrors(entries[..|entries| - 1]);
      EntryErrors(entries[|entries| - 1]);
    }
  }

  method MessagesToInternal(entries: seq<Entry>) returns (r: Result<seq<Lowered>>)
    ensures r == if entries == [] then Err(Malformed) else AllMessages(entries)
  {
    if entries == [] {
      return Err(Malformed);
    }
    hide UserMessages, AssistantMessage;
    var result: seq<Lowered> := [];
    for i := 0 to |entries|
      invariant AllMessages(entries[..i]) == Ok(result)
    {
      var e := entries[i];
      assert entries[..i + 1][..i] == entries[..i];
      EntryErrors(e);
      if e.Dict? && e.role == "user" {
        var lowered := UserMessagesFromContent(e.content);
        if lowered.Err? {
          AllMessagesFail(entries, i);
          return Err(lowered.error);
        }
        result := result + lowered.value;
      } else if e.Dict? && e.role == "assistant" {
        var lowered := AssistantMessageFromContent(e.content);
        if lowered.Err? {
          AllMessagesFail(entries, i);
          return Err(lowered.error);
        }
        result := result + [lowered.value];
      } else {
        AllMessagesFail(entries, i);
        return Err(Malformed);
      }
    }
    assert entries[..|entries|] == entries;
    return Ok(result);
  }

  // -------------------------------------------------------------------------- in order

  lemma {:induction false} GroupsInOrder(a: seq<Group>, b: seq<Group>)
    ensures LowerGroups(a + b) == LowerGroups(a) + LowerGroups(b)
    decreases |b|
  {
    hide LowerGroup;
    if b == [] {
      assert LowerGroups([]) == [];
      assert a + b == a;
    } else {
      var n := |b| - 1;
      GroupsInOrder(a, b[..n]);
      assert (a + b)[..|a + b| - 1] == a + b[..n];
    }
  }

  lemma OneGroup(g: Group)
    ensures LowerGroups([g]) == LowerGroup(g)
  {
    hide LowerGroup;
    assert [g][..0] == [] && LowerGroups([]) == [] && [] + LowerGroup(g) == LowerGroup(g);
  }

  /** Lowered groups come one after the other: a run of texts and images is one user message, a tool result
      gives its own messages. */
  lemma UserMessagesInOrder(a: seq<Group>, b: seq<Group>, parts: seq<Part>, id: string, content: Content)
    ensures LowerGroups(a + b) == LowerGroups(a) + LowerGroups(b)
    ensures LowerGroups([Said(parts)]) == [User(Collapse(parts))]
    ensures ResultMessages(id, content).Ok? ==> LowerGroups([Answer(id, content)]) == ResultMessages(id, content).value
  {
    hide Collapse, ResultMessages, LowerGroups;
    GroupsInOrder(a, b);
    OneGroup(Said(parts));
    OneGroup(Answer(id, content));
  }

  lemma {:induction false} PartTextsInOrder(parts: seq<Part>)
    requires forall i | 0 <= i < |parts| :: parts[i].TextPart?
    ensures |PartTexts(parts)| == |parts| && forall i | 0 <= i < |parts| :: PartTexts(parts)[i] == parts[i].text
  {
    if parts != [] {
      PartTextsInOrder(parts[1..]);
    }
  }

  /** A run with an image keeps its parts as they are; a run of texts is all of them, a line each, in order. */
  lemma CollapseSays(parts: seq<Part>)
    ensures (exists i | 0 <= i < |parts| :: parts[i].ImagePart?) ==> Collapse(parts) == AnthropicContent.Parts(parts)
    ensures (forall i | 0 <= i < |parts| :: parts[i].TextPart?) ==>
              exists texts: seq<string> ::
                |texts| == |parts| && (forall i | 0 <= i < |parts| :: texts[i] == parts[i].text)
                && Collapse(parts) == Plain(JoinLines(texts))
  {
    hide JoinLines;
    if forall i | 0 <= i < |parts| :: parts[i].TextPart? {
      PartTextsInOrder(parts);
    }
  }

  lemma {:induction false} TextsAppend(a: seq<Block>, b: seq<Block>)
    ensures TextsIn(a + b) == TextsIn(a) + TextsIn(b)
    decreases |b|
  {
    if b == [] {
      assert a + b == a;
    } else {
      var n := |b| - 1;
      TextsAppend(a, b[..n]);
      assert (a + b)[..|a + b| - 1] == a + b[..n];
    }
  }

  lemma {:induction false} CallsAppend(a: seq<Block>, b: seq<Block>)
    ensures CallsIn(a + b) == CallsIn(a) + CallsIn(b)
    decreases |b|
  {
    hide GoodInAssistant;
    if b == [] {
      assert a + b == a;
    } else {
      var n := |b| - 1;
      CallsAppend(a, b[..n]);
      assert (a + b)[..|a + b| - 1] == a + b[..n];
    }
  }

  /** Each block of an assistant message counts once and in order: a text as itself, a tool use as a call with
      its id, name and arguments, anything else as nothing. */
  lemma AssistantInOrder(a: seq<Block>, b: seq<Block>, x: Block)
    ensures TextsIn(a + b) == TextsIn(a) + TextsIn(b) && CallsIn(a + b) == CallsIn(a) + CallsIn(b)
    ensures TextsIn([x]) == if x.Text? && x.text.Some? then [x.text.value] else []
    ensures x.ToolUse? && GoodInAssistant(x) ==> CallsIn([x]) == [ToolCall(x.id.value, x.name.value, x.input.value)]
    ensures !x.ToolUse? ==> CallsIn([x]) == []
  {
    TextsAppend(a, b);
    CallsAppend(a, b);
    assert [x][..0] == [] && TextsIn([]) == [] && CallsIn([]) == [];
  }

  /** One result after the other, if both are good. */
  function Then(a: Result<seq<Lowered>>, b: Result<seq<Lowered>>): Result<seq<Lowered>> {
    if a.Ok? && b.Ok? then Ok(a.value + b.value) else Err(Malformed)
  }

  lemma ThenThen(a: Result<seq<Lowered>>, b: Result<seq<Lowered>>, c: Result<seq<Lowered>>)
    ensures Then(Then(a, b), c) == Then(a, Then(b, c))
  {
    if a.Ok? && b.Ok? && c.Ok? {
      assert a.value + b.value + c.value == a.value + (b.value + c.value);
    }
  }

  lemma ThenNothing(a: Result<seq<Lowered>>)
    requires a.Err? ==> a == Err(Malformed)
    ensures Then(a, Ok([])) == a
  {
    if a.Ok? {
      assert a.value + [] == a.value;
    }
  }

  lemma AllSnoc(entries: seq<Entry>, e: Entry)
    ensures AllMessages(entries + [e]) == Then(AllMessages(entries), EntryMessages(e))
  {
    hide EntryMessages;
    AllErrors(entries);
    EntryErrors(e);
    assert (entries + [e])[..|entries|] == entries;
  }

  /** A list is lowered entry by entry: a longer list gives the messages of its first part and then those of
      its second, and one bad entry spoils the whole. */
  lemma {:induction false} MessagesInOrder(a: seq<Entry>, b: seq<Entry>)
    ensures AllMessages(a + b) == Then(AllMessages(a), AllMessages(b))
    decreases |b|
  {
    hide EntryMessages, AllMessages, Then;
    AllErrors(a);
    if b == [] {
      NothingLowered();
      ThenNothing(AllMessages(a));
      assert a + b == a;
    } else {
      var n := |b| - 1;
      MessagesInOrder(a, b[..n]);
      AllSnoc(a + b[..n], b[n]);
      AllSnoc(b[..n], b[n]);
      ThenThen(AllMessages(a), AllMessages(b[..n]), EntryMessages(b[n]));
      assert a + b == a + b[..n] + [b[n]] && b == b[..n] + [b[n]];
    }
  }

  lemma NothingLowered()
    ensures AllMessages([]) == Ok([])
  {
  }

  /** A list of one entry gives exactly that entry's messages. */
  lemma OneEntry(e: Entry)
    ensures AllMessages([e]) == EntryMessages(e)
  {
    hide EntryMessages;
    assert [e][..0] == [] && AllMessages([]) == Ok([]);
    if EntryMessages(e).Ok? {
      assert [] + EntryMessages(e).value == EntryMessages(e).value;
    }
  }

  /** What one entry gives, by its role. */
  lemma EntrySays(e: Entry)
    ensures e.Dict? && e.role == "user" ==> EntryMessages(e) == UserMessages(e.content)
    ensures e.Dict? && e.role == "assistant" && AssistantMessage(e.content).Ok? ==>
              EntryMessages(e) == Ok([AssistantMessage(e.content).value])
    ensures !(e.Dict? && (e.role == "user" || e.role == "assistant")) ==> EntryMessages(e) == Err(Malformed)
  {
    hide UserMessages, AssistantMessage;
  }

  /** A user message of blocks is lowered exactly when every block is a text, a usable image or an answer to a
      named call; then its messages are those of the groups that make up the blocks. */
  lemma UserBlocksSay(blocks: seq<Block>)
    ensures UserMessages(Blocks(blocks)).Ok? <==> forall b | b in blocks :: GoodInUser(b)
    ensures UserMessages(Blocks(blocks)).Ok? ==>
              exists groups :: Ungroup(groups) == blocks && Coarse(groups)
                               && UserMessages(Blocks(blocks)).value == LowerGroups(groups)
    ensures UserMessages(Blocks(blocks)).Err? ==> UserMessages(Blocks(blocks)) == Err(Malformed)
  {
    hide GoodInUser, Ungroup, Coarse, LowerGroups, Groups;
    forall i | 0 <= i < |blocks| ensures blocks[i] in blocks {
    }
    if AllGoodInUser(blocks) {
      GroupingIsReversible(blocks);
    }
  }

  /** A string reads as one text block, for users and assistants. */
  lemma StringReadsAsText(s: string)
    ensures UserMessages(Str(s)) == UserMessages(Blocks([Text(Some(s))])) == Ok([User(Plain(s))])
    ensures AssistantMessage(Str(s)) == AssistantMessage(Blocks([Text(Some(s))])) == Ok(Assistant(s, []))
  {
    var b := Text(Some(s));
    assert [b][..0] == [] && Groups([]) == [];
    assert Groups([b]) == [Said([TextPart(s)])];
    OneGroup(Said([TextPart(s)]));
    assert PartTexts([TextPart(s)]) == [s];
    AssistantOne(b);
  }

  predicate SaysText(blocks: seq<Block>) {
    exists i | 0 <= i < |blocks| :: blocks[i].Text?
  }

  lemma {:induction false} NoTextsIn(blocks: seq<Block>)
    requires forall i | 0 <= i < |blocks| :: GoodInAssistant(blocks[i])
    ensures TextsIn(blocks) == [] <==> !SaysText(blocks)
    decreases |blocks|
  {
    if blocks != [] {
      NoTextsIn(blocks[..|blocks| - 1]);
    }
  }

  /** An assistant message of two lists of blocks says what both say: their texts, a line apart, and their
      calls. It is good if and only if both are. */
  lemma AssistantSplits(a: seq<Block>, b: seq<Block>)
    ensures AssistantMessage(Blocks(a + b)).Ok? <==> AssistantMessage(Blocks(a)).Ok? && AssistantMessage(Blocks(b)).Ok?
    ensures AssistantMessage(Blocks(a + b)).Ok? ==>
              var x, y := AssistantMessage(Blocks(a)).value, AssistantMessage(Blocks(b)).value;
              x.Assistant? && y.Assistant?
              && AssistantMessage(Blocks(a + b)).value
                 == Assistant(if !SaysText(a) then y.text else if !SaysText(b) then x.text else x.text + "\n" + y.text,
                              x.calls + y.calls)
  {
    hide GoodInAssistant, TextsIn, CallsIn, SaysText, JoinLines;
    forall i | 0 <= i < |a| ensures (a + b)[i] == a[i] {
    }
    forall i | 0 <= i < |b| ensures (a + b)[|a| + i] == b[i] {
    }
    if AssistantMessage(Blocks(a)).Ok? && AssistantMessage(Blocks(b)).Ok? {
      TextsAppend(a, b);
      CallsAppend(a, b);
      NoTextsIn(a);
      NoTextsIn(b);
      JoinAppend(TextsIn(a), TextsIn(b));
      NoLines();
    }
  }

  lemma NoLines()
    ensures JoinLines([]) == ""
  {
  }

  /** One block: a text says itself, a usable tool use is one call, thinking says nothing, the rest is refused. */
  lemma AssistantOne(x: Block)
    ensures AssistantMessage(Blocks([])) == Ok(Assistant("", []))
    ensures AssistantMessage(Blocks([x])) ==
            match x
            case Text(Some(s)) => Ok(Assistant(s, []))
            case Thinking => Ok(Assistant("", []))
            case ToolUse(Some(id), Some(name), Some(input)) =>
              if id == "" then Err(Malformed) else Ok(Assistant("", [ToolCall(id, name, input)]))
            case _ => Err(Malformed)
  {
    AssistantInOrder([], [], x);
    NoLines();
    assert [x][0] == x;
    if GoodInAssistant(x) {
      assert x.ToolUse? ==> TextsIn([x]) == [];
      assert forall i | 0 <= i < |[x]| :: [x][i] == x;
      assert AssistantMessage(Blocks([x])).Ok?;
    } else {
      assert !GoodInAssistant([x][0]);
    }
  }
}
