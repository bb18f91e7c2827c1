/** Lowering Anthropic content blocks to internal messages. */
module AnthropicContent {
  import opened TextLines
  import opened Wrappers

  /** A content block as received. `None` stands for a value of the wrong type, and for ids and names also
      for a missing one. A missing text is the empty string, and a missing input the empty object. */
  datatype Block =
    | Text(text: Option<string>)
    | Image(url: Result<string>)
    | ToolResult(id: Option<string>, content: Content)
    | ToolUse(id: Option<string>, name: Option<string>, input: Option<string>)
    | Thinking
    | RedactedThinking
    | OtherBlock
    | NotAnObject

  datatype Content =
    | Str(s: string)
    | Blocks(blocks: seq<Block>)
    | Null
    | OtherJson(repr: string, truthy: bool)

  datatype Part = TextPart(text: string) | ImagePart(url: string)

  datatype UserContent = Plain(text: string) | Parts(parts: seq<Part>)

  datatype ToolCall = ToolCall(id: string, name: string, arguments: string)

  datatype Lowered =
    | Tool(id: string, text: string)
    | User(content: UserContent)
    | Assistant(text: string, calls: seq<ToolCall>)

  // ---------------------------------------------------------------------- tool results

  /** What a tool result says, in order: runs of text, and images. */
  datatype Item = Run(text: string) | Picture(url: string)

  predicate GoodInResult(b: Block) {
    (b.Text? && b.text.Some?) || (b.Image? && b.url.Ok?)
  }

  function ItemIn(b: Block): Item
    requires GoodInResult(b)
  {
    if b.Text? then Run(b.text.value) else Picture(b.url.value)
  }

  /** One item more: a text that follows a text continues its run on a new line. */
  function Push(items: seq<Item>, x: Item): seq<Item> {
    var n := |items| - 1;
    if x.Run? && items != [] && items[n].Run? then items[..n] + [Run(items[n].text + "\n" + x.text)]
    else items + [x]
  }

  /** The content of a list of good blocks: neighbouring texts are one run. */
  function Items(blocks: seq<Block>): seq<Item>
    requires AllGood(blocks)
  {
    if blocks == [] then []
    else Push(Items(blocks[..|blocks| - 1]), ItemIn(blocks[|blocks| - 1]))
  }

  /** What a list of lowered messages says. */
  function ItemOf(m: Lowered): Item {
    match m
    case Tool(_, text) => Run(text)
    case User(Parts(parts)) => Picture(if parts != [] && parts[0].ImagePart? then parts[0].url else "")
    case User(Plain(text)) => Run(text)
    case Assistant(text, _) => Run(text)
  }

  function ItemsOf(messages: seq<Lowered>): (r: seq<Item>)
    ensures |r| == |messages|
    ensures forall i | 0 <= i < |messages| :: r[i] == ItemOf(messages[i])
  {
    seq(|messages|, i requires 0 <= i < |messages| => ItemOf(messages[i]))
  }

  /** A tool call has to be answered by a tool message before anything else. */
  function Opened(items: seq<Item>): seq<Item> {
    if items != [] && items[0].Run? then items else [Run("")] + items
  }

  /** The messages that say `items` for a tool call. */
  function Told(id: string, items: seq<Item>): (r: seq<Lowered>)
    ensures |r| == |items|
    ensures forall i | 0 <= i < |items| ::
              r[i] == if items[i].Run? then Tool(id, items[i].text) else User(Parts([ImagePart(items[i].url)]))
  {
    seq(|items|, i requires 0 <= i < |items| =>
      if items[i].Run? then Tool(id, items[i].text) else User(Parts([ImagePart(items[i].url)])))
  }

  predicate AllGood(blocks: seq<Block>) {
    forall i | 0 <= i < |blocks| :: GoodInResult(blocks[i])
  }

  /** What a tool result becomes. */
  function ResultMessages(id: string, content: Content): Result<seq<Lowered>> {
    match content
    case Str(s) => Ok([Tool(id, s)])
    case Null => Ok([Tool(id, "")])
    case OtherJson(_, _) => Err(Malformed)
    case Blocks(blocks) => if AllGood(blocks) then Ok(Told(id, Opened(Items(blocks)))) else Err(Malformed)
  }

  /** Every lowered tool result answers its call first, and holds nothing but tool messages for that
      call and single images; its texts and images are those of the blocks, in order. */
  lemma ResultAnswersFirst(id: string, content: Content)
    requires ResultMessages(id, content).Ok?
    ensures var r := ResultMessages(id, content).value;
            && r != [] && r[0].Tool? && r[0].id == id
            && (forall i | 0 <= i < |r| :: ResultShape(id, r[i]))
            && (content.Blocks? ==> ItemsOf(r) == Opened(Items(content.blocks)))
  {
    hide Items, AllGood;
    if content.Blocks? {
      ToldBack(id, Opened(Items(content.blocks)));
    }
  }

  lemma ToldBack(id: string, items: seq<Item>)
    ensures ItemsOf(Told(id, items)) == items
    ensures forall i | 0 <= i < |items| :: ResultShape(id, Told(id, items)[i])
  {
  }

  lemma ShapeDetermines(id: string, messages: seq<Lowered>, items: seq<Item>)
    requires forall i | 0 <= i < |messages| :: ResultShape(id, messages[i])
    requires ItemsOf(messages) == items
    ensures messages == Told(id, items)
  {
    forall i | 0 <= i < |messages| ensures messages[i] == Told(id, items)[i] {
      assert ItemOf(messages[i]) == items[i];
    }
  }

  /** Only messages a tool result may become: tool messages for its id, and users with one image. */
  predicate ResultShape(id: string, m: Lowered) {
    match m
    case Tool(i, _) => i == id
    case User(Parts(parts)) => |parts| == 1 && parts[0].ImagePart?
    case _ => false
  }

  method ToolResultMessages(id: string, content: Content) returns (r: Result<seq<Lowered>>)
    ensures r == ResultMessages(id, content)
  {
    match content {
      case Str(s) => return Ok([Tool(id, s)]);
      case Null => return Ok([Tool(id, "")]);
      case OtherJson(_, _) => return Err(Malformed);
      case Blocks(blocks) => r := ResultBlocks(id, blocks);
    }
  }

  /** The loop over the blocks of one tool result. */
  method ResultBlocks(id: string, blocks: seq<Block>) returns (r: Result<seq<Lowered>>)
    ensures r == if AllGood(blocks) then Ok(Told(id, Opened(Items(blocks)))) else Err(Malformed)
  {
    hide Push, ItemsOf, JoinLines, Opened, Progress;
    var messages: seq<Lowered>, texts: seq<string> := [], [];
    var emitted := false;
    NoProgress();
    for i := 0 to |blocks|
      invariant forall k | 0 <= k < i :: GoodInResult(blocks[k])
      invariant emitted == (messages != [])
      invariant forall k | 0 <= k < |messages| :: ResultShape(id, messages[k])
      invariant Progress(Items(blocks[..i]), texts, messages)
    {
      var b := blocks[i];
      assert blocks[..i + 1][..i] == blocks[..i];
      ghost var items := Items(blocks[..i]);
      if b.Text? && b.text.Some? {
        AddText(items, texts, messages, b.text.value);
        texts := texts + [b.text.value];
      } else if b.Image? && b.url.Ok? {
        AddPicture(items, texts, messages, id, b.url.value);
        if texts == [] && !emitted {
          messages := messages + [Tool(id, "")];
          emitted := true;
        }
        if texts != [] {
          messages := messages + [Tool(id, JoinLines(texts))];
          emitted := true;
          texts := [];
        }
        messages := messages + [User(Parts([ImagePart(b.url.value)]))];
      } else {
        assert !GoodInResult(blocks[i]);
        return Err(Malformed);
      }
    }
    assert blocks[..|blocks|] == blocks;
    Finish(Items(blocks), texts, messages, id);
    if texts != [] {
      messages := messages + [Tool(id, JoinLines(texts))];
    }
    if messages == [] {
      messages := [Tool(id, "")];
    }
    ShapeDetermines(id, messages, Opened(Items(blocks)));
    return Ok(messages);
  }

  /** What was emitted, together with the texts still buffered, is what was read. */
  ghost predicate Progress(items: seq<Item>, texts: seq<string>, messages: seq<Lowered>) {
    var n := |items| - 1;
    if texts == [] then
      if items == [] then messages == [] else ItemsOf(messages) == Opened(items) && items[n].Picture?
    else
      && items != [] && items[n] == Run(JoinLines(texts))
      && (if n == 0 then messages == [] else ItemsOf(messages) == Opened(items[..n]) && items[n - 1].Picture?)
  }

  lemma NoProgress()
    ensures Progress([], [], [])
  {
  }

  lemma ItemsOfAppend(messages: seq<Lowered>, m: Lowered)
    ensures ItemsOf(messages + [m]) == ItemsOf(messages) + [ItemOf(m)]
  {
  }

  lemma PushText(items: seq<Item>, text: string)
    ensures var n := |items| - 1;
            Push(items, Run(text)) == if items != [] && items[n].Run? then items[..n] + [Run(items[n].text + "\n" + text)]
                                      else items + [Run(text)]
  {
  }

  lemma AddText(items: seq<Item>, texts: seq<string>, messages: seq<Lowered>, text: string)
    requires Progress(items, texts, messages)
    ensures Progress(Push(items, Run(text)), texts + [text], messages)
  {
    hide Push, ItemsOf, Opened;
    var n := |items| - 1;
    PushText(items, text);
    if texts == [] {
      assert texts + [text] == [text];
      assert (items + [Run(text)])[..|items|] == items;
    } else {
      JoinLast(texts, text);
      hide JoinLines;
      assert (items[..n] + [Run(JoinLines(texts + [text]))])[..n] == items[..n];
    }
  }

  lemma OpenedAppend(items: seq<Item>, x: Item)
    ensures items != [] ==> Opened(items + [x]) == Opened(items) + [x]
    ensures x.Run? ==> Opened([x]) == [x]
    ensures x.Picture? ==> Opened([x]) == [Run(""), x]
  {
  }

  lemma AddPicture(items: seq<Item>, texts: seq<string>, messages: seq<Lowered>, id: string, url: string)
    requires Progress(items, texts, messages)
    ensures var answered := if texts == [] && messages == [] then messages + [Tool(id, "")] else messages;
            var flushed := if texts != [] then answered + [Tool(id, JoinLines(texts))] else answered;
            Progress(Push(items, Picture(url)), [], flushed + [User(Parts([ImagePart(url)]))])
  {
    var n := |items| - 1;
    assert Push(items, Picture(url)) == items + [Picture(url)];
    var flushed := FlushText(items, texts, messages, id);
    hide JoinLines, ItemsOf, Opened, Push;
    OpenedAppend(items, Picture(url));
    if items == [] {
      assert [Tool(id, "")] == [] + [Tool(id, "")];
      ItemsOfAppend([], Tool(id, ""));
      ItemsOfAppend([Tool(id, "")], User(Parts([ImagePart(url)])));
      assert [] + [Picture(url)] == [Picture(url)];
      assert [Run("")] + [Picture(url)] == [Run(""), Picture(url)];
      NoItems();
    } else {
      ItemsOfAppend(flushed, User(Parts([ImagePart(url)])));
    }
  }

  lemma NoItems()
    ensures ItemsOf([]) == [] && Opened([]) == [Run("")] && forall x: Item :: [] + [x] == [x]
  {
  }

  /** Flushing buffered texts makes the messages say all that was read. */
  lemma FlushText(items: seq<Item>, texts: seq<string>, messages: seq<Lowered>, id: string) returns (flushed: seq<Lowered>)
    requires Progress(items, texts, messages)
    ensures flushed == if texts != [] then messages + [Tool(id, JoinLines(texts))] else messages
    ensures items == [] ==> messages == [] && flushed == [] && texts == []
    ensures items != [] ==> flushed != [] && ItemsOf(flushed) == Opened(items)
  {
    hide JoinLines, ItemsOf, Opened;
    flushed := if texts != [] then messages + [Tool(id, JoinLines(texts))] else messages;
    var n := |items| - 1;
    if texts != [] {
      var x := Run(JoinLines(texts));
      ItemsOfAppend(messages, Tool(id, JoinLines(texts)));
      assert items == items[..n] + [x];
      OpenedAppend(items[..n], x);
      NoItems();
    } else if items != [] {
      EmptySaysNothing(items);
    }
  }

  lemma EmptySaysNothing(items: seq<Item>)
    ensures Opened(items) != [] && ItemsOf([]) == []
  {
  }

  lemma Finish(items: seq<Item>, texts: seq<string>, messages: seq<Lowered>, id: string)
    requires Progress(items, texts, messages)
    ensures var flushed := if texts != [] then messages + [Tool(id, JoinLines(texts))] else messages;
            ItemsOf(if flushed == [] then [Tool(id, "")] else flushed) == Opened(items)
  {
    hide JoinLines, ItemsOf, Opened;
    var flushed := FlushText(items, texts, messages, id);
    if items == [] {
      NoItems();
      ItemsOfAppend([], Tool(id, ""));
      assert [] + [Tool(id, "")] == [Tool(id, "")];
    }
  }

  // ------------------------------------------------------------------- reading in order

  /** What a reader meets: characters and pictures. */
  datatype Glyph = Letter(c: char) | Shown(url: string)

  function Letters(s: string): (r: seq<Glyph>)
    ensures |r| == |s| && forall i | 0 <= i < |s| :: r[i] == Letter(s[i])
  {
    seq(|s|, i requires 0 <= i < |s| => Letter(s[i]))
  }

  function ItemGlyphs(x: Item): seq<Glyph> {
    if x.Run? then Letters(x.text) else [Shown(x.url)]
  }

  /** Items read one after the other, with a line end between two texts. */
  function Reading(items: seq<Item>): seq<Glyph> {
    if items == [] then []
    else
      var n := |items| - 1;
      Reading(items[..n])
      + (if n > 0 && items[n].Run? && items[n - 1].Run? then [Letter('\n')] else [])
      + ItemGlyphs(items[n])
  }

  /** The blocks of a tool result, one item each. */
  function BlockItems(blocks: seq<Block>): (r: seq<Item>)
    requires AllGood(blocks)
    ensures |r| == |blocks| && forall i | 0 <= i < |blocks| :: r[i] == ItemIn(blocks[i])
  {
    seq(|blocks|, i requires 0 <= i < |blocks| => ItemIn(blocks[i]))
  }

  lemma ReadingSnoc(items: seq<Item>, x: Item)
    ensures Reading(items + [x])
            == Reading(items)
               + (if items != [] && x.Run? && items[|items| - 1].Run? then [Letter('\n')] else [])
               + ItemGlyphs(x)
  {
    hide ItemGlyphs;
    assert (items + [x])[..|items|] == items;
  }

  lemma LettersJoin(a: string, b: string)
    ensures Letters(a + "\n" + b) == Letters(a) + [Letter('\n')] + Letters(b)
  {
  }

  /** Joining a text to the run before it reads like the text on a new line. */
  lemma PushReads(items: seq<Item>, x: Item)
    ensures Reading(Push(items, x)) == Reading(items + [x])
  {
    hide Reading, Letters;
    var n := |items| - 1;
    if x.Run? && items != [] && items[n].Run? {
      LettersJoin(items[n].text, x.text);
      ReadingSnoc(items[..n], items[n]);
      ReadingSnoc(items, x);
      ReadingSnoc(items[..n], Run(items[n].text + "\n" + x.text));
      assert items == items[..n] + [items[n]];
    }
  }

  lemma SameReading(a: seq<Item>, b: seq<Item>, x: Item)
    requires Reading(a) == Reading(b) && (a == [] <==> b == [])
    requires a != [] ==> a[|a| - 1].Run? == b[|b| - 1].Run?
    ensures Reading(a + [x]) == Reading(b + [x])
  {
    hide Reading, ItemGlyphs;
    ReadingSnoc(a, x);
    ReadingSnoc(b, x);
  }

  /** The runs and pictures of a tool result read exactly like its blocks, in order, a new line between
      neighbouring texts; and two runs never stand side by side. */
  lemma {:induction false} ItemsReadLikeBlocks(blocks: seq<Block>)
    requires AllGood(blocks)
    ensures Reading(Items(blocks)) == Reading(BlockItems(blocks))
    ensures blocks == [] <==> Items(blocks) == []
    ensures blocks != [] ==> Items(blocks)[|Items(blocks)| - 1].Run? == blocks[|blocks| - 1].Text?
    ensures forall i | 0 < i < |Items(blocks)| :: Items(blocks)[i].Picture? || Items(blocks)[i - 1].Picture?
    decreases |blocks|
  {
    hide Reading;
    if blocks == [] {
    } else {
      var n := |blocks| - 1;
      var before, x := Items(blocks[..n]), ItemIn(blocks[n]);
      ItemsReadLikeBlocks(blocks[..n]);
      assert BlockItems(blocks) == BlockItems(blocks[..n]) + [x];
      PushReads(before, x);
      SameReading(before, BlockItems(blocks[..n]), x);
    }
  }

  /** A tool result is lowered exactly when it is missing, a string, or a list of texts and usable images. */
  lemma ResultLowersIff(id: string, content: Content)
    ensures ResultMessages(id, content).Ok?
            <==> content.Null? || content.Str?
                 || (content.Blocks?
                     && forall b | b in content.blocks :: (b.Text? && b.text.Some?) || (b.Image? && b.url.Ok?))
    ensures ResultMessages(id, content).Err? ==> ResultMessages(id, content) == Err(Malformed)
  {
    if content.Blocks? {
      forall i | 0 <= i < |content.blocks| ensures content.blocks[i] in content.blocks {
      }
    }
  }

  /** A string reads as one text block, and a missing content as an empty list of blocks or an empty string. */
  lemma StringIsOneText(id: string, s: string)
    ensures ResultMessages(id, Str(s)) == ResultMessages(id, Blocks([Text(Some(s))])) == Ok([Tool(id, s)])
    ensures ResultMessages(id, Null) == ResultMessages(id, Blocks([])) == ResultMessages(id, Str(""))
  {
    assert [Text(Some(s))][..0] == [] && Items([]) == [];
    assert Items([Text(Some(s))]) == [Run(s)] && Opened([Run(s)]) == [Run(s)];
    assert Opened([]) == [Run("")];
    assert Told(id, [Run(s)]) == [Tool(id, s)] && Told(id, [Run("")]) == [Tool(id, "")];
  }
}
