/** Decoding a chat message envelope into the pieces a thread shows. */
module ChatBody {
  import opened Results

  /** A tool call's input, as far as a bubble reads it: the `content` of a
      `send_message`, and everything else unread. */
  datatype Input = Input(content: Option<string>, rest: string)

  datatype ToolCall = ToolCall(id: string, name: string, input: Input)
  datatype ToolResult = ToolResult(callId: string, output: string, isError: Option<bool>)
  datatype Attachment = Attachment(url: string, mime: string, filename: string, size: nat)

  datatype Block =
    | TextBlock(text: string)
    | ReasoningBlock(reasoning: string)
    | CallBlock(call: ToolCall)
    | ResultBlock(result: ToolResult)
    | ImageBlock(image: Attachment)
    | FileBlock(file: Attachment)
    | OtherBlock(kind: string)

  /** `contents` when it is an array, and the legacy `content` when it is a string. */
  datatype Body = Body(contents: Option<seq<Block>>, content: Option<string>)

  datatype Decoded = Decoded(text: string, reasoning: string, toolCalls: seq<ToolCall>, toolResults: seq<ToolResult>,
                             attachments: seq<Attachment>)

  const EMPTY := Decoded("", "", [], [], [])

  // ----- What decoding means -----

  /** What `piece` finds in each block, in order. */
  function Pick<T>(blocks: seq<Block>, piece: Block -> seq<T>): seq<T> {
    if blocks == [] then [] else piece(blocks[0]) + Pick(blocks[1..], piece)
  }

  function TextIn(c: Block): seq<string> { if c.TextBlock? then [c.text] else [] }

  function ReasoningIn(c: Block): seq<string> { if c.ReasoningBlock? then [c.reasoning] else [] }

  function CallIn(c: Block): seq<ToolCall> { if c.CallBlock? then [c.call] else [] }

  function ResultIn(c: Block): seq<ToolResult> { if c.ResultBlock? then [c.result] else [] }

  function AttachmentIn(c: Block): seq<Attachment> {
    match c case ImageBlock(a) => [a] case FileBlock(a) => [a] case _ => []
  }

  /** The lines from the first non-empty one on, with a newline between each
      two: a later empty line still takes one. */
  function Lines(values: seq<string>): string {
    if values == [] then "" else if values[0] == "" then Lines(values[1..]) else values[0] + Tail(values[1..])
  }

  function Tail(values: seq<string>): string {
    if values == [] then "" else "\n" + values[0] + Tail(values[1..])
  }

  function Decode(body: Option<Body>): Decoded {
    match body
    case None => EMPTY
    case Some(b) =>
      match b.contents
      case Some(blocks) =>
        Decoded(Lines(Pick(blocks, TextIn)), Lines(Pick(blocks, ReasoningIn)), Pick(blocks, CallIn),
            Pick(blocks, ResultIn),
                Pick(blocks, AttachmentIn))
      case None => EMPTY.(text := if b.content.Some? then b.content.value else "")
  }

  // ----- The loop -----

  function AddLine(sofar: string, value: string): string {
    sofar + (if sofar == "" then "" else "\n") + value
  }

  lemma {:induction false} TailSnoc(values: seq<string>, v: string)
    ensures Tail(values + [v]) == Tail(values) + "\n" + v
  {
    if values == [] {
      assert values + [v] == [v];
    } else {
      assert (values + [v])[1..] == values[1..] + [v];
      TailSnoc(values[1..], v);
    }
  }

  /** Adding to what is there, with a newline unless it is empty, is taking
      the lines together. */
  lemma {:induction false} LinesSnoc(values: seq<string>, v: string)
    ensures Lines(values + [v]) == AddLine(Lines(values), v)
  {
    if values == [] {
      assert [v][1..] == [];
    } else {
      assert (values + [v])[1..] == values[1..] + [v];
      if values[0] == "" { LinesSnoc(values[1..], v); } else { TailSnoc(values[1..], v); }
    }
  }

  /** One more block. */
  function AddBlock(d: Decoded, c: Block): Decoded {
    match c
    case TextBlock(v) => d.(text := AddLine(d.text, v))
    case ReasoningBlock(v) => d.(reasoning := AddLine(d.reasoning, v))
    case CallBlock(v) => d.(toolCalls := d.toolCalls + [v])
    case ResultBlock(v) => d.(toolResults := d.toolResults + [v])
    case ImageBlock(v) => d.(attachments := d.attachments + [v])
    case FileBlock(v) => d.(attachments := d.attachments + [v])
    case OtherBlock(_) => d
  }

  function DecodeBlocks(blocks: seq<Block>): Decoded {
    Decode(Some(Body(Some(blocks), None)))
  }

  lemma {:induction false} PickSnoc<T>(blocks: seq<Block>, c: Block, piece: Block -> seq<T>)
    ensures Pick(blocks + [c], piece) == Pick(blocks, piece) + piece(c)
  {
    if blocks == [] {
      assert blocks + [c] == [c];
    } else {
      assert (blocks + [c])[1..] == blocks[1..] + [c];
      PickSnoc(blocks[1..], c, piece);
    }
  }

  lemma {:induction false} PickOne<T>(blocks: seq<Block>, c: Block, piece: Block -> seq<T>)
    ensures piece(c) == [] ==> Pick(blocks + [c], piece) == Pick(blocks, piece)
    ensures Pick(blocks + [c], piece) == Pick(blocks, piece) + piece(c)
  {
    PickSnoc(blocks, c, piece);
  }

  lemma {:induction false} LinesOne(blocks: seq<Block>, c: Block, piece: Block -> seq<string>)
    requires |piece(c)| <= 1
    ensures Lines(Pick(blocks + [c], piece))
         == if piece(c) == [] then Lines(Pick(blocks, piece)) else AddLine(Lines(Pick(blocks, piece)), piece(c)[0])
  {
    PickOne(blocks, c, piece);
    if piece(c) != [] {
      LinesSnoc(Pick(blocks, piece), piece(c)[0]);
      assert piece(c) == [piece(c)[0]];
    }
  }

  /** The pieces of a body grow block by block. */
  lemma {:induction false} DecodeSnoc(blocks: seq<Block>, c: Block)
    ensures DecodeBlocks(blocks + [c]) == AddBlock(DecodeBlocks(blocks), c)
  {
    LinesOne(blocks, c, TextIn);
    LinesOne(blocks, c, ReasoningIn);
    PickOne(blocks, c, CallIn);
    PickOne(blocks, c, ResultIn);
    PickOne(blocks, c, AttachmentIn);
  }

  lemma {:induction false} NothingDecoded()
    ensures DecodeBlocks([]) == EMPTY
  {
  }

  method DecodeBody(body: Option<Body>) returns (out: Decoded)
    ensures out == Decode(body)
  {
    hide Lines, Pick;
    out := EMPTY;
    if body.None? {
      return;
    }
    if body.value.contents.Some? {
      var blocks := body.value.contents.value;
      NothingDecoded();
      assert blocks[..0] == [];
      for i := 0 to |blocks|
        invariant out == DecodeBlocks(blocks[..i])
      {
        DecodeSnoc(blocks[..i], blocks[i]);
        assert blocks[..i + 1] == blocks[..i] + [blocks[i]];
        match blocks[i] {
          case TextBlock(v) =>
            out := out.(text := out.text + (if out.text == "" then "" else "\n") + v);
          case ReasoningBlock(v) =>
            out := out.(reasoning := out.reasoning + (if out.reasoning == "" then "" else "\n") + v);
          case CallBlock(v) =>
            out := out.(toolCalls := out.toolCalls + [v]);
          case ResultBlock(v) =>
            out := out.(toolResults := out.toolResults + [v]);
          case ImageBlock(v) =>
            out := out.(attachments := out.attachments + [v]);
          case FileBlock(v) =>
            out := out.(attachments := out.attachments + [v]);
          case OtherBlock(_) =>
        }
      }
      assert blocks[..|blocks|] == blocks;
      return;
    }
    if body.value.content.Some? {
      out := out.(text := body.value.content.value);
    }
  }
}
