/** The Scorpion document format: a stream of blocks, each a type/encoding
    byte, a 16-bit attribute length, the attribute, a 24-bit body length and
    the body, with in-band control codes inside the body. */
module ScorpionBlocks {
  import opened Wrappers
  import opened Bytes

  datatype BlockType =
    | Paragraph
    | Heading1
    | Heading2
    | Heading3
    | Heading4
    | Heading5
    | Heading6
    | Hyperlink
    | HyperlinkInput
    | HyperlinkInteractive
    | AlternateService
    | Blockquote
    | Preformatted
    | Metadata

  /** `BlockType::from`: the codes 0x07, 0x0E and anything unlisted read as
      a paragraph. */
  function BlockTypeOf(n: byte): (t: BlockType)
    ensures t == Paragraph <==> n == 0x00 || n == 0x07 || n == 0x0E || n > 0x0F
  {
    match n
    case 0x00 => Paragraph
    case 0x01 => Heading1
    case 0x02 => Heading2
    case 0x03 => Heading3
    case 0x04 => Heading4
    case 0x05 => Heading5
    case 0x06 => Heading6
    case 0x08 => Hyperlink
    case 0x09 => HyperlinkInput
    case 0x0A => HyperlinkInteractive
    case 0x0B => AlternateService
    case 0x0C => Blockquote
    case 0x0D => Preformatted
    case 0x0F => Metadata
    case _ => Paragraph
  }

  /** The canonical code of each block type. */
  function BlockTypeCode(t: BlockType): (n: byte)
    ensures n < 16
  {
    match t
    case Paragraph => 0x00
    case Heading1 => 0x01
    case Heading2 => 0x02
    case Heading3 => 0x03
    case Heading4 => 0x04
    case Heading5 => 0x05
    case Heading6 => 0x06
    case Hyperlink => 0x08
    case HyperlinkInput => 0x09
    case HyperlinkInteractive => 0x0A
    case AlternateService => 0x0B
    case Blockquote => 0x0C
    case Preformatted => 0x0D
    case Metadata => 0x0F
  }

  /** Every block type is reachable, through its code. */
  lemma BlockTypeCodeRoundTrip(t: BlockType)
    ensures BlockTypeOf(BlockTypeCode(t)) == t
  {
  }

  datatype CharacterEncoding = Tron8 | PC | Iso2022 | Tron8Rtl | Iso2022Rtl

  /** `CharacterEncoding::from`: unlisted values read as TRON-8. */
  function EncodingOf(n: byte): (e: CharacterEncoding)
    ensures e == PC <==> n == 0x10
    ensures e == Tron8 <==> n !in {0x10, 0x20, 0x80, 0xA0}
  {
    match n
    case 0x00 => Tron8
    case 0x10 => PC
    case 0x20 => Iso2022
    case 0x80 => Tron8Rtl
    case 0xA0 => Iso2022Rtl
    case _ => Tron8
  }

  function EncodingCode(e: CharacterEncoding): byte {
    match e
    case Tron8 => 0x00
    case PC => 0x10
    case Iso2022 => 0x20
    case Tron8Rtl => 0x80
    case Iso2022Rtl => 0xA0
  }

  /** Every encoding is reachable, through its code. */
  lemma EncodingCodeRoundTrip(e: CharacterEncoding)
    ensures EncodingOf(EncodingCode(e)) == e
  {
  }

  /** The two code page 437 tables the client reads PC-encoded text with;
      they belong to a library that is not part of this model. */
  datatype CodePage = CodePage(control: byte -> char, graphic: byte -> char)

  /** Body bytes that are markup (list markers, sub-block delimiters, tabs,
      line breaks, styles, text direction, furigana, SGR, ISO 2022 single
      shifts) and produce no text. 0x10 is handled on its own. */
  predicate IsMarkup(b: byte) {
    b in {0x02, 0x05, 0x06, 0x07, 0x09, 0x0A, 0x11, 0x12, 0x13, 0x14, 0x15,
          0x16, 0x17, 0x18, 0x19, 0x1B, 0x8E, 0x8F}
  }

  const GraphicEscape: byte := 0x10

  /** The code page 437 graphic selected by the byte after a 0x10 escape:
      the byte minus 0x40, wrapping below zero as the unchecked `u8`
      subtraction does in a release build. */
  function Graphic(cp: CodePage, b: byte): char {
    cp.graphic(((b as int - 0x40) % 256) as byte)
  }

  /** The character of an ordinary body byte. */
  function Plain(enc: CharacterEncoding, cp: CodePage, b: byte): char {
    if enc == PC then cp.control(b) else (b as int) as char
  }

  /** Reference reading of a block body. Markup is dropped; under the PC
      encoding 0x10 takes the next byte as a graphic, and a final 0x10 has
      no byte to take. Outside the PC encoding 0x10 is dropped. */
  function DecodeBody(enc: CharacterEncoding, cp: CodePage, data: seq<byte>): (r: Result<string>)
    ensures r.Err? ==> enc == PC && r.fault == ScorpionEscapeAtEnd
    ensures r.Ok? ==> |r.value| <= |data|
    decreases |data|
  {
    if |data| == 0 then Ok("")
    else if data[0] == GraphicEscape then
      if enc != PC then DecodeBody(enc, cp, data[1..])
      else if |data| < 2 then Err(ScorpionEscapeAtEnd)
      else PrependTo([Graphic(cp, data[1])], DecodeBody(enc, cp, data[2..]))
    else if IsMarkup(data[0]) then DecodeBody(enc, cp, data[1..])
    else PrependTo([Plain(enc, cp, data[0])], DecodeBody(enc, cp, data[1..]))
  }

  function PrependTo(s: string, r: Result<string>): (q: Result<string>)
    ensures q.Ok? <==> r.Ok?
    ensures q.Ok? ==> q.value == s + r.value
    ensures q.Err? ==> q.fault == r.fault
  {
    match r
    case Ok(t) => Ok(s + t)
    case Err(e) => Err(e)
  }

  /** `Scorpion::parse_body_data`: one pass over the body with an offset
      that skips the escape's operand. */
  method ParseBodyData(enc: CharacterEncoding, cp: CodePage, data: seq<byte>) returns (r: Result<string>)
    ensures r == DecodeBody(enc, cp, data)
  {
    var offset := 0;
    var text := "";
    assert data[offset..] == data;
    var whole := DecodeBody(enc, cp, data);
    assert PrependTo(text, whole) == whole by {
      if whole.Ok? {
        assert text + whole.value == whole.value;
      }
    }
    while offset < |data|
      invariant offset <= |data|
      invariant DecodeBody(enc, cp, data) == PrependTo(text, DecodeBody(enc, cp, data[offset..]))
      decreases |data| - offset
    {
      var rest := data[offset..];
      var b := data[offset];
      if b == GraphicEscape {
        if enc == PC {
          if offset + 1 >= |data| {
            return Err(ScorpionEscapeAtEnd);
          }
          assert rest[2..] == data[offset + 2..];
          PrependToTwice(text, [Graphic(cp, data[offset + 1])], DecodeBody(enc, cp, data[offset + 2..]));
          text := text + [Graphic(cp, data[offset + 1])];
          offset := offset + 1;
        } else {
          assert rest[1..] == data[offset + 1..];
        }
      } else if IsMarkup(b) {
        assert rest[1..] == data[offset + 1..];
      } else {
        assert rest[1..] == data[offset + 1..];
        PrependToTwice(text, [Plain(enc, cp, b)], DecodeBody(enc, cp, data[offset + 1..]));
        text := text + [Plain(enc, cp, b)];
      }
      offset := offset + 1;
    }
    assert data[offset..] == [];
    assert text + "" == text;
    return Ok(text);
  }

  lemma PrependToTwice(s: string, t: string, r: Result<string>)
    ensures PrependTo(s, PrependTo(t, r)) == PrependTo(s + t, r)
  {
    if r.Ok? {
      assert s + (t + r.value) == (s + t) + r.value;
    }
  }

  /** The bytes that yield text outside the PC encoding. */
  function TextBytes(data: seq<byte>): (r: seq<byte>)
    ensures |r| <= |data|
    ensures forall i :: 0 <= i < |r| ==> !IsMarkup(r[i]) && r[i] != GraphicEscape
  {
    if |data| == 0 then []
    else if IsMarkup(data[0]) || data[0] == GraphicEscape then TextBytes(data[1..])
    else [data[0]] + TextBytes(data[1..])
  }

  /** Outside the PC encoding a body always reads, and reads as its text
      bytes, one character per byte with the same code point. */
  lemma {:induction false} NonPcBodyIsTextBytes(enc: CharacterEncoding, cp: CodePage, data: seq<byte>)
    requires enc != PC
    ensures DecodeBody(enc, cp, data) == Ok(Decode(TextBytes(data)))
    decreases |data|
  {
    if |data| > 0 {
      NonPcBodyIsTextBytes(enc, cp, data[1..]);
      if !IsMarkup(data[0]) && data[0] != GraphicEscape {
        assert Decode([data[0]] + TextBytes(data[1..]))
          == [(data[0] as int) as char] + Decode(TextBytes(data[1..]));
      }
    }
  }

  /** Under the PC encoding a 0x10 escape followed by a byte reads as one
      graphic, and a lone final 0x10 is a fault. */
  lemma PcEscape(cp: CodePage, b: byte, rest: seq<byte>)
    ensures DecodeBody(PC, cp, [GraphicEscape, b] + rest)
      == PrependTo([Graphic(cp, b)], DecodeBody(PC, cp, rest))
    ensures DecodeBody(PC, cp, [GraphicEscape]) == Err(ScorpionEscapeAtEnd)
  {
    assert ([GraphicEscape, b] + rest)[2..] == rest;
  }

  /** One rendered block; `plaintext` marks a whole body shown verbatim. */
  datatype Block = Block(blockType: BlockType, attribute: string, body: string, plaintext: bool)

  /** Where the block at `offset` ends its attribute and its body, read
      from its two length fields; None when a length runs past the end,
      which is the out-of-bounds slice or index of the client. */
  function Extent(data: seq<byte>, offset: nat): (r: Option<(nat, nat)>)
    requires offset + 6 <= |data|
    ensures r.Some? ==> offset + 3 <= r.value.0 && r.value.0 + 3 <= r.value.1 <= |data|
  {
    var attributeEnd := offset + 3 + BigEndian16(data[offset + 1], data[offset + 2]);
    if attributeEnd + 3 > |data| then None
    else
      var bodyEnd := attributeEnd + 3 + BigEndian24(data[attributeEnd], data[attributeEnd + 1], data[attributeEnd + 2]);
      if bodyEnd > |data| then None else Some((attributeEnd, bodyEnd))
  }

  /** Reads the block at `offset`: the type and encoding nibbles of its
      first byte, the attribute and the body. The result carries the offset
      just past the block. */
  function ReadBlock(cp: CodePage, data: seq<byte>, offset: nat): (r: Result<(Block, nat)>)
    requires offset + 6 <= |data|
    ensures r.Ok? ==> offset + 6 <= r.value.1 <= |data| && !r.value.0.plaintext
    ensures r.Err? ==> r.fault == ScorpionTruncated || r.fault == ScorpionEscapeAtEnd
    ensures Extent(data, offset).None? ==> r == Err(ScorpionTruncated)
  {
    match Extent(data, offset)
    case None => Err(ScorpionTruncated)
    case Some((attributeEnd, bodyEnd)) =>
      var kind := data[offset];
      var body :- DecodeBody(EncodingOf(HighNibble(kind)), cp, data[attributeEnd + 3..bodyEnd]);
      Ok((Block(BlockTypeOf(LowNibble(kind)), Decode(data[offset + 3..attributeEnd]), body, false), bodyEnd))
  }

  /** The block loop from `offset`, reading a block whenever a whole
      minimal block (6 bytes) remains. Each block takes at least 6 bytes. */
  function Blocks(cp: CodePage, data: seq<byte>, offset: nat): (r: Result<seq<Block>>)
    requires offset <= |data|
    ensures r.Ok? ==> 6 * |r.value| <= |data| - offset
    ensures r.Ok? ==> forall i :: 0 <= i < |r.value| ==> !r.value[i].plaintext
    ensures offset + 6 > |data| ==> r == Ok([])
    decreases |data| - offset
  {
    if offset + 6 <= |data| then
      var read :- ReadBlock(cp, data, offset);
      var rest :- Blocks(cp, data, read.1);
      Ok([read.0] + rest)
    else Ok([])
  }

  /** The block loop exactly as the client writes it: it reads a block only
      while more than 6 bytes remain, so a final block of exactly 6 bytes
      (no attribute, no body) is never read. */
  function BlocksAsWritten(cp: CodePage, data: seq<byte>, offset: nat): (r: Result<seq<Block>>)
    requires offset <= |data|
    ensures offset + 6 >= |data| ==> r == Ok([])
    ensures r.Ok? ==> forall i :: 0 <= i < |r.value| ==> !r.value[i].plaintext
    decreases |data| - offset
  {
    if offset + 6 < |data| then
      var read :- ReadBlock(cp, data, offset);
      var rest :- BlocksAsWritten(cp, data, read.1);
      Ok([read.0] + rest)
    else Ok([])
  }

  /** A page shown verbatim: one paragraph holding the whole text. */
  function PlainPage(text: string): (page: seq<Block>)
    ensures |page| == 1 && page[0].plaintext && page[0].body == text
  {
    [Block(Paragraph, "", text, true)]
  }

  /** `Scorpion::parse_content`. In plaintext mode the whole response is a
      single verbatim paragraph; otherwise it is a block stream, read with
      the client's loop, which reads nothing from a response of 6 bytes or
      fewer. */
  function ParseContent(cp: CodePage, response: seq<byte>, plaintext: bool): (r: Result<seq<Block>>)
    ensures plaintext ==> r == Ok(PlainPage(Decode(response)))
    ensures !plaintext && |response| <= 6 ==> r == Ok([])
    ensures !plaintext && r.Ok? ==> forall i :: 0 <= i < |r.value| ==> !r.value[i].plaintext
  {
    if plaintext then Ok(PlainPage(Decode(response)))
    else
      BlocksAsWritten(cp, response, 0)
  }

  /** The block stream read with the corrected loop, which also reads a
      final block of exactly 6 bytes. */
  function ParseContentCorrected(cp: CodePage, response: seq<byte>): (r: Result<seq<Block>>)
    ensures |response| < 6 ==> r == Ok([])
    ensures r.Ok? ==> forall i :: 0 <= i < |r.value| ==> !r.value[i].plaintext
  {
    Blocks(cp, response, 0)
  }

  /** The writer's side of the format: a block as type/encoding byte,
      attribute and body. */
  datatype Frame = Frame(kind: byte, attribute: seq<byte>, body: seq<byte>)

  predicate ValidFrame(f: Frame) {
    |f.attribute| < 0x1_0000 && |f.body| < 0x100_0000
  }

  function EncodeFrame(f: Frame): (b: seq<byte>)
    requires ValidFrame(f)
    ensures |b| == 6 + |f.attribute| + |f.body|
  {
    [f.kind] + ToBigEndian16(|f.attribute|) + f.attribute + ToBigEndian24(|f.body|) + f.body
  }

  function EncodeFrames(fs: seq<Frame>): (b: seq<byte>)
    requires forall i :: 0 <= i < |fs| ==> ValidFrame(fs[i])
  {
    if |fs| == 0 then [] else EncodeFrame(fs[0]) + EncodeFrames(fs[1..])
  }

  /** What a reader should make of one frame. */
  function DecodeFrame(cp: CodePage, f: Frame): Result<Block> {
    var body :- DecodeBody(EncodingOf(HighNibble(f.kind)), cp, f.body);
    Ok(Block(BlockTypeOf(LowNibble(f.kind)), Decode(f.attribute), body, false))
  }

  /** The frames read in order; the first fault stops the reading. */
  function DecodeFrames(cp: CodePage, fs: seq<Frame>): (r: Result<seq<Block>>)
    ensures r.Ok? ==> |r.value| == |fs|
  {
    if |fs| == 0 then Ok([])
    else
      var b :- DecodeFrame(cp, fs[0]);
      var rest :- DecodeFrames(cp, fs[1..]);
      Ok([b] + rest)
  }

  /** A frame inside a stream is read back field for field, and the reader
      resumes just after it. */
  lemma ReadBlockOfFrame(cp: CodePage, prefix: seq<byte>, f: Frame, suffix: seq<byte>)
    requires ValidFrame(f)
    ensures var data := prefix + EncodeFrame(f) + suffix;
      && (DecodeFrame(cp, f).Err? ==> ReadBlock(cp, data, |prefix|) == Err(DecodeFrame(cp, f).fault))
      && (DecodeFrame(cp, f).Ok? ==>
            ReadBlock(cp, data, |prefix|) == Ok((DecodeFrame(cp, f).value, |prefix| + |EncodeFrame(f)|)))
  {
    var data := prefix + EncodeFrame(f) + suffix;
    var o := |prefix|;
    var e := o + 3 + |f.attribute|;
    var end := e + 3 + |f.body|;
    ExtentOfFrame(prefix, f, suffix);
    FrameFields(prefix, f, suffix);
    assert data[o] == f.kind && data[o + 3..e] == f.attribute && data[e + 3..end] == f.body;
    ReadBlockAt(cp, data, o, e, end);
  }

  /** The block at `offset` once its extent is known: the fields are the
      slices the extent delimits. */
  lemma ReadBlockAt(cp: CodePage, data: seq<byte>, offset: nat, attributeEnd: nat, bodyEnd: nat)
    requires offset + 6 <= |data|
    requires Extent(data, offset) == Some((attributeEnd, bodyEnd))
    ensures var kind := data[offset];
      var body := DecodeBody(EncodingOf(HighNibble(kind)), cp, data[attributeEnd + 3..bodyEnd]);
      && (body.Err? ==> ReadBlock(cp, data, offset) == Err(body.fault))
      && (body.Ok? ==>
            ReadBlock(cp, data, offset) ==
            Ok((Block(BlockTypeOf(LowNibble(kind)), Decode(data[offset + 3..attributeEnd]), body.value, false), bodyEnd)))
  {
  }

  /** The length fields of a frame in a stream delimit its attribute and
      its body. */
  lemma ExtentOfFrame(prefix: seq<byte>, f: Frame, suffix: seq<byte>)
    requires ValidFrame(f)
    ensures var e := |prefix| + 3 + |f.attribute|;
      Extent(prefix + EncodeFrame(f) + suffix, |prefix|) == Some((e, e + 3 + |f.body|))
  {
    FrameLengths(prefix, f, suffix);
  }

  lemma FrameLengths(prefix: seq<byte>, f: Frame, suffix: seq<byte>)
    requires ValidFrame(f)
    ensures var data := prefix + EncodeFrame(f) + suffix;
      var o := |prefix|; var e := o + 3 + |f.attribute|;
      && |data| == o + 6 + |f.attribute| + |f.body| + |suffix|
      && BigEndian16(data[o + 1], data[o + 2]) == |f.attribute|
      && BigEndian24(data[e], data[e + 1], data[e + 2]) == |f.body|
  {
    var alen, blen := |f.attribute|, |f.body|;
    BigEndian16RoundTrip(alen);
    BigEndian24RoundTrip(blen);
    FrameFields(prefix, f, suffix);
  }

  /** Where each field of a frame sits in a stream. */
  lemma FrameFields(prefix: seq<byte>, f: Frame, suffix: seq<byte>)
    requires ValidFrame(f)
    ensures var data := prefix + EncodeFrame(f) + suffix;
      var o := |prefix|; var e := o + 3 + |f.attribute|;
      var a16 := ToBigEndian16(|f.attribute|); var b24 := ToBigEndian24(|f.body|);
      && |data| == o + 6 + |f.attribute| + |f.body| + |suffix|
      && data[o] == f.kind
      && data[o + 1] == a16[0] && data[o + 2] == a16[1]
      && data[o + 3..e] == f.attribute
      && data[e] == b24[0] && data[e + 1] == b24[1] && data[e + 2] == b24[2]
      && data[e + 3..e + 3 + |f.body|] == f.body
  {
    var data := prefix + EncodeFrame(f) + suffix;
    var o := |prefix|;
    var alen := |f.attribute|;
    var a16, b24 := ToBigEndian16(alen), ToBigEndian24(|f.body|);
    var e := o + 3 + alen;
    assert data == prefix + [f.kind] + a16 + f.attribute + b24 + f.body + suffix;
    assert data[o + 3..e] == f.attribute;
    assert data[e + 3..e + 3 + |f.body|] == f.body;
  }

  /** A stream of well-formed frames reads back as its frames. */
  lemma {:induction false} BlocksOfFrames(cp: CodePage, prefix: seq<byte>, fs: seq<Frame>)
    requires forall i :: 0 <= i < |fs| ==> ValidFrame(fs[i])
    ensures Blocks(cp, prefix + EncodeFrames(fs), |prefix|) == DecodeFrames(cp, fs)
    decreases |fs|
  {
    if |fs| == 0 {
      assert prefix + EncodeFrames(fs) == prefix;
    } else {
      var head := EncodeFrame(fs[0]);
      var tail := EncodeFrames(fs[1..]);
      var data := prefix + EncodeFrames(fs);
      assert EncodeFrames(fs) == head + tail;
      Strings.ConcatAssociative(prefix, head, tail);
      ReadBlockOfFrame(cp, prefix, fs[0], tail);
      BlocksStep(cp, data, |prefix|);
      if DecodeFrame(cp, fs[0]).Ok? {
        BlocksOfFrames(cp, prefix + head, fs[1..]);
      }
    }
  }

  /** One turn of the block loop. */
  lemma BlocksStep(cp: CodePage, data: seq<byte>, offset: nat)
    requires offset + 6 <= |data|
    ensures ReadBlock(cp, data, offset).Err? ==>
      Blocks(cp, data, offset) == Err(ReadBlock(cp, data, offset).fault)
    ensures ReadBlock(cp, data, offset).Ok? ==>
      var read := ReadBlock(cp, data, offset).value;
      var rest := Blocks(cp, data, read.1);
      && (rest.Err? ==> Blocks(cp, data, offset) == rest)
      && (rest.Ok? ==> Blocks(cp, data, offset) == Ok([read.0] + rest.value))
  {
  }

  /** Round trip for the corrected reader: a response made of well-formed
      frames parses to exactly the blocks those frames describe, with the
      same faults. */
  lemma ParseContentOfFrames(cp: CodePage, fs: seq<Frame>)
    requires forall i :: 0 <= i < |fs| ==> ValidFrame(fs[i])
    ensures ParseContentCorrected(cp, EncodeFrames(fs)) == DecodeFrames(cp, fs)
  {
    BlocksOfFrames(cp, [], fs);
    assert [] + EncodeFrames(fs) == EncodeFrames(fs);
  }

  /** A frame with neither attribute nor body: 6 bytes on the wire. */
  predicate EmptyFrame(f: Frame) {
    |f.attribute| == 0 && |f.body| == 0
  }

  /** The frames the client's loop reads: all of them, except a final
      empty one. */
  function WithoutFinalEmpty(fs: seq<Frame>): (r: seq<Frame>)
    ensures |fs| > 0 && EmptyFrame(fs[|fs| - 1]) ==> r == fs[..|fs| - 1]
    ensures |fs| == 0 || !EmptyFrame(fs[|fs| - 1]) ==> r == fs
  {
    if |fs| > 0 && EmptyFrame(fs[|fs| - 1]) then fs[..|fs| - 1] else fs
  }

  /** Round trip for the client's reader: a response made of well-formed
      frames parses to the blocks of all its frames but a final empty one,
      with the same faults. */
  lemma ParseContentAsWrittenOfFrames(cp: CodePage, fs: seq<Frame>)
    requires forall i :: 0 <= i < |fs| ==> ValidFrame(fs[i])
    ensures ParseContent(cp, EncodeFrames(fs), false) == DecodeFrames(cp, WithoutFinalEmpty(fs))
  {
    BlocksAsWrittenOfFrames(cp, [], fs);
    assert [] + EncodeFrames(fs) == EncodeFrames(fs);
  }

  /** The client's loop over a stream of well-formed frames. */
  lemma {:induction false} BlocksAsWrittenOfFrames(cp: CodePage, prefix: seq<byte>, fs: seq<Frame>)
    requires forall i :: 0 <= i < |fs| ==> ValidFrame(fs[i])
    ensures BlocksAsWritten(cp, prefix + EncodeFrames(fs), |prefix|) == DecodeFrames(cp, WithoutFinalEmpty(fs))
    decreases |fs|
  {
    if |fs| == 0 {
      assert prefix + EncodeFrames(fs) == prefix;
    } else {
      var head := EncodeFrame(fs[0]);
      var tail := EncodeFrames(fs[1..]);
      var data := prefix + EncodeFrames(fs);
      assert EncodeFrames(fs) == head + tail;
      Strings.ConcatAssociative(prefix, head, tail);
      EncodedLength(fs[1..]);
      if |fs| == 1 && EmptyFrame(fs[0]) {
        assert WithoutFinalEmpty(fs) == [];
      } else {
        ReadBlockOfFrame(cp, prefix, fs[0], tail);
        BlocksAsWrittenStep(cp, data, |prefix|);
        WithoutFinalEmptyCons(fs);
        var kept := WithoutFinalEmpty(fs[1..]);
        DecodeFramesCons(cp, fs[0], kept);
        if DecodeFrame(cp, fs[0]).Ok? {
          BlocksAsWrittenOfFrames(cp, prefix + head, fs[1..]);
          assert BlocksAsWritten(cp, data, |prefix + head|) == DecodeFrames(cp, kept);
        }
      }
    }
  }

  /** Reading a stream of frames one frame at a time. */
  lemma DecodeFramesCons(cp: CodePage, f: Frame, rest: seq<Frame>)
    ensures DecodeFrame(cp, f).Err? ==> DecodeFrames(cp, [f] + rest) == Err(DecodeFrame(cp, f).fault)
    ensures DecodeFrame(cp, f).Ok? ==>
      DecodeFrames(cp, [f] + rest) == (
        if DecodeFrames(cp, rest).Ok? then Ok([DecodeFrame(cp, f).value] + DecodeFrames(cp, rest).value)
        else DecodeFrames(cp, rest))
  {
    assert ([f] + rest)[0] == f;
    assert ([f] + rest)[1..] == rest;
  }

  lemma {:induction false} EncodedLength(fs: seq<Frame>)
    requires forall i :: 0 <= i < |fs| ==> ValidFrame(fs[i])
    ensures |EncodeFrames(fs)| >= 6 * |fs|
    decreases |fs|
  {
    if |fs| > 0 {
      EncodedLength(fs[1..]);
    }
  }

  /** Away from the end, dropping a final empty frame keeps the first. */
  lemma WithoutFinalEmptyCons(fs: seq<Frame>)
    requires |fs| > 1 || (|fs| == 1 && !EmptyFrame(fs[0]))
    ensures WithoutFinalEmpty(fs) == [fs[0]] + WithoutFinalEmpty(fs[1..])
  {
    if |fs| > 1 {
      assert fs[1..][|fs| - 2] == fs[|fs| - 1];
      assert fs[..|fs| - 1] == [fs[0]] + fs[1..][..|fs| - 2];
    } else {
      assert fs == [fs[0]] + fs[1..];
    }
  }

  /** One turn of the client's loop. */
  lemma BlocksAsWrittenStep(cp: CodePage, data: seq<byte>, offset: nat)
    requires offset + 6 < |data|
    ensures ReadBlock(cp, data, offset).Err? ==>
      BlocksAsWritten(cp, data, offset) == Err(ReadBlock(cp, data, offset).fault)
    ensures ReadBlock(cp, data, offset).Ok? ==>
      var read := ReadBlock(cp, data, offset).value;
      var rest := BlocksAsWritten(cp, data, read.1);
      && (rest.Err? ==> BlocksAsWritten(cp, data, offset) == rest)
      && (rest.Ok? ==> BlocksAsWritten(cp, data, offset) == Ok([read.0] + rest.value))
  {
  }

  /** A 6-byte response whose attribute length runs past its end: the
      client's loop never looks at it, while the corrected loop reads it and
      finds it truncated (where the client would panic). */
  lemma OverrunTailIgnored(cp: CodePage)
    ensures ParseContent(cp, [0, 0, 5, 0, 0, 0], false) == Ok([])
    ensures ParseContentCorrected(cp, [0, 0, 5, 0, 0, 0]) == Err(ScorpionTruncated)
  {
    var data: seq<byte> := [0, 0, 5, 0, 0, 0];
    assert BigEndian16(data[1], data[2]) == 5;
    assert Extent(data, 0).None?;
  }

  /** The client's loop drops a final empty paragraph: the 6-byte response
      that encodes one block reads as no block at all. */
  lemma EmptyFinalBlockDropped(cp: CodePage)
    ensures var data := EncodeFrame(Frame(0, [], []));
      && |data| == 6
      && BlocksAsWritten(cp, data, 0) == Ok([])
      && Blocks(cp, data, 0) == Ok([Block(Paragraph, "", "", false)])
  {
    var empty := Frame(0, [], []);
    var data := EncodeFrame(empty);
    var blk := Block(Paragraph, "", "", false);
    assert EncodeFrames([empty]) == data by {
      assert [empty][1..] == [];
    }
    BlocksOfFrames(cp, [], [empty]);
    assert [] + data == data;
    assert HighNibble(0) == 0 && LowNibble(0) == 0;
    assert DecodeFrame(cp, empty) == Ok(blk) by {
      var zero: seq<byte> := [];
      assert DecodeBody(Tron8, cp, zero) == Ok("");
    }
    assert DecodeFrames(cp, [empty]) == Ok([blk]) by {
      assert [empty][1..] == [];
      assert [blk] + [] == [blk];
    }
  }
}
