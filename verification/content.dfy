/** The client's content handlers: one page store per content format, and
    the dispatch that hands a page to the store its protocol selects. */
module Content {
  import opened Wrappers
  import opened Bytes
  import opened Strings
  import P = Protocols
  import Gemtext
  import Gopher
  import Nex
  import ScorpionBlocks

  /** What reaches a handler: the bytes of a response, or a message the
      client composes itself (an error page, a certificate notice). A message
      is handed over as its UTF-8 bytes and read back by the lossy decoder,
      which returns it unchanged, so it is carried here as text. */
  datatype Payload = Response(bytes: seq<byte>) | Message(text: string)

  /** The text a handler reads from the payload. */
  function Text(payload: Payload): (t: string)
    ensures payload.Response? ==> |t| == |payload.bytes|
  {
    match payload
    case Response(b) => Decode(b)
    case Message(t) => t
  }

  /** The page stores, one per handler. */
  datatype Handlers = Handlers(
    finger: string,
    gemtext: Gemtext.Store,
    gopher: seq<Gopher.GopherLine>,
    nex: seq<Nex.NexLine>,
    scorpion: seq<ScorpionBlocks.Block>,
    plaintext: string)

  /** The stores when the client starts. */
  const Initial := Handlers("", Gemtext.Store([], false), [], [], [], "")

  datatype Handler =
    | FingerHandler
    | GemtextHandler
    | GopherHandler
    | NexHandler
    | ScorpionHandler
    | PlaintextHandler

  /** The handler a protocol's pages go to. The Gemini family shares the
      Gemtext handler; everything not listed, the text protocol included,
      is shown as plain text. */
  function HandlerFor(p: P.Protocol): (k: Handler)
    ensures k == GemtextHandler <==> p == P.Gemini || p == P.Spartan || p == P.Guppy || p == P.Scroll
    ensures k == PlaintextHandler <==> p == P.Plaintext || p == P.TextProtocol || p == P.Unknown
    ensures k == GopherHandler <==> p.Gopher?
    ensures k == FingerHandler <==> p == P.Finger
    ensures k == NexHandler <==> p == P.Nex
    ensures k == ScorpionHandler <==> p == P.Scorpion
  {
    match p
    case Finger => FingerHandler
    case Gemini => GemtextHandler
    case Spartan => GemtextHandler
    case Guppy => GemtextHandler
    case Scroll => GemtextHandler
    case Gopher(_) => GopherHandler
    case Nex => NexHandler
    case Scorpion => ScorpionHandler
    case _ => PlaintextHandler
  }

  /** Every store other than that of handler `k` is the same in `a` and `b`. */
  predicate SameExcept(a: Handlers, b: Handlers, k: Handler) {
    && (k != FingerHandler ==> a.finger == b.finger)
    && (k != GemtextHandler ==> a.gemtext == b.gemtext)
    && (k != GopherHandler ==> a.gopher == b.gopher)
    && (k != NexHandler ==> a.nex == b.nex)
    && (k != ScorpionHandler ==> a.scorpion == b.scorpion)
    && (k != PlaintextHandler ==> a.plaintext == b.plaintext)
  }

  /** The Scorpion handler's reading of a payload. A message always comes
      with the plaintext flag, so only response bytes are ever split into
      blocks. */
  function ScorpionPage(cp: ScorpionBlocks.CodePage, payload: Payload, plaintext: bool): (r: Result<seq<ScorpionBlocks.Block>>)
    requires payload.Message? ==> plaintext
    ensures plaintext ==> r == Ok(ScorpionBlocks.PlainPage(Text(payload)))
    ensures !plaintext ==> r == ScorpionBlocks.ParseContent(cp, payload.bytes, false)
  {
    match payload
    case Response(b) => ScorpionBlocks.ParseContent(cp, b, plaintext)
    case Message(t) => Ok(ScorpionBlocks.PlainPage(t))
  }

  /** `ContentHandlers::parse_content`: the page replaces the store of the
      handler its protocol selects and no other. Only the Gopher and
      Scorpion readers can fault, and only outside plaintext mode. */
  function ParseContent(h: Handlers, cp: ScorpionBlocks.CodePage, payload: Payload, plaintext: bool, p: P.Protocol): (r: Result<Handlers>)
    requires payload.Message? ==> plaintext
    ensures r.Ok? ==> SameExcept(r.value, h, HandlerFor(p))
    ensures r.Err? ==> !plaintext && (p.Gopher? || p == P.Scorpion)
    ensures HandlerFor(p) == FingerHandler ==> r == Ok(h.(finger := Text(payload)))
    ensures HandlerFor(p) == PlaintextHandler ==> r == Ok(h.(plaintext := Text(payload)))
    ensures HandlerFor(p) == GemtextHandler ==>
      r == Ok(h.(gemtext := Gemtext.ParseContent(h.gemtext, Text(payload), plaintext)))
    ensures HandlerFor(p) == NexHandler ==> r == Ok(h.(nex := Nex.ParseContent(Text(payload), plaintext)))
    ensures HandlerFor(p) == GopherHandler ==>
      && (r.Ok? <==> Gopher.ParseContent(Text(payload), plaintext).Ok?)
      && (r.Ok? ==> r.value == h.(gopher := Gopher.ParseContent(Text(payload), plaintext).value))
    ensures HandlerFor(p) == ScorpionHandler ==>
      && (r.Ok? <==> ScorpionPage(cp, payload, plaintext).Ok?)
      && (r.Ok? ==> r.value == h.(scorpion := ScorpionPage(cp, payload, plaintext).value))
  {
    match HandlerFor(p)
    case FingerHandler => Ok(h.(finger := Text(payload)))
    case GemtextHandler => Ok(h.(gemtext := Gemtext.ParseContent(h.gemtext, Text(payload), plaintext)))
    case GopherHandler =>
      var lines :- Gopher.ParseContent(Text(payload), plaintext);
      Ok(h.(gopher := lines))
    case NexHandler => Ok(h.(nex := Nex.ParseContent(Text(payload), plaintext)))
    case ScorpionHandler =>
      var blocks :- ScorpionPage(cp, payload, plaintext);
      Ok(h.(scorpion := blocks))
    case PlaintextHandler => Ok(h.(plaintext := Text(payload)))
  }

  /** A page load leaves no trace of the page before it: two handler states
      that differ only in the selected store give the same result. The
      Gemtext store's preformatting flag is reset on every load. */
  lemma PageLoadReplaces(h1: Handlers, h2: Handlers, cp: ScorpionBlocks.CodePage, payload: Payload, plaintext: bool, p: P.Protocol)
    requires payload.Message? ==> plaintext
    requires SameExcept(h1, h2, HandlerFor(p))
    ensures ParseContent(h1, cp, payload, plaintext, p) == ParseContent(h2, cp, payload, plaintext, p)
  {
    if HandlerFor(p) == GemtextHandler {
      Gemtext.PreformatDoesNotLeak(h1.gemtext, h2.gemtext, Text(payload), plaintext);
    }
  }

  /** Loading the same page twice is the same as loading it once. */
  lemma ParseContentIdempotent(h: Handlers, cp: ScorpionBlocks.CodePage, payload: Payload, plaintext: bool, p: P.Protocol)
    requires payload.Message? ==> plaintext
    requires ParseContent(h, cp, payload, plaintext, p).Ok?
    ensures var h' := ParseContent(h, cp, payload, plaintext, p).value;
      ParseContent(h', cp, payload, plaintext, p) == Ok(h')
  {
    var h' := ParseContent(h, cp, payload, plaintext, p).value;
    PageLoadReplaces(h', h, cp, payload, plaintext, p);
  }

  /** A message and the response bytes that spell it are shown alike: the
      client's own messages are read exactly as a server's page would be. */
  lemma MessageIsResponseText(h: Handlers, cp: ScorpionBlocks.CodePage, t: string, p: P.Protocol)
    requires forall i :: 0 <= i < |t| ==> t[i] as int < 256
    ensures ParseContent(h, cp, Response(Encode(t)), true, p) == ParseContent(h, cp, Message(t), true, p)
  {
    assert Text(Response(Encode(t))) == t;
  }

  /** The Finger and plain-text handlers show a response exactly as
      received, whatever the plaintext flag says: re-encoding the store gives
      back the response bytes. */
  lemma RawHandlersShowResponse(h: Handlers, cp: ScorpionBlocks.CodePage, b: seq<byte>, plaintext: bool, p: P.Protocol)
    requires HandlerFor(p) in {FingerHandler, PlaintextHandler}
    ensures var r := ParseContent(h, cp, Response(b), plaintext, p);
      && r == ParseContent(h, cp, Response(b), !plaintext, p)
      && r.Ok?
      && Encode(if p == P.Finger then r.value.finger else r.value.plaintext) == b
  {
    EncodeDecode(b);
  }

  /** A message never faults, and lands whole in one entry of the selected
      store; the line-based handlers drop "." lines and carriage returns. */
  lemma MessageShown(h: Handlers, cp: ScorpionBlocks.CodePage, msg: string, p: P.Protocol)
    ensures var r := ParseContent(h, cp, Message(msg), true, p);
      && r.Ok?
      && (HandlerFor(p) == FingerHandler ==> r.value.finger == msg)
      && (HandlerFor(p) == PlaintextHandler ==> r.value.plaintext == msg)
      && (HandlerFor(p) == NexHandler ==> r.value.nex == [Nex.FromStr(msg)])
      && (HandlerFor(p) == ScorpionHandler ==> r.value.scorpion == ScorpionBlocks.PlainPage(msg))
      && (HandlerFor(p) == GopherHandler ==>
            r.value.gopher == [Gopher.InfoLine(Join(WithoutDots(Lines(msg)), "\n"))])
      && (HandlerFor(p) == GemtextHandler ==>
            |r.value.gemtext.lines| == 1 && r.value.gemtext.lines[0].content == Join(WithoutDots(Lines(msg)), "\n"))
  {
  }
}
