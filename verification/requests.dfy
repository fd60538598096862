/** The per-protocol request line, the TLS flag and the plaintext override
    that `Breeze::navigate` computes before handing a fetch to the network
    layer. */
module Requests {
  import opened Wrappers
  import opened Strings
  import opened Urls
  import opened Protocols

  /** What the background fetch is started with: the request body (the
      network layer appends CR LF), whether to use TLS, and the port it
      connects to. */
  datatype Request = Request(body: string, ssl: bool, port: nat)

  /** An empty path is sent as "/". */
  function NormalisedPath(u: Url): (path: string)
    ensures |path| > 0
    ensures u.path != "" ==> path == u.path
  {
    if u.path == "" then "/" else u.path
  }

  /** The Gopher search suffix: a tab and the query, when there is one. */
  function GopherQuery(u: Url): string {
    match u.query
    case None => ""
    case Some(q) => ['\t'] + q
  }

  /** The Spartan request tail: the query's byte length, a line feed and the
      query itself, or "0" without a query. */
  function SpartanQuery(query: Option<string>): string {
    match query
    case None => "0"
    case Some(q) => Decimal(Utf8Length(q)) + "\n" + q
  }

  /** Whether the protocol is spoken over TLS. */
  predicate UsesTls(p: Protocol) {
    p == Gemini || p == Scroll || p == Gopher(true)
  }

  /** The request body and TLS flag for a URL. A URL without a host
      aborts at `host_str().expect(..)` before the protocol is looked at; a
      protocol missing from the request table reaches `unreachable!()`. */
  function BuildRequest(u: Url): (r: Result<Request>)
    ensures r.Err? <==> u.host.None? || FromUrl(u) == Unknown
    ensures r.Err? ==> r.fault == (if u.host.None? then MissingHost else UnlistedProtocol)
    ensures r.Ok? ==> r.value.ssl == UsesTls(FromUrl(u))
    ensures r.Ok? ==> r.value.port == EffectivePort(u, FromUrl(u))
  {
    if u.host.None? then Err(MissingHost)
    else
      var url := ToString(u);
      var path := NormalisedPath(u);
      var p := FromUrl(u);
      var port := EffectivePort(u, p);
      match p
      case Finger =>
        var body := if StartsWith(path, "/") then path[1..] else path;
        Ok(Request(body, false, port))
      case Gemini => Ok(Request(url, true, port))
      case Gopher(secure) => Ok(Request(path + GopherQuery(u), secure, port))
      case Guppy => Ok(Request(url, false, port))
      case Nex => Ok(Request(path, false, port))
      case Scorpion => Ok(Request("R " + url, false, port))
      case Scroll => Ok(Request(url + " en", true, port))
      case Spartan => Ok(Request(u.host.value + " " + path + " " + SpartanQuery(u.query), false, port))
      case TextProtocol => Ok(Request(url, false, port))
      case Plaintext => Err(UnlistedProtocol)
      case Unknown => Err(UnlistedProtocol)
  }

  /** The plaintext override: the hint asks for it, or the URL ends in
      ".txt" (including any query). */
  predicate PlaintextOverride(u: Url, hint: Option<Protocol>) {
    hint == Some(Plaintext) || EndsWith(ToString(u), ".txt")
  }

  /** Gemini, Guppy and the text protocol send the whole URL; Scorpion
      prefixes it with "R "; Scroll appends the language tag " en". */
  lemma UrlCarryingRequests(u: Url)
    requires u.host.Some?
    requires FromUrl(u) in {Gemini, Guppy, TextProtocol, Scorpion, Scroll}
    ensures var body := BuildRequest(u).value.body;
      && (FromUrl(u) in {Gemini, Guppy, TextProtocol} ==> body == ToString(u))
      && (FromUrl(u) == Scorpion ==> StartsWith(body, "R ") && body[2..] == ToString(u))
      && (FromUrl(u) == Scroll ==> EndsWith(body, " en") && body[..|body| - 3] == ToString(u))
  {
    RequestBody(u);
    var body := BuildRequest(u).value.body;
    var url := ToString(u);
    if FromUrl(u) == Scorpion {
      assert body == "R " + url;
      assert body[..2] == "R ";
    }
    if FromUrl(u) == Scroll {
      assert body == url + " en";
      assert body[|body| - 3..] == " en";
    }
  }

  /** Finger sends the path with at most one leading '/' removed; putting
      it back gives the path. */
  lemma FingerRequestIsPath(u: Url)
    requires u.host.Some? && FromUrl(u) == Finger
    ensures var body := BuildRequest(u).value.body;
      if StartsWith(NormalisedPath(u), "/") then "/" + body == NormalisedPath(u)
      else body == NormalisedPath(u)
  {
    RequestBody(u);
    var path := NormalisedPath(u);
    if StartsWith(path, "/") {
      assert path == path[..1] + path[1..];
    }
  }

  /** The Gopher selector line splits at tabs back into the path and the
      query, when neither contains a tab. */
  lemma GopherRequestFields(u: Url)
    requires u.host.Some? && FromUrl(u).Gopher?
    requires '\t' !in NormalisedPath(u)
    requires u.query.Some? ==> '\t' !in u.query.value
    ensures u.query.None? ==> Split(BuildRequest(u).value.body, '\t') == [NormalisedPath(u)]
    ensures u.query.Some? ==>
      Split(BuildRequest(u).value.body, '\t') == [NormalisedPath(u), u.query.value]
  {
    RequestBody(u);
    match u.query
    case None => SplitWithoutSeparator(NormalisedPath(u), '\t');
    case Some(q) => SplitAtSeparator(NormalisedPath(u), '\t', q);
  }

  lemma SplitWithoutSeparator(s: string, c: char)
    requires c !in s
    ensures Split(s + "", c) == [s]
  {
    assert s + "" == s;
  }

  lemma SplitAtSeparator(a: string, c: char, b: string)
    requires c !in a && c !in b
    ensures Split(a + ([c] + b), c) == [a, b]
  {
    assert a + ([c] + b) == a + [c] + b;
    SplitOnceOfConcat(a, c, b);
  }

  /** The request body of each protocol, as the request table writes it. */
  lemma RequestBody(u: Url)
    requires u.host.Some? && FromUrl(u) != Unknown
    ensures var body := BuildRequest(u).value.body;
      var url := ToString(u); var path := NormalisedPath(u);
      && (FromUrl(u) == Finger ==> body == if StartsWith(path, "/") then path[1..] else path)
      && (FromUrl(u) in {Gemini, Guppy, TextProtocol} ==> body == url)
      && (FromUrl(u).Gopher? ==> body == path + GopherQuery(u))
      && (FromUrl(u) == Nex ==> body == path)
      && (FromUrl(u) == Scorpion ==> body == "R " + url)
      && (FromUrl(u) == Scroll ==> body == url + " en")
  {
  }

  /** The Spartan request: host, path and query tail, separated by
      spaces. */
  lemma SpartanBody(u: Url)
    requires u.host.Some? && FromUrl(u) == Spartan
    ensures BuildRequest(u).value.body == u.host.value + [' '] + (NormalisedPath(u) + [' '] + SpartanQuery(u.query))
  {
    var host, path, tail := u.host.value, NormalisedPath(u), SpartanQuery(u.query);
    assert BuildRequest(u).value.body == ((host + [' ']) + path + [' ']) + tail;
    ConcatAssociative(host + [' '], path, [' ']);
    ConcatAssociative(host + [' '], path + [' '], tail);
  }

  /** Reads the tail of a Spartan request back into the query: "0" for
      none, or a byte length, a line feed and exactly that many bytes. */
  function ParseSpartanTail(tail: string): Option<Option<string>> {
    match SplitOnce(tail, '\n')
    case None => if tail == "0" then Some(None) else None
    case Some((count, q)) =>
      if |count| > 0 && (forall i :: 0 <= i < |count| ==> IsDigit(count[i]))
         && DigitsValue(count) == Utf8Length(q)
      then Some(Some(q))
      else None
  }

  /** Reads a Spartan request line back into host, path and query: the
      first two fields end at a space, and the rest is the query tail. */
  function ParseSpartanRequest(body: string): Option<(string, string, Option<string>)> {
    match SplitOnce(body, ' ')
    case None => None
    case Some((host, rest)) =>
      match SplitOnce(rest, ' ')
      case None => None
      case Some((path, tail)) =>
        match ParseSpartanTail(tail)
        case None => None
        case Some(query) => Some((host, path, query))
  }

  /** The query tail reads back as the query it was written from. */
  lemma SpartanTailRoundTrip(query: Option<string>)
    ensures ParseSpartanTail(SpartanQuery(query)) == Some(query)
  {
    match query
    case None =>
    case Some(q) =>
      var count := Decimal(Utf8Length(q));
      assert '\n' !in count by {
        assert forall i :: 0 <= i < |count| ==> IsDigit(count[i]);
      }
      SplitOnceOfConcat(count, '\n', q);
      DigitsValueOfDecimal(Utf8Length(q));
  }

  /** The Spartan request line determines host, path and query: it can be
      read back whenever host and path hold no space. */
  lemma SpartanRequestRoundTrip(u: Url)
    requires u.host.Some? && FromUrl(u) == Spartan
    requires ' ' !in u.host.value && ' ' !in NormalisedPath(u)
    ensures ParseSpartanRequest(BuildRequest(u).value.body)
      == Some((u.host.value, NormalisedPath(u), u.query))
  {
    var host, path, tail := u.host.value, NormalisedPath(u), SpartanQuery(u.query);
    SpartanBody(u);
    SplitOnceOfConcat(host, ' ', path + [' '] + tail);
    SplitOnceOfConcat(path, ' ', tail);
    SpartanTailRoundTrip(u.query);
  }
}
