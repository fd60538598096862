/** Status-line parsing: one closed status type per protocol family, the
    split of a raw response into status line and body, and the status
    line's code and meta text. */
module Status {
  import opened Wrappers
  import opened Strings
  import opened Bytes
  import opened Protocols

  /** Gemini statuses; Scroll shares this code space and its 21-29. */
  datatype GeminiStatus =
    | InputExpected(prompt: string, sensitive: bool)
    | Success(mime: string)
    | TemporaryRedirect(target: string)
    | PermanentRedirect(target: string)
    | TemporaryFailure(info: string)
    | ServerUnavailable(info: string)
    | CgiError(info: string)
    | ProxyError(info: string)
    | SlowDown(info: string)
    | PermanentFailure(info: string)
    | NotFound(info: string)
    | Gone(info: string)
    | ProxyRequestRefused(info: string)
    | BadRequest(info: string)
    | RequiresClientCertificate
    | CertificateNotAuthorized
    | CertificateNotValid

  datatype SpartanStatus =
    | Success(mime: string)
    | Redirect(target: string)
    | ClientError(info: string)
    | ServerError(info: string)

  datatype ScorpionStatus =
    | Interactive
    | InputRequired
    | OK
    | PartialOK
    | TemporaryRedirect(target: string)
    | PermanentRedirect(target: string)
    | TemporaryError
    | DownForMaintenance
    | DynamicFileError
    | ProxyError
    | SlowDown
    | TemporarilyLockedFile
    | PermanentError(info: string)
    | FileNotFound(info: string)
    | FileRemoved(info: string)
    | ProxyRequestRefused
    | Forbidden
    | EditConflict
    | CredentialsRequired
    | BadRequest
    | RequiresClientCertificate
    | CertificateNotAuthorized
    | CertificateNotValid
    | ReadyNewFile
    | ReadyModifyFile
    | ReadyOther
    | AcceptedNewFile
    | AcceptedFileModified
    | AcceptedOther

  datatype TextStatus =
    | OK(mime: string)
    | Redirect(target: string)
    | NOK(info: string)

  /** The status of a response, tagged with the family that parsed it.
      `GenericSuccess` is the synthetic status of Guppy and of the
      protocols without a status line. */
  datatype ServerStatus =
    | GeminiFamily(gemini: GeminiStatus)
    | ScorpionFamily(scorpion: ScorpionStatus)
    | SpartanFamily(spartan: SpartanStatus)
    | TextFamily(text: TextStatus)
    | GenericSuccess(mime: string)

  datatype ServerResponse = ServerResponse(content: seq<byte>, status: ServerStatus)

  /** A status line is a code, one space, and meta text that may itself
      contain spaces (and keeps a trailing '\r'). */
  function StatusParts(line: string): (r: Result<(string, string)>)
    ensures r.Ok? ==> line == r.value.0 + " " + r.value.1 && ' ' !in r.value.0
    ensures r.Err? <==> ' ' !in line
    ensures r.Err? ==> r.fault == MissingStatusSeparator(line)
  {
    match SplitOnce(line, ' ')
    case None => Err(MissingStatusSeparator(line))
    case Some(parts) => Ok(parts)
  }

  // ---------------------------------------------------------------- Gemini

  const GeminiCodes: set<string> :=
    {"10", "11", "20", "21", "22", "23", "24", "25", "26", "27", "28", "29",
     "30", "31", "40", "41", "42", "43", "44", "50", "51", "52", "53", "59",
     "60", "61", "62"}

  function GeminiFromCode(code: string, meta: string): (r: Option<GeminiStatus>)
    ensures r.Some? <==> code in GeminiCodes
    ensures r.Some? ==> GeminiCode(r.value) == if r.value.Success? then "20" else code
    ensures r.Some? ==> GeminiPayload(r.value) == (if code in {"60", "61", "62"} then None else Some(meta))
  {
    match code
    case "10" => Some(GeminiStatus.InputExpected(meta, false))
    case "11" => Some(GeminiStatus.InputExpected(meta, true))
    case "20" => Some(GeminiStatus.Success(meta))
    case "21" => Some(GeminiStatus.Success(meta))
    case "22" => Some(GeminiStatus.Success(meta))
    case "23" => Some(GeminiStatus.Success(meta))
    case "24" => Some(GeminiStatus.Success(meta))
    case "25" => Some(GeminiStatus.Success(meta))
    case "26" => Some(GeminiStatus.Success(meta))
    case "27" => Some(GeminiStatus.Success(meta))
    case "28" => Some(GeminiStatus.Success(meta))
    case "29" => Some(GeminiStatus.Success(meta))
    case "30" => Some(GeminiStatus.TemporaryRedirect(meta))
    case "31" => Some(GeminiStatus.PermanentRedirect(meta))
    case "40" => Some(GeminiStatus.TemporaryFailure(meta))
    case "41" => Some(GeminiStatus.ServerUnavailable(meta))
    case "42" => Some(GeminiStatus.CgiError(meta))
    case "43" => Some(GeminiStatus.ProxyError(meta))
    case "44" => Some(GeminiStatus.SlowDown(meta))
    case "50" => Some(GeminiStatus.PermanentFailure(meta))
    case "51" => Some(GeminiStatus.NotFound(meta))
    case "52" => Some(GeminiStatus.Gone(meta))
    case "53" => Some(GeminiStatus.ProxyRequestRefused(meta))
    case "59" => Some(GeminiStatus.BadRequest(meta))
    case "60" => Some(GeminiStatus.RequiresClientCertificate)
    case "61" => Some(GeminiStatus.CertificateNotAuthorized)
    case "62" => Some(GeminiStatus.CertificateNotValid)
    case _ => None
  }

  /** The text a Gemini status carries, if any. */
  function GeminiPayload(st: GeminiStatus): Option<string> {
    match st
    case InputExpected(prompt, _) => Some(prompt)
    case Success(mime) => Some(mime)
    case TemporaryRedirect(t) => Some(t)
    case PermanentRedirect(t) => Some(t)
    case RequiresClientCertificate => None
    case CertificateNotAuthorized => None
    case CertificateNotValid => None
    case _ => Some(st.info)
  }

  /** `GeminiStatus::from`: a fault for a line without a space or with a
      code outside the table; otherwise the status, carrying the meta text
      unless the code is 60, 61 or 62. */
  function ParseGemini(line: string): (r: Result<GeminiStatus>)
    ensures r.Ok? <==> StatusParts(line).Ok? && StatusParts(line).value.0 in GeminiCodes
    ensures r.Ok? ==> var (code, meta) := StatusParts(line).value;
      GeminiPayload(r.value) == (if code in {"60", "61", "62"} then None else Some(meta))
    ensures r.Ok? ==> GeminiCode(r.value) == if r.value.Success? then "20" else StatusParts(line).value.0
    ensures r.Err? && StatusParts(line).Ok? ==> r.fault == UnknownStatusCode(StatusParts(line).value.0)
  {
    var (code, meta) :- StatusParts(line);
    match GeminiFromCode(code, meta)
    case None => Err(UnknownStatusCode(code))
    case Some(st) => Ok(st)
  }

  /** The canonical code of a Gemini status (20 for every success). */
  function GeminiCode(st: GeminiStatus): string {
    match st
    case InputExpected(_, sensitive) => if sensitive then "11" else "10"
    case Success(_) => "20"
    case TemporaryRedirect(_) => "30"
    case PermanentRedirect(_) => "31"
    case TemporaryFailure(_) => "40"
    case ServerUnavailable(_) => "41"
    case CgiError(_) => "42"
    case ProxyError(_) => "43"
    case SlowDown(_) => "44"
    case PermanentFailure(_) => "50"
    case NotFound(_) => "51"
    case Gone(_) => "52"
    case ProxyRequestRefused(_) => "53"
    case BadRequest(_) => "59"
    case RequiresClientCertificate => "60"
    case CertificateNotAuthorized => "61"
    case CertificateNotValid => "62"
  }

  /** Writing a status line for any Gemini status and parsing it gives the
      status back. */
  lemma GeminiRoundTrip(st: GeminiStatus)
    ensures ParseGemini(GeminiCode(st) + " " + GeminiPayload(st).GetOr("")) == Ok(st)
  {
    var code := GeminiCode(st);
    var meta := GeminiPayload(st).GetOr("");
    var line := code + " " + meta;
    SplitOnceOfConcat(code, ' ', meta);
    assert StatusParts(line) == Ok((code, meta));
    GeminiFromCodeOfCode(st);
  }

  lemma GeminiFromCodeOfCode(st: GeminiStatus)
    ensures GeminiFromCode(GeminiCode(st), GeminiPayload(st).GetOr("")) == Some(st)
  {
    var code := GeminiCode(st);
    var meta := GeminiPayload(st).GetOr("");
    {
      match st
      case InputExpected(_, _) =>
      case Success(_) =>
      case TemporaryRedirect(_) =>
      case PermanentRedirect(_) =>
      case TemporaryFailure(_) =>
      case ServerUnavailable(_) =>
      case CgiError(_) =>
      case ProxyError(_) =>
      case SlowDown(_) =>
      case PermanentFailure(_) =>
      case NotFound(_) =>
      case Gone(_) =>
      case ProxyRequestRefused(_) =>
      case BadRequest(_) =>
      case RequiresClientCertificate =>
      case CertificateNotAuthorized =>
      case CertificateNotValid =>
    }
  }

  /** Every code 20 through 29 is a success carrying the meta text. */
  lemma GeminiSuccessRange(d: char, meta: string)
    requires '0' <= d <= '9'
    ensures ParseGemini(['2', d] + " " + meta) == Ok(GeminiStatus.Success(meta))
  {
    SplitOnceOfConcat(['2', d], ' ', meta);
  }

  // --------------------------------------------------------------- Spartan

  const SpartanCodes: set<string> := {"2", "3", "4", "5"}

  /** `SpartanStatus::from`: single-digit codes 2 to 5, each carrying the
      meta text. */
  function ParseSpartan(line: string): (r: Result<SpartanStatus>)
    ensures r.Ok? <==> StatusParts(line).Ok? && StatusParts(line).value.0 in SpartanCodes
    ensures r.Ok? ==> r.value == match StatusParts(line).value.0
      case "2" => SpartanStatus.Success(StatusParts(line).value.1)
      case "3" => SpartanStatus.Redirect(StatusParts(line).value.1)
      case "4" => SpartanStatus.ClientError(StatusParts(line).value.1)
      case _ => SpartanStatus.ServerError(StatusParts(line).value.1)
  {
    var (code, meta) :- StatusParts(line);
    match code
    case "2" => Ok(SpartanStatus.Success(meta))
    case "3" => Ok(SpartanStatus.Redirect(meta))
    case "4" => Ok(SpartanStatus.ClientError(meta))
    case "5" => Ok(SpartanStatus.ServerError(meta))
    case _ => Err(UnknownStatusCode(code))
  }

  /** The code a Spartan server writes for each status. */
  function SpartanCode(st: SpartanStatus): string {
    match st
    case Success(_) => "2"
    case Redirect(_) => "3"
    case ClientError(_) => "4"
    case ServerError(_) => "5"
  }

  function SpartanMeta(st: SpartanStatus): string {
    match st
    case Success(mime) => mime
    case Redirect(target) => target
    case ClientError(info) => info
    case ServerError(info) => info
  }

  /** Writing a status line for any Spartan status and parsing it gives
      the status back. */
  lemma SpartanRoundTrip(st: SpartanStatus)
    ensures ParseSpartan(SpartanCode(st) + " " + SpartanMeta(st)) == Ok(st)
  {
    SplitOnceOfConcat(SpartanCode(st), ' ', SpartanMeta(st));
  }

  // ---------------------------------------------------------- TextProtocol

  const TextCodes: set<string> := {"20", "30", "40"}

  /** `TextProtocolStatus::from`: 20, 30 and 40, each carrying the meta
      text. */
  function ParseText(line: string): (r: Result<TextStatus>)
    ensures r.Ok? <==> StatusParts(line).Ok? && StatusParts(line).value.0 in TextCodes
    ensures r.Ok? ==> r.value == match StatusParts(line).value.0
      case "20" => TextStatus.OK(StatusParts(line).value.1)
      case "30" => TextStatus.Redirect(StatusParts(line).value.1)
      case _ => TextStatus.NOK(StatusParts(line).value.1)
  {
    var (code, meta) :- StatusParts(line);
    match code
    case "20" => Ok(TextStatus.OK(meta))
    case "30" => Ok(TextStatus.Redirect(meta))
    case "40" => Ok(TextStatus.NOK(meta))
    case _ => Err(UnknownStatusCode(code))
  }

  /** The code a text-protocol server writes for each status. */
  function TextCode(st: TextStatus): string {
    match st
    case OK(_) => "20"
    case Redirect(_) => "30"
    case NOK(_) => "40"
  }

  function TextMeta(st: TextStatus): string {
    match st
    case OK(mime) => mime
    case Redirect(target) => target
    case NOK(info) => info
  }

  /** Writing a status line for any text-protocol status and parsing it
      gives the status back. */
  lemma TextRoundTrip(st: TextStatus)
    ensures ParseText(TextCode(st) + " " + TextMeta(st)) == Ok(st)
  {
    SplitOnceOfConcat(TextCode(st), ' ', TextMeta(st));
  }

  // -------------------------------------------------------------- Scorpion

  const ScorpionCodes: set<string> :=
    {"00", "10", "20", "21", "30", "31", "40", "41", "42", "43", "44", "45",
     "50", "51", "52", "53", "54", "55", "56", "59", "60", "61", "62",
     "70", "71", "72", "80", "81", "82"}

  /** The codes whose status keeps the meta text. */
  const ScorpionCodesWithData: set<string> := {"30", "31", "50", "51", "52"}

  function ScorpionFromCode(code: string, meta: string): (r: Option<ScorpionStatus>)
    ensures r.Some? <==> code in ScorpionCodes
  {
    match code
    case "00" => Some(ScorpionStatus.Interactive)
    case "10" => Some(ScorpionStatus.InputRequired)
    case "20" => Some(ScorpionStatus.OK)
    case "21" => Some(ScorpionStatus.PartialOK)
    case "30" => Some(ScorpionStatus.TemporaryRedirect(meta))
    case "31" => Some(ScorpionStatus.PermanentRedirect(meta))
    case "40" => Some(ScorpionStatus.TemporaryError)
    case "41" => Some(ScorpionStatus.DownForMaintenance)
    case "42" => Some(ScorpionStatus.DynamicFileError)
    case "43" => Some(ScorpionStatus.ProxyError)
    case "44" => Some(ScorpionStatus.SlowDown)
    case "45" => Some(ScorpionStatus.TemporarilyLockedFile)
    case "50" => Some(ScorpionStatus.PermanentError(meta))
    case "51" => Some(ScorpionStatus.FileNotFound(meta))
    case "52" => Some(ScorpionStatus.FileRemoved(meta))
    case "53" => Some(ScorpionStatus.ProxyRequestRefused)
    case "54" => Some(ScorpionStatus.Forbidden)
    case "55" => Some(ScorpionStatus.EditConflict)
    case "56" => Some(ScorpionStatus.CredentialsRequired)
    case "59" => Some(ScorpionStatus.BadRequest)
    case "60" => Some(ScorpionStatus.RequiresClientCertificate)
    case "61" => Some(ScorpionStatus.CertificateNotAuthorized)
    case "62" => Some(ScorpionStatus.CertificateNotValid)
    case "70" => Some(ScorpionStatus.ReadyNewFile)
    case "71" => Some(ScorpionStatus.ReadyModifyFile)
    case "72" => Some(ScorpionStatus.ReadyOther)
    case "80" => Some(ScorpionStatus.AcceptedNewFile)
    case "81" => Some(ScorpionStatus.AcceptedFileModified)
    case "82" => Some(ScorpionStatus.AcceptedOther)
    case _ => None
  }

  function ScorpionPayload(st: ScorpionStatus): Option<string> {
    match st
    case TemporaryRedirect(t) => Some(t)
    case PermanentRedirect(t) => Some(t)
    case PermanentError(i) => Some(i)
    case FileNotFound(i) => Some(i)
    case FileRemoved(i) => Some(i)
    case _ => None
  }

  /** `ScorpionStatus::from`: a fault for a line without a space or with a
      code outside the table; only 30, 31, 50, 51 and 52 keep the meta. */
  function ParseScorpion(line: string): (r: Result<ScorpionStatus>)
    ensures r.Ok? <==> StatusParts(line).Ok? && StatusParts(line).value.0 in ScorpionCodes
    ensures r.Ok? ==> var (code, meta) := StatusParts(line).value;
      ScorpionPayload(r.value) == (if code in ScorpionCodesWithData then Some(meta) else None)
    ensures r.Ok? ==> ScorpionCode(r.value) == StatusParts(line).value.0
  {
    var (code, meta) :- StatusParts(line);
    match ScorpionFromCode(code, meta)
    case None => Err(UnknownStatusCode(code))
    case Some(st) =>
      ScorpionFromCodeFacts(code, meta);
      Ok(st)
  }

  /** The status a code in the table yields has that code, and keeps the
      meta text exactly for the codes with data. */
  lemma ScorpionFromCodeFacts(code: string, meta: string)
    requires code in ScorpionCodes
    ensures var st := ScorpionFromCode(code, meta).value;
      && ScorpionCode(st) == code
      && ScorpionPayload(st) == (if code in ScorpionCodesWithData then Some(meta) else None)
  {
    if code in {"00", "10", "20", "21", "30", "31", "40"} {
      ScorpionFacts0(code, meta);
    } else if code in {"41", "42", "43", "44", "45", "50", "51"} {
      ScorpionFacts1(code, meta);
    } else if code in {"52", "53", "54", "55", "56", "59", "60"} {
      ScorpionFacts2(code, meta);
    } else {
      ScorpionFacts3(code, meta);
    }
  }

  lemma ScorpionFacts0(code: string, meta: string)
    requires code in {"00", "10", "20", "21", "30", "31", "40"}
    ensures var st := ScorpionFromCode(code, meta).value;
      && ScorpionCode(st) == code
      && ScorpionPayload(st) == (if code in ScorpionCodesWithData then Some(meta) else None)
  {
    match code
    case "00" =>
    case "10" =>
    case "20" =>
    case "21" =>
    case "30" =>
    case "31" =>
    case "40" =>
  }

  lemma ScorpionFacts1(code: string, meta: string)
    requires code in {"41", "42", "43", "44", "45", "50", "51"}
    ensures var st := ScorpionFromCode(code, meta).value;
      && ScorpionCode(st) == code
      && ScorpionPayload(st) == (if code in ScorpionCodesWithData then Some(meta) else None)
  {
    match code
    case "41" =>
    case "42" =>
    case "43" =>
    case "44" =>
    case "45" =>
    case "50" =>
    case "51" =>
  }

  lemma ScorpionFacts2(code: string, meta: string)
    requires code in {"52", "53", "54", "55", "56", "59", "60"}
    ensures var st := ScorpionFromCode(code, meta).value;
      && ScorpionCode(st) == code
      && ScorpionPayload(st) == (if code in ScorpionCodesWithData then Some(meta) else None)
  {
    match code
    case "52" =>
    case "53" =>
    case "54" =>
    case "55" =>
    case "56" =>
    case "59" =>
    case "60" =>
  }

  lemma ScorpionFacts3(code: string, meta: string)
    requires code in {"61", "62", "70", "71", "72", "80", "81", "82"}
    ensures var st := ScorpionFromCode(code, meta).value;
      && ScorpionCode(st) == code
      && ScorpionPayload(st) == (if code in ScorpionCodesWithData then Some(meta) else None)
  {
    match code
    case "61" =>
    case "62" =>
    case "70" =>
    case "71" =>
    case "72" =>
    case "80" =>
    case "81" =>
    case "82" =>
  }

  function ScorpionCode(st: ScorpionStatus): string {
    match st
    case Interactive => "00"
    case InputRequired => "10"
    case OK => "20"
    case PartialOK => "21"
    case TemporaryRedirect(_) => "30"
    case PermanentRedirect(_) => "31"
    case TemporaryError => "40"
    case DownForMaintenance => "41"
    case DynamicFileError => "42"
    case ProxyError => "43"
    case SlowDown => "44"
    case TemporarilyLockedFile => "45"
    case PermanentError(_) => "50"
    case FileNotFound(_) => "51"
    case FileRemoved(_) => "52"
    case ProxyRequestRefused => "53"
    case Forbidden => "54"
    case EditConflict => "55"
    case CredentialsRequired => "56"
    case BadRequest => "59"
    case RequiresClientCertificate => "60"
    case CertificateNotAuthorized => "61"
    case CertificateNotValid => "62"
    case ReadyNewFile => "70"
    case ReadyModifyFile => "71"
    case ReadyOther => "72"
    case AcceptedNewFile => "80"
    case AcceptedFileModified => "81"
    case AcceptedOther => "82"
  }

  /** Each of the 29 Scorpion statuses has its own code: writing the code
      and parsing it gives the status back, so the map is one-to-one. */
  lemma ScorpionRoundTrip(st: ScorpionStatus)
    ensures ParseScorpion(ScorpionCode(st) + " " + ScorpionPayload(st).GetOr("")) == Ok(st)
  {
    var code := ScorpionCode(st);
    var meta := ScorpionPayload(st).GetOr("");
    SplitOnceOfConcat(code, ' ', meta);
    assert StatusParts(code + " " + meta) == Ok((code, meta));
    ScorpionFromCodeOfCode(st);
  }

  lemma ScorpionFromCodeOfCode(st: ScorpionStatus)
    ensures ScorpionFromCode(ScorpionCode(st), ScorpionPayload(st).GetOr("")) == Some(st)
  {
    match st
    case Interactive =>
    case InputRequired =>
    case OK =>
    case PartialOK =>
    case TemporaryRedirect(_) =>
    case PermanentRedirect(_) =>
    case TemporaryError =>
    case DownForMaintenance =>
    case DynamicFileError =>
    case ProxyError =>
    case SlowDown =>
    case TemporarilyLockedFile =>
    case PermanentError(_) =>
    case FileNotFound(_) =>
    case FileRemoved(_) =>
    case ProxyRequestRefused =>
    case Forbidden =>
    case EditConflict =>
    case CredentialsRequired =>
    case BadRequest =>
    case RequiresClientCertificate =>
    case CertificateNotAuthorized =>
    case CertificateNotValid =>
    case ReadyNewFile =>
    case ReadyModifyFile =>
    case ReadyOther =>
    case AcceptedNewFile =>
    case AcceptedFileModified =>
    case AcceptedOther =>
  }

  // -------------------------------------------------------------- Response

  /** `parse_server_response`: the status-line protocols split at the first
      line feed (a preceding '\r' stays in the status line) and parse the
      line with their family's table; Guppy's first line is its content
      type; every other protocol keeps the whole response as a success. */
  function ParseServerResponse(raw: seq<byte>, p: Protocol): (r: Result<ServerResponse>)
    ensures p in {Gemini, Scroll, Guppy, TextProtocol, Scorpion, Spartan} ==>
      (SplitAtLf(raw).None? ==> r == Err(MissingNewline))
    ensures p in {Gemini, Scroll, Guppy, TextProtocol, Scorpion, Spartan} && r.Ok? ==>
      SplitAtLf(raw).Some? && r.value.content == SplitAtLf(raw).value.1
    ensures p !in {Gemini, Scroll, Guppy, TextProtocol, Scorpion, Spartan} ==>
      r == Ok(ServerResponse(raw, GenericSuccess("text/plain")))
    // The status comes from the family's own table, read from the first
    // line; a status the table rejects is the response's fault.
    ensures SplitAtLf(raw).Some? ==> var line := Decode(SplitAtLf(raw).value.0);
      && (p in {Gemini, Scroll} ==>
            && (r.Ok? <==> ParseGemini(line).Ok?)
            && (r.Ok? ==> r.value.status == GeminiFamily(ParseGemini(line).value))
            && (r.Err? ==> r.fault == ParseGemini(line).fault))
      && (p == Spartan ==>
            && (r.Ok? <==> ParseSpartan(line).Ok?)
            && (r.Ok? ==> r.value.status == SpartanFamily(ParseSpartan(line).value))
            && (r.Err? ==> r.fault == ParseSpartan(line).fault))
      && (p == TextProtocol ==>
            && (r.Ok? <==> ParseText(line).Ok?)
            && (r.Ok? ==> r.value.status == TextFamily(ParseText(line).value))
            && (r.Err? ==> r.fault == ParseText(line).fault))
      && (p == Scorpion ==>
            && (r.Ok? <==> ParseScorpion(line).Ok?)
            && (r.Ok? ==> r.value.status == ScorpionFamily(ParseScorpion(line).value))
            && (r.Err? ==> r.fault == ParseScorpion(line).fault))
      && (p == Guppy ==> r == Ok(ServerResponse(SplitAtLf(raw).value.1, GenericSuccess(line))))
  {
    match p
    case Gemini => ParseWith(raw, GeminiLine)
    case Scroll => ParseWith(raw, GeminiLine)
    case Guppy => ParseWith(raw, GuppyLine)
    case TextProtocol => ParseWith(raw, TextLine)
    case Scorpion => ParseWith(raw, ScorpionLine)
    case Spartan => ParseWith(raw, SpartanLine)
    case _ => Ok(ServerResponse(raw, GenericSuccess("text/plain")))
  }

  // The status-line readers of the families, tagged with their family.
  function GeminiLine(line: string): Result<ServerStatus> {
    ParseGemini(line).Map(st => GeminiFamily(st))
  }

  function SpartanLine(line: string): Result<ServerStatus> {
    ParseSpartan(line).Map(st => SpartanFamily(st))
  }

  function TextLine(line: string): Result<ServerStatus> {
    ParseText(line).Map(st => TextFamily(st))
  }

  function ScorpionLine(line: string): Result<ServerStatus> {
    ParseScorpion(line).Map(st => ScorpionFamily(st))
  }

  function GuppyLine(line: string): Result<ServerStatus> {
    Ok(GenericSuccess(line))
  }

  function ParseWith(raw: seq<byte>, parseLine: string -> Result<ServerStatus>): (r: Result<ServerResponse>)
    ensures SplitAtLf(raw).None? ==> r == Err(MissingNewline)
    ensures r.Ok? ==> SplitAtLf(raw).Some? && r.value.content == SplitAtLf(raw).value.1
    ensures SplitAtLf(raw).Some? ==>
      r == match parseLine(Decode(SplitAtLf(raw).value.0))
        case Ok(st) => Ok(ServerResponse(SplitAtLf(raw).value.1, st))
        case Err(f) => Err(f)
  {
    match SplitAtLf(raw)
    case None => Err(MissingNewline)
    case Some((line, content)) =>
      var st :- parseLine(Decode(line));
      Ok(ServerResponse(content, st))
  }
}
