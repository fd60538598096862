/** The browser session: navigating to the address in the URL bar, reacting
    to a finished fetch, and submitting a server's input prompt. The
    client's state lives in one `Session` record; every step returns the
    next record, or the fault at which the client would abort. */
module Navigation {
  import opened Wrappers
  import opened Bytes
  import opened Strings
  import opened Urls
  import P = Protocols
  import R = Requests
  import opened Status
  import H = History
  import C = Content
  import ScorpionBlocks

  /** A pending navigation: where to go, the protocol to assume, and
      whether the visit is recorded in the history. */
  datatype NavigationHint = NavigationHint(url: string, protocol: P.Protocol, addToHistory: bool)

  /** A fetch in flight. The client keeps a promise; here the request it
      was started with stands in for it. */
  datatype Job = Job(plaintext: bool, protocol: P.Protocol, request: R.Request)

  /** A server's request for a line of input. */
  datatype InputRequest = InputRequest(
    prompt: string,
    sensitive: bool,
    destination: string,
    userInput: string,
    completed: bool)

  datatype Session = Session(
    urlBar: string,
    currentUrl: Url,
    pageContent: string,
    handlers: C.Handlers,
    hint: Option<NavigationHint>,
    job: Option<Job>,
    input: Option<InputRequest>,
    history: H.History)

  /** What the session depends on but does not model: the URL library and
      the Scorpion code page. */
  datatype Env = Env(urls: UrlLibrary, codePage: ScorpionBlocks.CodePage)

  /** The URL bar's address, parsed; an address that does not parse aborts
      the client. */
  function ParseUrlBar(env: Env, text: string): (r: Result<Url>)
    ensures r.Ok? <==> env.urls.parse(text).Some?
    ensures r.Ok? ==> r.value == env.urls.parse(text).value
    ensures r.Err? ==> r.fault == UrlParseFailed(text)
  {
    match env.urls.parse(text)
    case None => Err(UrlParseFailed(text))
    case Some(u) => Ok(u)
  }

  // ------------------------------------------------------------- Navigate

  /** `navigate`: record the visit when asked (under the hinted protocol, or
      that of the page being left), make the URL bar's address current, and
      start a fetch for it. An unknown scheme shows "Invalid URL" and leaves
      any fetch in flight alone; a URL without a host aborts. */
  function Navigate(env: Env, s: Session, protocolHint: Option<P.Protocol>, addEntry: bool): (r: Result<Session>)
    ensures r.Err? <==>
      || env.urls.parse(s.urlBar).None?
      || (P.FromUrl(env.urls.parse(s.urlBar).value) != P.Unknown && env.urls.parse(s.urlBar).value.host.None?)
    ensures r.Err? && env.urls.parse(s.urlBar).Some? ==> r.fault == MissingHost
    ensures r.Ok? ==> var u := env.urls.parse(s.urlBar).value;
      && r.value.currentUrl == u
      && r.value.urlBar == s.urlBar
      && r.value.handlers == s.handlers
      && r.value.hint == s.hint
      && r.value.input == s.input
      && r.value.history == (if addEntry then H.AddEntry(s.history, u, protocolHint.GetOr(P.FromUrl(s.currentUrl))) else s.history)
    ensures r.Ok? && P.FromUrl(r.value.currentUrl) == P.Unknown ==>
      r.value.pageContent == "Invalid URL" && r.value.job == s.job
    ensures r.Ok? && P.FromUrl(r.value.currentUrl) != P.Unknown ==> var u := r.value.currentUrl;
      && r.value.pageContent == s.pageContent
      && r.value.job == Some(Job(R.PlaintextOverride(u, protocolHint), P.FromUrl(u), R.BuildRequest(u).value))
  {
    var history :-
      if addEntry then
        var u :- ParseUrlBar(env, s.urlBar);
        Ok(H.AddEntry(s.history, u, protocolHint.GetOr(P.FromUrl(s.currentUrl))))
      else Ok(s.history);
    var current :- ParseUrlBar(env, s.urlBar);
    var p := P.FromUrl(current);
    if p == P.Unknown then
      Ok(s.(currentUrl := current, history := history, pageContent := "Invalid URL"))
    else
      var request :- R.BuildRequest(current);
      Ok(s.(currentUrl := current, history := history,
            job := Some(Job(R.PlaintextOverride(current, protocolHint), p, request))))
  }

  /** A navigation keeps the history's cursor on an entry, and a recorded
      visit is the entry under the cursor. */
  lemma NavigateKeepsHistoryValid(env: Env, s: Session, protocolHint: Option<P.Protocol>, addEntry: bool)
    requires H.Valid(s.history)
    requires Navigate(env, s, protocolHint, addEntry).Ok?
    ensures var r := Navigate(env, s, protocolHint, addEntry).value;
      && H.Valid(r.history)
      && (addEntry ==> r.history.entries[r.history.index].url == r.currentUrl && !H.CanGoForward(r.history))
  {
    if addEntry {
      var u := env.urls.parse(s.urlBar).value;
      H.AddEntryValid(s.history, u, protocolHint.GetOr(P.FromUrl(s.currentUrl)));
    }
  }

  /** The pending hint, taken at the start of each frame: its address goes
      into the URL bar and is navigated to. */
  function TakeHint(env: Env, s: Session): (r: Result<Session>)
    ensures s.hint.None? ==> r == Ok(s)
    ensures s.hint.Some? ==> var hint := s.hint.value;
      r == Navigate(env, s.(urlBar := hint.url, hint := None), Some(hint.protocol), hint.addToHistory)
    ensures r.Ok? ==> r.value.hint.None?
  {
    match s.hint
    case None => Ok(s)
    case Some(hint) => Navigate(env, s.(urlBar := hint.url, hint := None), Some(hint.protocol), hint.addToHistory)
  }

  // -------------------------------------------------------------- Reactions

  const NotFoundPreamble := "The requested resource could not be found.\n\nAdditional information:\n\n"
  const CertificateRequiredText :=
    "The requested resource requires a client certificate. You can create one by clicking \"New\" in the Profiles tab."
  const CertificateNotAuthorizedText := "Your client certificate is not authorized to access this resource"
  const CertificateNotValidText :=
    "The requested resource is unavailable as your client certificate is invalid. Check to see if your certificate has expired."

  /** What the client does with a status. */
  datatype Reaction =
    | AskInput(prompt: string, sensitive: bool)
    | ShowPage
    | Follow(target: string)
    | ShowFailure(info: string)
    | ShowNotice(text: string)
    | Ignore

  /** A failure shows the status's additional information under a fixed
      preamble. */
  function FailurePage(info: string): (m: string)
    ensures StartsWith(m, NotFoundPreamble) && m[|NotFoundPreamble|..] == info
  {
    NotFoundPreamble + info
  }

  /** The reaction to each status: Gemini input prompts ask for input;
      successes show the page; redirects are followed; failures show their
      information on a failure page and the certificate statuses a fixed
      notice; the Scorpion statuses the client does not handle are
      ignored. */
  function ReactionTo(st: ServerStatus): Reaction {
    match st
    case GeminiFamily(g) => (
      match g
      case InputExpected(prompt, sensitive) => AskInput(prompt, sensitive)
      case Success(_) => ShowPage
      case TemporaryRedirect(target) => Follow(target)
      case PermanentRedirect(target) => Follow(target)
      case RequiresClientCertificate => ShowNotice(CertificateRequiredText)
      case CertificateNotAuthorized => ShowNotice(CertificateNotAuthorizedText)
      case CertificateNotValid => ShowNotice(CertificateNotValidText)
      case _ => ShowFailure(g.info))
    case ScorpionFamily(c) => (
      match c
      case OK => ShowPage
      case TemporaryRedirect(target) => Follow(target)
      case PermanentRedirect(target) => Follow(target)
      case PermanentError(info) => ShowFailure(info)
      case FileNotFound(info) => ShowFailure(info)
      case FileRemoved(info) => ShowFailure(info)
      case _ => Ignore)
    case SpartanFamily(sp) => (
      match sp
      case Success(_) => ShowPage
      case Redirect(target) => Follow(target)
      case ClientError(info) => ShowFailure(info)
      case ServerError(info) => ShowFailure(info))
    case TextFamily(t) => (
      match t
      case OK(_) => ShowPage
      case Redirect(target) => Follow(target)
      case NOK(info) => ShowFailure(info))
    case GenericSuccess(_) => ShowPage
  }

  /** Gemini reactions follow the status code's class: 1x asks for input,
      2x shows the page, 3x redirects, 4x and 5x show a failure page, 6x a
      certificate notice. */
  lemma GeminiReactionByClass(g: GeminiStatus)
    ensures var c := GeminiCode(g)[0]; var r := ReactionTo(GeminiFamily(g));
      && (c == '1' <==> r.AskInput?)
      && (c == '2' <==> r.ShowPage?)
      && (c == '3' <==> r.Follow?)
      && ((c == '4' || c == '5') <==> r.ShowFailure?)
      && (c == '6' <==> r.ShowNotice?)
  {
    match g
    case InputExpected(_, _) =>
    case Success(_) =>
    case TemporaryRedirect(_) =>
    case PermanentRedirect(_) =>
    case TemporaryFailure(_) =>
    case ServerUnavailable(_) =>
    case CgiError(_) =>
    case ProxyError(_) =>
    case SlowDown(_) =>
    case PermanentFailure(_) =>
    case NotFound(_) =>
    case Gone(_) =>
    case ProxyRequestRefused(_) =>
    case BadRequest(_) =>
    case RequiresClientCertificate =>
    case CertificateNotAuthorized =>
    case CertificateNotValid =>
  }

  /** A Scorpion status is ignored exactly when it is not OK and carries no
      target or information: the client reacts to 20, 30, 31, 50, 51 and
      52 only. */
  lemma ScorpionIgnoredIffBare(c: ScorpionStatus)
    ensures ReactionTo(ScorpionFamily(c)) == Ignore <==> c != ScorpionStatus.OK && ScorpionPayload(c).None?
  {
  }

  /** A redirect's message and target come from the status itself. */
  lemma RedirectTargets(st: ServerStatus)
    requires ReactionTo(st).Follow?
    ensures var t := ReactionTo(st).target;
      || st == GeminiFamily(GeminiStatus.TemporaryRedirect(t))
      || st == GeminiFamily(GeminiStatus.PermanentRedirect(t))
      || st == SpartanFamily(SpartanStatus.Redirect(t))
      || st == TextFamily(TextStatus.Redirect(t))
      || st == ScorpionFamily(ScorpionStatus.TemporaryRedirect(t))
      || st == ScorpionFamily(ScorpionStatus.PermanentRedirect(t))
  {
  }

  // ------------------------------------------------------------- Redirects

  /** What a redirect should lead to: a target starting with "/" replaces
      the path of the current URL; any other is resolved against it. */
  predicate Resolves(env: Env, current: Url, target: string, next: Url) {
    if StartsWith(target, "/") then next == SetPath(current, target)
    else env.urls.join(current, target) == Some(next)
  }

  /** The redirect step as the client writes it: the joined URL is
      computed, checked, and discarded, so the current URL is kept. */
  function RedirectTargetAsWritten(env: Env, current: Url, target: string): (r: Result<Url>)
    ensures r.Err? <==> !StartsWith(target, "/") && env.urls.join(current, target).None?
    ensures r.Ok? && !StartsWith(target, "/") ==> r.value == current
  {
    if StartsWith(target, "/") then Ok(SetPath(current, target))
    else if env.urls.join(current, target).None? then Err(RedirectJoinFailed(target))
    else Ok(current)
  }

  /** A redirect to another host, or to a relative path without a leading
      "/", makes the client fetch the page it was redirected away from. */
  lemma RedirectAsWrittenStaysPut(env: Env, current: Url, target: string, next: Url)
    requires !StartsWith(target, "/")
    requires Resolves(env, current, target, next) && next != current
    ensures RedirectTargetAsWritten(env, current, target) == Ok(current)
    ensures !Resolves(env, current, target, RedirectTargetAsWritten(env, current, target).value)
  {
  }

  /** The redirect step with the joined URL kept: it yields exactly the URL
      the target resolves to, and faults only when it resolves to none. */
  function RedirectTarget(env: Env, current: Url, target: string): (r: Result<Url>)
    ensures r.Err? <==> !StartsWith(target, "/") && env.urls.join(current, target).None?
    ensures r.Err? ==> r.fault == RedirectJoinFailed(target)
  {
    if StartsWith(target, "/") then Ok(SetPath(current, target))
    else match env.urls.join(current, target)
      case None => Err(RedirectJoinFailed(target))
      case Some(next) => Ok(next)
  }

  /** The corrected redirect step follows the target: it yields `next`
      exactly when the target resolves to `next`. */
  lemma RedirectTargetResolves(env: Env, current: Url, target: string, next: Url)
    ensures RedirectTarget(env, current, target) == Ok(next) <==> Resolves(env, current, target, next)
  {
  }

  /** An absolute-path redirect changes the path and nothing else. */
  lemma PathRedirectKeepsOrigin(env: Env, current: Url, target: string)
    requires StartsWith(target, "/")
    ensures var next := RedirectTarget(env, current, target).value;
      && next.path == target
      && next.scheme == current.scheme && next.host == current.host && next.port == current.port
  {
  }

  // -------------------------------------------------------------- Results

  /** The state of the fetch in flight when a frame is drawn. */
  datatype FetchOutcome =
    | Pending
    | Received(response: ServerResponse)
    | TransportError(error: string)

  /** The input request raised by a Gemini prompt on the current page. */
  function PromptFor(s: Session, prompt: string, sensitive: bool): (req: InputRequest)
    ensures req.destination == ToString(s.currentUrl) && req.userInput == "" && !req.completed
  {
    InputRequest(prompt, sensitive, ToString(s.currentUrl), "", false)
  }

  /** The message a failure or a notice shows. */
  function MessageOf(r: Reaction): (m: Option<string>)
    ensures m.Some? <==> r.ShowFailure? || r.ShowNotice?
    ensures r.ShowFailure? ==> m == Some(FailurePage(r.info))
  {
    match r
    case ShowFailure(info) => Some(FailurePage(info))
    case ShowNotice(text) => Some(text)
    case _ => None
  }

  /** A message the client composes, shown in plaintext mode by the
      handler of the job's protocol; this never faults. */
  function ShowMessage(env: Env, s: Session, job: Job, text: string): (r: Session)
    ensures C.ParseContent(s.handlers, env.codePage, C.Message(text), true, job.protocol) == Ok(r.handlers)
    ensures r == s.(handlers := r.handlers)
  {
    C.MessageShown(s.handlers, env.codePage, text, job.protocol);
    s.(handlers := C.ParseContent(s.handlers, env.codePage, C.Message(text), true, job.protocol).value)
  }

  /** The reaction to a received response on a session whose page text is
      already the response body. */
  function React(env: Env, s: Session, job: Job, response: ServerResponse): (r: Result<Session>)
    ensures r.Ok? ==> r.value.currentUrl == s.currentUrl && r.value.pageContent == s.pageContent
    ensures r.Ok? && r.value.input != s.input ==> r.value.input.Some? && !r.value.input.value.completed
    ensures ReactionTo(response.status) == Ignore ==> r == Ok(s)
    ensures MessageOf(ReactionTo(response.status)).Some? ==>
      r == Ok(ShowMessage(env, s, job, MessageOf(ReactionTo(response.status)).value))
  {
    match ReactionTo(response.status)
    case AskInput(prompt, sensitive) =>
      var (history, _) :- H.RemoveLatest(s.history);
      Ok(s.(history := history, input := Some(PromptFor(s, prompt, sensitive))))
    case ShowPage =>
      var handlers :- C.ParseContent(s.handlers, env.codePage, C.Response(response.content), job.plaintext, job.protocol);
      Ok(s.(handlers := handlers))
    case Follow(target) =>
      var next :- RedirectTargetAsWritten(env, s.currentUrl, target);
      Ok(Redirected(s, job, next))
    case ShowFailure(info) => Ok(ShowMessage(env, s, job, FailurePage(info)))
    case ShowNotice(text) => Ok(ShowMessage(env, s, job, text))
    case Ignore => Ok(s)
  }

  /** A followed redirect: the new address goes into the URL bar and a
      navigation to it, recorded in the history, is queued under the
      protocol of the redirected job. */
  function Redirected(s: Session, job: Job, next: Url): (r: Session)
    ensures r.hint == Some(NavigationHint(ToString(next), job.protocol, true))
    ensures r == s.(urlBar := ToString(next), hint := r.hint)
  {
    s.(urlBar := ToString(next), hint := Some(NavigationHint(ToString(next), job.protocol, true)))
  }

  /** The reaction with the corrected redirect step; every other reaction
      is the client's. */
  function ReactCorrected(env: Env, s: Session, job: Job, response: ServerResponse): (r: Result<Session>)
    ensures !ReactionTo(response.status).Follow? ==> r == React(env, s, job, response)
  {
    match ReactionTo(response.status)
    case Follow(target) =>
      var next :- RedirectTarget(env, s.currentUrl, target);
      Ok(Redirected(s, job, next))
    case _ => React(env, s, job, response)
  }

  /** The fetch-result half of `update`: nothing happens while no fetch is
      ready; a ready result is shown and the job cleared. A received
      response first becomes the page text. */
  function HandleResult(env: Env, s: Session, outcome: FetchOutcome): (r: Result<Session>)
    ensures s.job.None? || outcome.Pending? ==> r == Ok(s)
    ensures r.Ok? && r.value.input != s.input ==> r.value.input.Some? && !r.value.input.value.completed
    ensures s.job.Some? && !outcome.Pending? && r.Ok? ==>
      r.value.job.None? && r.value.currentUrl == s.currentUrl
    ensures s.job.Some? && outcome.Received? && r.Ok? ==> r.value.pageContent == Decode(outcome.response.content)
    ensures s.job.Some? && outcome.TransportError? ==>
      r == Ok(ShowMessage(env, s, s.job.value, outcome.error).(job := None))
  {
    match s.job
    case None => Ok(s)
    case Some(job) =>
      match outcome
      case Pending => Ok(s)
      case Received(response) =>
        var s' :- React(env, s.(pageContent := Decode(response.content)), job, response);
        Ok(s'.(job := None))
      case TransportError(error) => Ok(ShowMessage(env, s, job, error).(job := None))
  }

  /** A Gemini input prompt drops the page's history entry and asks for
      input addressed to the current URL; it faults on an empty history. */
  lemma InputPromptHandled(env: Env, s: Session, response: ServerResponse)
    requires s.job.Some? && ReactionTo(response.status).AskInput?
    ensures var r := HandleResult(env, s, Received(response));
      && (r.Err? <==> |s.history.entries| == 0)
      && (r.Ok? ==>
            && r.value.input == Some(PromptFor(s, ReactionTo(response.status).prompt, ReactionTo(response.status).sensitive))
            && r.value.history.entries + [s.history.entries[|s.history.entries| - 1]] == s.history.entries
            && r.value.handlers == s.handlers)
  {
  }

  /** A successful response is shown by the handler of the job's protocol,
      honouring the job's plaintext flag. */
  lemma SuccessShowsPage(env: Env, s: Session, response: ServerResponse)
    requires s.job.Some? && ReactionTo(response.status) == ShowPage
    ensures var r := HandleResult(env, s, Received(response));
      var parsed := C.ParseContent(s.handlers, env.codePage, C.Response(response.content), s.job.value.plaintext, s.job.value.protocol);
      && (r.Ok? <==> parsed.Ok?)
      && (r.Ok? ==> r.value.handlers == parsed.value && r.value.history == s.history && r.value.hint == s.hint)
  {
  }

  /** A redirect as the client handles it: a target starting with "/"
      queues the current URL with that path; any other target only has to
      resolve, and then queues the current URL unchanged. The navigation is
      recorded in the history, under the protocol of the redirected job. */
  lemma RedirectQueuesNavigation(env: Env, s: Session, response: ServerResponse)
    requires s.job.Some? && ReactionTo(response.status).Follow?
    ensures var r := HandleResult(env, s, Received(response));
      var t := ReactionTo(response.status).target;
      && (r.Err? <==> !StartsWith(t, "/") && env.urls.join(s.currentUrl, t).None?)
      && (r.Err? ==> r.fault == RedirectJoinFailed(t))
      && (r.Ok? ==>
            && r.value.hint.Some? && r.value.hint.value.addToHistory
            && r.value.hint.value.protocol == s.job.value.protocol
            && r.value.urlBar == r.value.hint.value.url
            && r.value.history == s.history && r.value.handlers == s.handlers)
      && (r.Ok? && StartsWith(t, "/") ==> r.value.hint.value.url == ToString(SetPath(s.currentUrl, t)))
      && (r.Ok? && !StartsWith(t, "/") ==> r.value.hint.value.url == ToString(s.currentUrl))
  {
  }

  /** The redirect defect at session level: after a redirect whose target
      does not start with "/", the next frame fetches the page the client
      was redirected away from, whatever the target resolves to. */
  lemma RedirectAsWrittenRefetches(env: Env, s: Session, response: ServerResponse)
    requires s.job.Some? && ReactionTo(response.status).Follow?
    requires !StartsWith(ReactionTo(response.status).target, "/")
    requires env.urls.join(s.currentUrl, ReactionTo(response.status).target).Some?
    requires env.urls.parse(ToString(s.currentUrl)) == Some(s.currentUrl)
    requires P.FromUrl(s.currentUrl) != P.Unknown && s.currentUrl.host.Some?
    ensures var r := HandleResult(env, s, Received(response));
      r.Ok? && TakeHint(env, r.value).Ok? &&
      var n := TakeHint(env, r.value).value;
      && n.currentUrl == s.currentUrl
      && n.job.Some? && n.job.value.request == R.BuildRequest(s.currentUrl).value
  {
    RedirectQueuesNavigation(env, s, response);
  }

  /** With the corrected step, a redirect queues a navigation, recorded in
      the history, to the URL the target resolves to, under the protocol of
      the redirected job. */
  lemma CorrectedRedirectQueuesNavigation(env: Env, s: Session, job: Job, response: ServerResponse, next: Url)
    requires ReactionTo(response.status).Follow?
    requires Resolves(env, s.currentUrl, ReactionTo(response.status).target, next)
    ensures var r := ReactCorrected(env, s, job, response);
      && r.Ok?
      && r.value.hint == Some(NavigationHint(ToString(next), job.protocol, true))
      && r.value.urlBar == ToString(next)
      && r.value.history == s.history && r.value.handlers == s.handlers
  {
    RedirectTargetResolves(env, s.currentUrl, ReactionTo(response.status).target, next);
  }

  /** With the corrected step, the frame after a redirect navigates to the
      resolved URL and fetches it with the same protocol, provided the URL
      library reads the URL's text back as the URL. */
  lemma CorrectedRedirectThenNavigate(env: Env, s: Session, job: Job, response: ServerResponse, next: Url)
    requires ReactionTo(response.status).Follow?
    requires Resolves(env, s.currentUrl, ReactionTo(response.status).target, next)
    requires env.urls.parse(ToString(next)) == Some(next)
    requires P.FromUrl(next) != P.Unknown && next.host.Some?
    ensures var r := ReactCorrected(env, s, job, response);
      r.Ok? && TakeHint(env, r.value).Ok? &&
      var n := TakeHint(env, r.value).value;
      && n.currentUrl == next
      && n.job.Some? && n.job.value.protocol == P.FromUrl(next)
      && n.job.value.request == R.BuildRequest(next).value
  {
    CorrectedRedirectQueuesNavigation(env, s, job, response, next);
  }

  // --------------------------------------------------------------- Update

  /** One frame of `update`: take the pending hint, drop a completed input
      request, then look at the fetch in flight. */
  function Update(env: Env, s: Session, outcome: FetchOutcome): (r: Result<Session>)
    ensures s.hint.None? && s.job.None? && (s.input.None? || !s.input.value.completed) ==> r == Ok(s)
    ensures r.Ok? ==> r.value.input.Some? ==> !r.value.input.value.completed
  {
    var s1 :- TakeHint(env, s);
    var s2 := if s1.input.Some? && s1.input.value.completed then s1.(input := None) else s1;
    HandleResult(env, s2, outcome)
  }

  // ---------------------------------------------------------------- Input

  /** The destination that creates a profile instead of navigating. */
  const ProfileDestination := "breeze://profile/new"

  /** The Submit button: the request is marked completed and, unless it is
      the profile prompt, a navigation to the destination with the input as
      its query is queued, under the destination's protocol. */
  function SubmitInput(s: Session): (r: Session)
    requires s.input.Some?
    ensures r.input == Some(s.input.value.(completed := true))
    ensures s.input.value.destination == ProfileDestination ==> r.hint == s.hint
    ensures s.input.value.destination != ProfileDestination ==> var req := s.input.value;
      && r.hint.Some?
      && r.hint.value.addToHistory
      && r.hint.value.protocol == P.FromStr(req.destination)
      && StartsWith(r.hint.value.url, req.destination + "?")
      && r.hint.value.url[|req.destination| + 1..] == req.userInput
    ensures r.(hint := s.hint, input := s.input) == s
  {
    var req := s.input.value;
    var hint :=
      if req.destination == ProfileDestination then s.hint
      else Some(NavigationHint(req.destination + "?" + req.userInput, P.FromStr(req.destination), true));
    s.(hint := hint, input := Some(req.(completed := true)))
  }

  /** A query appended to a URL does not change its protocol. */
  lemma QueryKeepsProtocol(url: string, query: string)
    requires ':' in url
    ensures P.FromStr(url + "?" + query) == P.FromStr(url)
  {
    var scheme := P.SchemeOf(url);
    var rest := url[|scheme| + 1..];
    assert url == scheme + ":" + rest;
    assert url + "?" + query == scheme + ":" + (rest + "?" + query);
    P.FromStrReadsOnlyScheme(url, rest + "?" + query);
  }

  /** Answering a Gemini prompt on page `u` queues a navigation to `u` with
      the answer as query, fetched with `u`'s own protocol, and the next
      frame discards the answered request. */
  lemma PromptAnswerNavigates(s: Session, prompt: string, sensitive: bool, answer: string)
    requires ValidScheme(s.currentUrl.scheme)
    requires ToString(s.currentUrl) != ProfileDestination
    ensures var asked := s.(input := Some(PromptFor(s, prompt, sensitive).(userInput := answer)));
      var r := SubmitInput(asked);
      && r.hint == Some(NavigationHint(ToString(s.currentUrl) + "?" + answer, P.FromUrl(s.currentUrl), true))
      && r.input.value.completed
  {
    P.FromStrOfToString(s.currentUrl);
  }
}
