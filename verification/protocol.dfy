/** The closed set of protocols, scheme classification and the default
    port table. */
module Protocols {
  import opened Wrappers
  import opened Strings
  import opened Urls

  /** `Gopher(secure)` is Gopher over TLS when `secure` holds. `Plaintext`
      is only ever a navigation hint, never the result of classification. */
  datatype Protocol =
    | Finger
    | Gopher(secure: bool)
    | Gemini
    | Guppy
    | Nex
    | Plaintext
    | Scorpion
    | Scroll
    | Spartan
    | TextProtocol
    | Unknown

  /** `s.split(':').next().unwrap()`: the text before the first ':', or all
      of `s` when it has none. */
  function SchemeOf(s: string): (r: string)
    ensures ':' !in r
    ensures StartsWith(s, r)
    ensures |r| < |s| ==> s[|r|] == ':'
  {
    match SplitOnce(s, ':')
    case None => s
    case Some((before, _)) => assert s[..|before|] == before; before
  }

  /** The scheme string that selects `p`, for the protocols that have one. */
  function SchemeName(p: Protocol): (r: Option<string>)
    ensures r.None? <==> p == Plaintext || p == Unknown
    ensures r.Some? ==> ':' !in r.value
  {
    match p
    case Finger => Some("finger")
    case Gemini => Some("gemini")
    case Gopher(secure) => if secure then Some("gophers") else Some("gopher")
    case Guppy => Some("guppy")
    case Nex => Some("nex")
    case Scorpion => Some("scorpion")
    case Scroll => Some("scroll")
    case Spartan => Some("spartan")
    case TextProtocol => Some("text")
    case Plaintext => None
    case Unknown => None
  }

  /** `Protocol::from_str`: exact, case-sensitive match of the text before
      the first ':'. */
  function FromStr(s: string): (p: Protocol)
    ensures p != Plaintext
    ensures p.Gopher? <==> SchemeOf(s) == "gopher" || SchemeOf(s) == "gophers"
    ensures p == Gopher(true) <==> SchemeOf(s) == "gophers"
    ensures p == TextProtocol <==> SchemeOf(s) == "text"
  {
    FromScheme(SchemeOf(s))
  }

  function FromScheme(scheme: string): Protocol {
    match scheme
    case "finger" => Finger
    case "gemini" => Gemini
    case "gopher" => Gopher(false)
    case "gophers" => Gopher(true)
    case "guppy" => Guppy
    case "nex" => Nex
    case "scorpion" => Scorpion
    case "scroll" => Scroll
    case "spartan" => Spartan
    case "text" => TextProtocol
    case _ => Unknown
  }

  /** `Protocol::from_url`: classification of the parsed scheme. */
  function FromUrl(u: Url): Protocol {
    FromStr(u.scheme)
  }

  /** Classification looks only at the text before the first ':'. */
  lemma FromStrReadsOnlyScheme(s: string, rest: string)
    ensures FromStr(SchemeOf(s) + ":" + rest) == FromStr(s)
  {
    var scheme := SchemeOf(s);
    SplitOnceOfConcat(scheme, ':', rest);
    assert scheme + ":" + rest == scheme + [':'] + rest;
  }

  /** A string is classified as a known protocol exactly when its scheme is
      that protocol's scheme name: the scheme table has one entry per
      protocol and `SchemeName` is its inverse. */
  lemma FromStrMatchesSchemeName(s: string, p: Protocol)
    requires p != Unknown
    ensures FromStr(s) == p <==> SchemeName(p) == Some(SchemeOf(s))
  {
    var scheme := SchemeOf(s);
    if SchemeName(p) == Some(scheme) {
      SchemeNameInverse(p);
    }
    if FromStr(s) == p {
      ClassifiedHasSchemeName(s);
    }
  }

  lemma SchemeNameClassifies(p: Protocol)
    requires SchemeName(p).Some?
    ensures FromStr(SchemeName(p).value) == p
  {
    var name := SchemeName(p).value;
    SchemeOfWithoutColon(name);
    SchemeNameInverse(p);
  }

  lemma SchemeOfWithoutColon(s: string)
    requires ':' !in s
    ensures SchemeOf(s) == s
  {
  }

  lemma SchemeNameInverse(p: Protocol)
    requires SchemeName(p).Some?
    ensures FromScheme(SchemeName(p).value) == p
  {
  }

  lemma ClassifiedHasSchemeName(s: string)
    requires FromStr(s) != Unknown
    ensures SchemeName(FromStr(s)) == Some(SchemeOf(s))
  {
  }

  /** Every string whose scheme is not one of the ten names is `Unknown`. */
  lemma UnknownIffUnlisted(s: string)
    ensures FromStr(s) == Unknown <==>
      SchemeOf(s) !in {"finger", "gemini", "gopher", "gophers", "guppy", "nex",
                       "scorpion", "scroll", "spartan", "text"}
  {
  }

  /** Classifying a URL's serialization gives the same protocol as
      classifying the URL, so the string form of a destination carries its
      protocol. */
  lemma FromStrOfToString(u: Url)
    requires ValidScheme(u.scheme)
    ensures FromStr(ToString(u)) == FromUrl(u)
  {
    var s := ToString(u);
    var rest := s[|u.scheme| + 1..];
    assert s == u.scheme + [':'] + rest;
    SplitOnceOfConcat(u.scheme, ':', rest);
  }

  /** The default port table of `fetch`. */
  function DefaultPort(p: Protocol): (port: nat)
    ensures port < 0x1_0000
    ensures port == 0 <==> p == Plaintext || p == Unknown
  {
    match p
    case Finger => 79
    case Gemini => 1965
    case Gopher(_) => 70
    case Guppy => 6775
    case Nex => 1900
    case Scorpion => 1517
    case Scroll => 5699
    case Spartan => 300
    case TextProtocol => 1961
    case _ => 0
  }

  /** `url.port().unwrap_or(default)`: an explicit port wins. */
  function EffectivePort(u: Url, p: Protocol): (port: nat)
    ensures u.port.Some? ==> port == u.port.value
    ensures u.port.None? ==> port == DefaultPort(p)
  {
    u.port.GetOr(DefaultPort(p))
  }

  /** Distinct protocols have distinct default ports, except that Gopher
      with and without TLS share port 70. */
  lemma DefaultPortsDistinct(p: Protocol, q: Protocol)
    requires DefaultPort(p) == DefaultPort(q) != 0
    ensures p == q || (p.Gopher? && q.Gopher?)
  {
  }
}
