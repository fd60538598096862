/** The parts of a parsed URL that the client reads, its serialization,
    and the operations of the URL library that the client calls. */
module Urls {
  import opened Wrappers
  import opened Strings

  /** A parsed absolute URL: scheme, optional host, optional explicit port,
      path, optional query. */
  datatype Url = Url(
    scheme: string,
    host: Option<string>,
    port: Option<nat>,
    path: string,
    query: Option<string>)

  /** The URL library never produces a scheme containing ':'. */
  predicate ValidScheme(scheme: string) {
    |scheme| > 0 && ':' !in scheme
  }

  function PortSuffix(port: Option<nat>): string {
    match port
    case None => ""
    case Some(p) => ":" + Decimal(p)
  }

  function QuerySuffix(query: Option<string>): string {
    match query
    case None => ""
    case Some(q) => "?" + q
  }

  /** `Url::to_string`. */
  function ToString(u: Url): (s: string)
    ensures StartsWith(s, u.scheme + ":")
    ensures u.query.None? ==> EndsWith(s, u.path)
  {
    var authority := match u.host
      case None => ""
      case Some(h) => "//" + h + PortSuffix(u.port);
    var s := u.scheme + ":" + authority + u.path + QuerySuffix(u.query);
    assert s[..|u.scheme + ":"|] == u.scheme + ":";
    assert u.query.None? ==> s[|s| - |u.path|..] == u.path;
    s
  }

  /** `Url::set_path`: only the path changes; scheme, host, port and query
      are kept. */
  function SetPath(u: Url, path: string): (v: Url)
    ensures v.path == path
    ensures v.scheme == u.scheme && v.host == u.host && v.port == u.port && v.query == u.query
  {
    u.(path := path)
  }

  /** The URL library's parser and `Url::join`, which the client calls but
      which are not part of this model: the client's behaviour is stated
      for whatever these return. */
  datatype UrlLibrary = UrlLibrary(
    parse: string -> Option<Url>,
    join: (Url, string) -> Option<Url>)
}
