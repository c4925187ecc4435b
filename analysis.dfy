/** The page classifier of `analyze` and the risk rule of `make_pdf`. */
module Analysis {
  import opened Text

  /** The three security response headers whose presence is reported. */
  const SecHeaders: seq<string> := ["X-Frame-Options", "Content-Security-Policy", "X-XSS-Protection"]

  /** What `requests.get(url)` yields to `analyze`: the status code and the
      names of the headers the response carries. */
  datatype Response = Response(status: int, headers: set<string>)

  /** The dictionary `analyze` builds for one page. */
  datatype Record = Record(
    url: string,
    status: int,
    https: bool,
    headers: map<string, bool>,
    login: bool,
    admin: bool)

  /** `any(x in s for x in needles)`. */
  function AnyIn(needles: seq<string>, s: string): bool
  {
    |needles| > 0 && (Contains(needles[0], s) || AnyIn(needles[1..], s))
  }

  /** With two needles, `AnyIn` tests each of them. */
  lemma AnyInPair(a: string, b: string, s: string)
    ensures AnyIn([a, b], s) <==> Contains(a, s) || Contains(b, s)
  {
    assert [a, b][1..] == [b] && [b][1..] == [];
    assert AnyIn([b], s) == (Contains(b, s) || AnyIn([], s));
    assert AnyIn([a, b], s) == (Contains(a, s) || AnyIn([b], s));
  }

  /** Classifies the page at `url` from the response it was served with. */
  function Analyze(url: string, resp: Response): (r: Record)
    ensures r.url == url && r.status == resp.status
    ensures r.https <==> |url| >= 5 && url[..5] == "https"
    ensures r.headers.Keys == {"X-Frame-Options", "Content-Security-Policy", "X-XSS-Protection"}
    ensures forall h | h in r.headers :: r.headers[h] <==> h in resp.headers
    ensures r.login <==> Occurs("login", Lower(url)) || Occurs("signin", Lower(url))
    ensures r.admin <==> Occurs("admin", Lower(url)) || Occurs("dashboard", Lower(url))
  {
    var lower := Lower(url);
    ContainsIff("login", lower);
    ContainsIff("signin", lower);
    ContainsIff("admin", lower);
    ContainsIff("dashboard", lower);
    AnyInPair("login", "signin", lower);
    AnyInPair("admin", "dashboard", lower);
    Record(
      url,
      resp.status,
      StartsWith(url, "https"),
      map h | h in SecHeaders :: h in resp.headers,
      AnyIn(["login", "signin"], lower),
      AnyIn(["admin", "dashboard"], lower))
  }

  /** The risk levels printed in the report. */
  datatype Risk = Low | Medium | High

  /** The rule of `make_pdf`: start at LOW, raise to MEDIUM for a page that
      is not https or looks like an admin page, and to HIGH for an error
      status, which overrides MEDIUM. */
  function RiskOf(r: Record): (risk: Risk)
    ensures risk == High <==> r.status >= 400
    ensures risk == Medium <==> r.status < 400 && (!r.https || r.admin)
    ensures risk == Low <==> r.status < 400 && r.https && !r.admin
  {
    var risk := Low;
    var risk' := if !r.https || r.admin then Medium else risk;
    if r.status >= 400 then High else risk'
  }
}
