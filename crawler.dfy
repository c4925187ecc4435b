/** The recursive same-host crawler `crawl(url, base)`, as a function of the
    web it talks to and of the scan state (`visited`, `results`) it updates.
    The imperative version, over the module-level state, is `Bot.Scanner.Crawl`,
    which is proved equal to this one. */
module Crawler {
  import opened Wrappers
  import opened Text
  import opened Analysis

  /** The outside world the crawler calls. `None` stands for a call that
      raises.
      - fetch:   the `requests.get(url)` inside `analyze`;
      - refetch: the second `requests.get(url).text` together with the parse;
      - anchors: the `href` values of the `<a href>` tags of a body, in order;
      - netloc:  `urlparse(u).netloc`;
      - join:    `urljoin(page, href)`. */
  datatype Web = Web(
    fetch: string -> Option<Response>,
    refetch: string -> Option<string>,
    anchors: string -> seq<string>,
    netloc: string -> Option<string>,
    join: (string, string) -> Option<string>)

  /** The module-level `visited` set and `results` list. */
  datatype State = State(visited: set<string>, results: seq<Record>)

  /** What one call of `crawl` leaves behind: whether it raised (out of its
      guard, which is outside its `try`) and the new state. */
  datatype Outcome = Outcome(raised: bool, st: State)

  /** `url` passes the host test of the guard: both netlocs parse and agree
      (scheme is not compared). */
  predicate SameHost(web: Web, url: string, base: string)
  {
    web.netloc(url).Some? && web.netloc(base).Some? && web.netloc(url) == web.netloc(base)
  }

  /** `crawl(url, base)` run with `depth` further nested calls left before
      the interpreter's recursion limit: at 0 the call raises before it
      does anything. */
  function CrawlResult(web: Web, url: string, base: string, depth: nat, s: State): Outcome
    decreases depth, 0
  {
    if depth == 0 then Outcome(true, s)
    else if url in s.visited then Outcome(false, s)
    else if web.netloc(url).None? || web.netloc(base).None? then Outcome(true, s)
    else if web.netloc(url) != web.netloc(base) then Outcome(false, s)
    else
      var marked := State(s.visited + {url}, s.results);
      match web.fetch(url)
      case None => Outcome(false, marked)
      case Some(resp) =>
        var recorded := State(marked.visited, marked.results + [Analyze(url, resp)]);
        match web.refetch(url)
        case None => Outcome(false, recorded)
        case Some(body) => Outcome(false, FollowResult(web, url, base, depth - 1, web.anchors(body), recorded))
  }

  /** The loop over the anchors of `page`: resolve, cut at `#`, recurse; an
      exception (from `urljoin` or raised by the nested call) ends the loop. */
  function FollowResult(web: Web, page: string, base: string, depth: nat, hrefs: seq<string>, s: State): State
    decreases depth, |hrefs| + 1
  {
    if hrefs == [] then s
    else match web.join(page, hrefs[0])
      case None => s
      case Some(abs) =>
        var o := CrawlResult(web, BeforeHash(abs), base, depth, s);
        if o.raised then o.st else FollowResult(web, page, base, depth, hrefs[1..], o.st)
  }

  /** `r` is what `analyze` returns for its URL, whose fetch succeeded. */
  predicate Recorded(web: Web, r: Record)
  {
    web.fetch(r.url).Some? && r == Analyze(r.url, web.fetch(r.url).value)
  }

  /** How a state may evolve during a scan rooted at `base`: `visited` only
      grows, `results` is only appended to, every newly visited URL is on the
      base's host, and every new record belongs to a URL newly visited, comes
      from a successful fetch and names a URL no other new record names. */
  ghost predicate Grows(web: Web, base: string, s: State, t: State)
  {
    && s.visited <= t.visited
    && s.results <= t.results
    && (forall u | u in t.visited && u !in s.visited :: SameHost(web, u, base))
    && (forall i | |s.results| <= i < |t.results| ::
          t.results[i].url in t.visited && t.results[i].url !in s.visited && Recorded(web, t.results[i]))
    && (forall i, j | |s.results| <= i < j < |t.results| :: t.results[i].url != t.results[j].url)
  }

  /** The invariant of the scan state: every record's URL was visited and no
      URL has two records. */
  ghost predicate Consistent(s: State)
  {
    && (forall i | 0 <= i < |s.results| :: s.results[i].url in s.visited)
    && (forall i, j | 0 <= i < j < |s.results| :: s.results[i].url != s.results[j].url)
  }

  /** Growth composes: two successive growths are one. */
  lemma GrowsTrans(web: Web, base: string, s: State, m: State, t: State)
    requires Grows(web, base, s, m) && Grows(web, base, m, t)
    ensures Grows(web, base, s, t)
  {
  }

  /** A state that grows from a consistent one is consistent. */
  lemma GrowsKeepsConsistent(web: Web, base: string, s: State, t: State)
    requires Consistent(s) && Grows(web, base, s, t)
    ensures Consistent(t)
  {
  }

  /** One call of `crawl`: the state grows; a call that raises changes
      nothing; every URL it newly visits other than `url` itself has no `#`;
      and the first record it appends, if any, is `url`'s own, ahead of the
      records of every page reached through its links (depth-first
      pre-order). */
  lemma {:induction false} CrawlGrows(web: Web, url: string, base: string, depth: nat, s: State)
    ensures var o := CrawlResult(web, url, base, depth, s);
      && Grows(web, base, s, o.st)
      && (o.raised ==> o.st == s)
      && (forall u | u in o.st.visited && u !in s.visited :: u == url || '#' !in u)
      && (|o.st.results| > |s.results| ==> o.st.results[|s.results|].url == url)
    decreases depth, 0
  {
    if depth == 0 || url in s.visited || !SameHost(web, url, base) {
    } else {
      var marked := State(s.visited + {url}, s.results);
      match web.fetch(url)
      case None =>
      case Some(resp) =>
        var recorded := State(marked.visited, marked.results + [Analyze(url, resp)]);
        match web.refetch(url)
        case None =>
        case Some(body) =>
          var t := FollowResult(web, url, base, depth - 1, web.anchors(body), recorded);
          FollowGrows(web, url, base, depth - 1, web.anchors(body), recorded);
          GrowsTrans(web, base, s, recorded, t);
          assert t.results[|s.results|] == recorded.results[|s.results|];
    }
  }

  /** The anchor loop of one page: the state grows and every URL it newly
      visits has no `#`. */
  lemma {:induction false} FollowGrows(web: Web, page: string, base: string, depth: nat, hrefs: seq<string>, s: State)
    ensures var t := FollowResult(web, page, base, depth, hrefs, s);
      && Grows(web, base, s, t)
      && (forall u | u in t.visited && u !in s.visited :: '#' !in u)
    decreases depth, |hrefs| + 1
  {
    if hrefs != [] {
      match web.join(page, hrefs[0])
      case None =>
      case Some(abs) =>
        var o := CrawlResult(web, BeforeHash(abs), base, depth, s);
        CrawlGrows(web, BeforeHash(abs), base, depth, s);
        if !o.raised {
          var t := FollowResult(web, page, base, depth, hrefs[1..], o.st);
          FollowGrows(web, page, base, depth, hrefs[1..], o.st);
          GrowsTrans(web, base, s, o.st, t);
        }
    }
  }

  /** A URL already visited, or on another host (or whose host cannot be
      parsed), leaves the state exactly as it was. Below the recursion
      limit, a visited or other-host URL is a plain `return`: it does not
      raise, so the caller's anchor loop goes on. Only a netloc that cannot
      be parsed (for a URL not yet visited) raises. */
  lemma Rejected(web: Web, url: string, base: string, depth: nat, s: State)
    requires url in s.visited || !SameHost(web, url, base)
    ensures CrawlResult(web, url, base, depth, s).st == s
    ensures depth > 0 && (url in s.visited || (web.netloc(url).Some? && web.netloc(base).Some?))
      ==> CrawlResult(web, url, base, depth, s) == Outcome(false, s)
    ensures depth > 0 && url !in s.visited && (web.netloc(url).None? || web.netloc(base).None?)
      ==> CrawlResult(web, url, base, depth, s) == Outcome(true, s)
  {
  }

  /** An anchor that resolves to an already visited or other-host URL is
      skipped: the loop goes on with the next anchor from the same state. */
  lemma RejectedLinkSkipped(
    web: Web, page: string, base: string, depth: nat, href: string, rest: seq<string>, s: State)
    requires depth > 0 && web.join(page, href).Some?
    requires var link := BeforeHash(web.join(page, href).value);
      link in s.visited
      || (web.netloc(link).Some? && web.netloc(base).Some? && web.netloc(link) != web.netloc(base))
    ensures FollowResult(web, page, base, depth, [href] + rest, s) == FollowResult(web, page, base, depth, rest, s)
  {
  }

  /** A page is marked visited before it is fetched: when the fetch in
      `analyze` fails the URL is visited and recorded nowhere, and since it
      is visited no later call of the scan fetches it again or records it. */
  lemma FetchFailure(web: Web, url: string, base: string, depth: nat, s: State, later: State)
    requires depth > 0 && url !in s.visited && SameHost(web, url, base)
    requires web.fetch(url).None?
    requires Grows(web, base, CrawlResult(web, url, base, depth, s).st, later)
    ensures CrawlResult(web, url, base, depth, s) == Outcome(false, State(s.visited + {url}, s.results))
    ensures url in later.visited
    ensures forall i | |s.results| <= i < |later.results| :: later.results[i].url != url
  {
  }

  /** When the second fetch (or the parse) fails after the record was
      appended, the record stays and no link of the page is followed. */
  lemma RecordKeptWithoutLinks(web: Web, url: string, base: string, depth: nat, s: State)
    requires depth > 0 && url !in s.visited && SameHost(web, url, base)
    requires web.fetch(url).Some? && web.refetch(url).None?
    ensures CrawlResult(web, url, base, depth, s)
         == Outcome(false, State(s.visited + {url}, s.results + [Analyze(url, web.fetch(url).value)]))
  {
  }

  /** A URL that passes the guard is visited after the call, whatever its
      fetches and links do, so it is never attempted again in the scan. */
  lemma AttemptIsVisited(web: Web, url: string, base: string, depth: nat, s: State)
    requires depth > 0 && url !in s.visited && SameHost(web, url, base)
    ensures var o := CrawlResult(web, url, base, depth, s);
      !o.raised && url in o.st.visited
      && CrawlResult(web, url, base, depth, o.st).st == o.st
  {
    var o := CrawlResult(web, url, base, depth, s);
    CrawlGrows(web, url, base, depth, s);
    if web.fetch(url).Some? && web.refetch(url).Some? {
      var recorded := State(s.visited + {url}, s.results + [Analyze(url, web.fetch(url).value)]);
      FollowGrows(web, url, base, depth - 1, web.anchors(web.refetch(url).value), recorded);
    }
  }
}
