/** A worked example of the crawler on a small, fully defined web. */
module Scenarios {
  import opened Wrappers
  import opened Text
  import opened Analysis
  import opened Crawler

  /** The home page links to `page` on its own host and to `away` on
      another; `page` links back home with a fragment. Every fetch returns
      200 and a body equal to the URL. */
  function TwoPageSite(home: string, page: string, away: string): Web
  {
    Web(
      u => Some(Response(200, {})),
      u => Some(u),
      body => if body == home then [page, away] else if body == page then [home + "#" + "top"] else [],
      u => Some(if u == away then "other.example" else "a.example"),
      (at, href) => Some(href))
  }

  /** The URLs of the example: distinct, and free of `#`. */
  predicate Distinct(home: string, page: string, away: string)
  {
    && '#' !in home && '#' !in page && '#' !in away
    && home != page && home != away && page != away
  }

  /** The linked page records itself; its one link, home with a fragment,
      is cut to the home page, which is already visited. */
  lemma PageStep(home: string, page: string, away: string, s0: State, s1: State)
    requires Distinct(home, page, away)
    requires s0 == State({home}, [Analyze(home, Response(200, {}))])
    requires s1 == State({home, page}, [Analyze(home, Response(200, {})), Analyze(page, Response(200, {}))])
    ensures CrawlResult(TwoPageSite(home, page, away), page, home, 2, s0) == Outcome(false, s1)
  {
    var web := TwoPageSite(home, page, away);
    var ok := Response(200, {});
    var link := home + "#" + "top";
    BeforeHashOf(home, "top");
    assert page !in s0.visited;
    assert web.netloc(page) == Some("a.example") && web.netloc(home) == Some("a.example");
    assert web.fetch(page) == Some(ok);
    assert State(s0.visited + {page}, s0.results + [Analyze(page, ok)]) == s1;
    assert web.refetch(page) == Some(page);
    assert web.anchors(page) == [link];
    assert web.join(page, link) == Some(link);
    assert BeforeHash(link) == home;
    assert CrawlResult(web, home, home, 1, s1) == Outcome(false, s1);
    assert [link][1..] == [];
    assert FollowResult(web, page, home, 1, [link], s1) == s1;
  }

  /** The crawl records the home page and then the page it links to, never
      visits the other host, and does not return home through the link
      with a fragment. */
  lemma TwoPageScan(home: string, page: string, away: string)
    requires Distinct(home, page, away)
    ensures CrawlResult(TwoPageSite(home, page, away), home, home, 3, State({}, []))
         == Outcome(false, State({home, page}, [Analyze(home, Response(200, {})), Analyze(page, Response(200, {}))]))
  {
    var web := TwoPageSite(home, page, away);
    var ok := Response(200, {});
    var s0 := State({home}, [Analyze(home, ok)]);
    var s1 := State({home, page}, [Analyze(home, ok), Analyze(page, ok)]);
    BeforeHashOf(page, "");
    BeforeHashOf(away, "");
    PageStep(home, page, away, s0, s1);
    assert State({} + {home}, [] + [Analyze(home, ok)]) == s0;
    assert web.anchors(home) == [page, away];
    assert CrawlResult(web, away, home, 2, s1) == Outcome(false, s1);
    assert [away][1..] == [];
    assert FollowResult(web, home, home, 2, [away], s1) == s1;
    assert [page, away][1..] == [away];
    assert FollowResult(web, home, home, 2, [page, away], s0) == s1;
  }
}
