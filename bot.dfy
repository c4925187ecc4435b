/** The state the bot keeps between button presses and the imperative
    `crawl`, the `scan` and `pdf` buttons and the `/target` command, as far
    as they touch that state. */
module Bot {
  import opened Wrappers
  import opened Text
  import opened Analysis
  import opened Crawler

  /** What the `scan` button answers: no target set, the crawl raised out
      of its top-level call, or the number of pages found. */
  datatype ScanReply = NoTarget | Crashed | Complete(pages: nat)

  /** One entry of the PDF report: a record and the risk printed beside it. */
  datatype Row = Row(record: Record, risk: Risk)

  /** `target` is a stored `/target` argument: it never ends with `/`. */
  predicate Untrailed(target: Option<string>)
  {
    target.Some? ==> target.value == [] || target.value[|target.value| - 1] != '/'
  }

  class Scanner {
    /** The module-level `visited` set. */
    var visited: set<string>
    /** The module-level `results` list. */
    var results: seq<Record>
    /** `context.user_data["url"]`, absent until `/target` has run. */
    var target: Option<string>

    function Snapshot(): State
      reads this
    {
      State(visited, results)
    }

    ghost predicate Valid()
      reads this
    {
      Consistent(Snapshot()) && Untrailed(target)
    }

    /** The state at start-up: empty `visited` and `results`, no target. */
    constructor ()
      ensures Valid()
      ensures visited == {} && results == [] && target == None
    {
      visited, results, target := {}, [], None;
    }

    /** `crawl(url, base)` over the module-level state; `depth` is the
        number of nested calls left before the recursion limit. */
    method Crawl(web: Web, url: string, base: string, depth: nat) returns (raised: bool)
      modifies this
      ensures target == old(target)
      ensures Outcome(raised, Snapshot()) == CrawlResult(web, url, base, depth, old(Snapshot()))
      decreases depth
    {
      if depth == 0 {
        return true;
      }
      if url in visited {
        return false;
      }
      var host, baseHost := web.netloc(url), web.netloc(base);
      if host.None? || baseHost.None? {
        return true;
      }
      if host != baseHost {
        return false;
      }
      visited := visited + {url};
      var resp := web.fetch(url);
      if resp.None? {
        return false;
      }
      results := results + [Analyze(url, resp.value)];
      var body := web.refetch(url);
      if body.None? {
        return false;
      }
      var hrefs := web.anchors(body.value);
      ghost var start := Snapshot();
      var i, stopped := 0, false;
      while i < |hrefs| && !stopped
        invariant 0 <= i <= |hrefs|
        invariant target == old(target)
        invariant stopped ==> Snapshot() == FollowResult(web, url, base, depth - 1, hrefs, start)
        invariant !stopped ==>
          FollowResult(web, url, base, depth - 1, hrefs[i..], Snapshot()) == FollowResult(web, url, base, depth - 1, hrefs, start)
        decreases |hrefs| - i, !stopped
      {
        assert hrefs[i..][0] == hrefs[i] && hrefs[i..][1..] == hrefs[i + 1..];
        var abs := web.join(url, hrefs[i]);
        if abs.None? {
          stopped := true;
        } else {
          var nested := Crawl(web, BeforeHash(abs.value), base, depth - 1);
          if nested {
            stopped := true;
          } else {
            i := i + 1;
          }
        }
      }
      return false;
    }

    /** The `scan` button: reset `visited` and `results`, then, when a
        target is stored, crawl from it with the target as base. */
    method Scan(web: Web, limit: nat) returns (reply: ScanReply)
      requires Valid()
      modifies this
      ensures Valid()
      ensures target == old(target)
      ensures reply.NoTarget? <==> target.None? || target.value == []
      ensures reply.NoTarget? || reply.Crashed? ==> visited == {} && results == []
      ensures !reply.NoTarget? ==>
        Outcome(reply.Crashed?, Snapshot()) == CrawlResult(web, target.value, target.value, limit, State({}, []))
      ensures reply.Complete? ==> reply.pages == |results|
      ensures target.Some? ==> forall u | u in visited :: SameHost(web, u, target.value)
      ensures target.Some? ==> forall u | u in visited :: u == target.value || '#' !in u
      ensures target.Some? ==> forall i | 0 <= i < |results| :: Recorded(web, results[i])
    {
      visited, results := {}, [];
      if target.None? || target.value == [] {
        return NoTarget;
      }
      var url := target.value;
      var raised := Crawl(web, url, url, limit);
      CrawlGrows(web, url, url, limit, State({}, []));
      GrowsKeepsConsistent(web, url, State({}, []), Snapshot());
      if raised {
        return Crashed;
      }
      return Complete(|results|);
    }

    /** The `/target` command: store its first argument without trailing
        slashes. Without an argument the handler raises and nothing is
        stored. */
    method SetTarget(args: seq<string>) returns (ok: bool)
      requires Valid()
      modifies this
      ensures Valid()
      ensures ok <==> |args| > 0
      ensures visited == old(visited) && results == old(results)
      ensures ok ==> target == Some(TrimTrailingSlashes(args[0]))
      ensures !ok ==> target == old(target)
    {
      if |args| == 0 {
        return false;
      }
      target := Some(TrimTrailingSlashes(args[0]));
      return true;
    }

    /** The loop of `make_pdf`: one row per record, in order, with the
        record's risk. */
    method MakeReport() returns (rows: seq<Row>)
      ensures |rows| == |results|
      ensures forall i | 0 <= i < |rows| :: rows[i].record == results[i] && rows[i].risk == RiskOf(results[i])
    {
      rows := [];
      for i := 0 to |results|
        invariant |rows| == i
        invariant forall k | 0 <= k < i :: rows[k].record == results[k] && rows[k].risk == RiskOf(results[k])
      {
        rows := rows + [Row(results[i], RiskOf(results[i]))];
      }
    }

    /** The `pdf` button: no report without scan data, otherwise the report
        of every record. */
    method Pdf() returns (report: Option<seq<Row>>)
      ensures report.None? <==> results == []
      ensures report.Some? ==> |report.value| == |results| && forall i | 0 <= i < |results| ::
        report.value[i].record == results[i] && report.value[i].risk == RiskOf(results[i])
    {
      if results == [] {
        return None;
      }
      var rows := MakeReport();
      return Some(rows);
    }
  }
}
