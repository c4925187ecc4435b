# Web scanner bot: crawler, page classifier and risk rule

`webscanner_bot.py` is a Telegram bot. It crawls the pages of one web site reachable from a
target URL, classifies each page (HTTPS, three security headers, login-like and admin-like
URLs, status) and writes a PDF report with a LOW / MEDIUM / HIGH risk for each page. This
project models the logic inside the bot and proves its properties. The Telegram, HTTP, HTML
and PDF plumbing around it is not modelled.

- `wrappers.dfy`, module `Wrappers`: `Option`. `None` stands for an absent value, or for a
  library call that raised.
- `text.dfy`, module `Text`: the string operations the bot uses. These are `str.lower`,
  `str.startswith`, the substring test `in`, `split("#")[0]` (`BeforeHash`) and
  `rstrip("/")` (`TrimTrailingSlashes`).
- `analysis.dfy`, module `Analysis`: the flag computation of `analyze`, the constant
  `SEC_HEADERS`, and the risk rule of `make_pdf` (`RiskOf`).
- `crawler.dfy`, module `Crawler`: `crawl(url, base)` as a function of the web and of the
  scan state. `CrawlResult` is one call and `FollowResult` is its loop over anchors. The
  module also holds the invariant `Consistent` and the growth relation `Grows`, with lemmas
  about both.
- `bot.dfy`, module `Bot`: class `Scanner`. Its fields are the module-level `visited` set,
  the `results` list and the stored target (`context.user_data["url"]`). Its methods are:
  - `Crawl`: the recursive `crawl`, which updates the fields in place and is proved equal to
    `CrawlResult`;
  - `Scan`: the `scan` button;
  - `Pdf`: the `pdf` button;
  - `MakeReport`: the loop of `make_pdf`;
  - `SetTarget`: the `/target` command.
- `scenarios.dfy`, module `Scenarios`: a worked crawl of a two-page site that also links to
  another host.

The outside world is a value `Web` of five functions:
- `fetch`: the `requests.get` inside `analyze`;
- `refetch`: the second `requests.get(url).text` together with its parse;
- `anchors`: the `href`s of a body's `<a>` tags;
- `netloc`: `urlparse(u).netloc`;
- `join`: `urljoin`.

A result of `None` means that the call raised. This lets the model follow the code's
exception paths:
- The guard of `crawl` (`webscanner_bot.py:37`) is outside the `try`. A `urlparse` that
  raises there, or the recursion limit, makes the nested call raise to its caller. The
  caller's `except` then ends the caller's anchor loop.
- Inside the `try`, a failed first fetch leaves the URL visited and unrecorded.
- A failed second fetch keeps the record but follows no links.
- A raising `urljoin` stops the loop at that anchor.

`crawl` has no page cap and no queue. It is an unbounded depth-first recursion, stopped only
by Python's recursion limit. The model gives it a `depth` parameter: the number of nested
calls left before `RecursionError`. At 0 the call raises before it does anything. There is
no progress reporting either, and the model adds none of these.

The guard compares the two raw netloc strings (userinfo, host and port), not the scheme:
`SameHost` compares the two `netloc` values as given, with no case folding and no
default-port normalisation.

A URL that `analyze` fails on stays in `visited`. So a URL is attempted at most once per scan, and a record exists only for a URL whose first fetch succeeded
(`Recorded`).

## Model

| member | source | states |
|---|---|---|
| Text.Lower | webscanner_bot.py:32-33 | `url.lower()` keeps the length, maps each ASCII capital to its small letter and keeps every other character |
| Text.ContainsIff | webscanner_bot.py:32-33 | the left-to-right substring scan used for `x in url.lower()` is true exactly when the needle occurs at some position of the string (both directions) |
| Text.BeforeHash | webscanner_bot.py:47 | `split("#")[0]` is a prefix of its input that contains no `#`, and when it is shorter than the input the next character is `#`, so the cut is at the first `#` |
| Text.BeforeHashOf | webscanner_bot.py:47 | for a part `a` without `#`, cutting `a + "#" + b` gives exactly `a`, and `a` alone is kept whole |
| Text.TrimTrailingSlashes | webscanner_bot.py:119 | `rstrip("/")` gives a prefix of its input that is empty or does not end with `/`, and everything it removed is `/` |
| Analysis.AnyInPair | webscanner_bot.py:32-33 | `any(x in s for x in [a, b])` holds exactly when `a` or `b` is in `s` |
| Analysis.Analyze | webscanner_bot.py:21-34 | the record keeps the URL and status; `https` holds iff the URL starts with `"https"`; the header map has exactly the three SEC_HEADERS keys, each true iff the response has that header; `login` iff the lower-cased URL contains `login` or `signin`; `admin` iff it contains `admin` or `dashboard` |
| Analysis.RiskOf | webscanner_bot.py:61-65 | HIGH iff status >= 400; MEDIUM iff status < 400 and the page is not https or is admin-like; LOW iff status < 400, https and not admin-like |
| Crawler.GrowsKeepsConsistent | webscanner_bot.py:37-43 | from a consistent state (every record's URL visited, no URL recorded twice), any state the scan grows it into is consistent |
| Crawler.CrawlGrows | webscanner_bot.py:36-50 | one `crawl` call only adds to `visited` and appends to `results`. Every newly visited URL is on the base's host. Every new record is for a newly visited URL whose fetch succeeded, and no two new records share a URL. A raising call changes nothing. Newly visited URLs other than the start have no `#`. The first record the call appends is the start page's own (depth-first pre-order) |
| Crawler.FollowGrows | webscanner_bot.py:45-48 | the anchor loop of a page grows the state in the same way, and every URL it passes to a nested `crawl` that gets visited has no `#` |
| Crawler.Rejected | webscanner_bot.py:37-38 | a URL already visited, or whose netloc differs from the base's or cannot be parsed, leaves `visited` and `results` unchanged; below the recursion limit a visited or other-host URL returns without raising, while an unparseable netloc of an unvisited URL raises |
| Crawler.RejectedLinkSkipped | webscanner_bot.py:45-48 | an anchor that resolves to a visited or other-host URL is skipped: the anchor loop continues with the next anchor from the same state |
| Crawler.FetchFailure | webscanner_bot.py:39-42 | a URL whose first fetch fails ends up visited with no record. Every later state of the scan keeps it visited and never gives it a record |
| Crawler.RecordKeptWithoutLinks | webscanner_bot.py:42-50 | when the second fetch fails after the record is appended, the record stays and no link of the page is followed |
| Crawler.AttemptIsVisited | webscanner_bot.py:37-39 | a URL that passes the guard does not raise and is visited after its call, so crawling it again changes nothing |
| Bot.Scanner.constructor | webscanner_bot.py:18-19 | the bot starts with empty `visited` and `results` and no stored target |
| Bot.Scanner.Crawl | webscanner_bot.py:36-50 | the in-place `crawl` leaves exactly the state and raise/no-raise outcome that `CrawlResult` gives for the old state, and does not touch the target |
| Bot.Scanner.Scan | webscanner_bot.py:101-109 | `visited` and `results` are reset first. With no target or an empty one, nothing is crawled and both stay empty. Otherwise the state is that of `crawl(target, target)` from the empty state. The reported page count is `len(results)`. Afterwards the state is consistent, every visited URL is on the target's host and is the target or has no `#`, and every record comes from a successful fetch |
| Bot.Scanner.SetTarget | webscanner_bot.py:118-119 | with an argument the target becomes the argument without trailing `/`, so a stored target never ends with `/`; without one nothing changes; `visited` and `results` are never touched |
| Bot.Scanner.MakeReport | webscanner_bot.py:60-65 | one report row per record, in the order of `results`, each with the risk the rule assigns to it |
| Bot.Scanner.Pdf | webscanner_bot.py:111-115 | no report exactly when `results` is empty, otherwise one row per record with its risk |
| Scenarios.TwoPageScan | webscanner_bot.py:36-50 | example site: the home page links to a page on its own host and to one on another host, and that page links back home with a fragment. The crawl records the home page and then the linked page, visits exactly those two, and never visits the other host |

## Left out

- Telegram: the `start` handler, the reply texts, the keyboards, `q.answer`, sending the document and `app.run_polling` (`webscanner_bot.py:78-128`). Only their effect on the scan state is modelled.
- The `toggle` button and `VULN_SCAN` (`webscanner_bot.py:20`, `97-99`): nothing else reads the flag.
- PDF layout and writing `report.pdf` (`webscanner_bot.py:52-59`, `66-76`): rendering and file output. The report is modelled as its rows (record and risk).
- HTTP, HTML parsing and URL parsing: `requests.get` (with its timeout), BeautifulSoup, `urljoin` and `urlparse` are library calls. Each one is a field of `Web` that may fail. Its actual behaviour is not modelled.
- Bot.Scanner.Crawl: the recursion limit is a parameter. The number of stack frames the bot, the event loop and the libraries use is not known. A `RecursionError` raised inside a library call within the `try` shows up as a failed fetch.
- Analysis.Analyze: header presence is exact membership of the name in a set. The case-insensitive lookup of the `requests` header dictionary is not modelled.
- Analysis.Analyze: `str.lower()` is modelled for the ASCII letters only. Other characters are kept unchanged.
- Bot.Scanner.Scan: when the top-level `crawl` raises, the model answers `Crashed` and the state stays reset. The model does not capture how the handler and the Telegram library then report the exception.
- Bot.Scanner.SetTarget: the target lives in per-user `user_data`, while `visited` and `results` are shared module globals. The model keeps one user's target beside the globals. Several users and overlapping scans are not modelled.
- Concurrency: the handlers run on one asyncio loop, and `crawl` blocks it. No interleaving is modelled.
