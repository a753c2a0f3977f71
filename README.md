# databases-searcher, modelled in Dafny

A model of the search proxy in `src/app.py`. The proxy takes `/search?q=...&per_page=...`,
forwards the query to an upstream "database discovery" search API, pulls result records
out of the HTML fragment in the upstream's JSON answer, and returns a JSON envelope.

- `wrappers.dfy` — `Option`, used wherever the source has `None` or an absent key.
- `decimal.dfy` — Python's rendering of an `int` as text, used in the "Received {code}"
  message, with a round-trip lemma against the value of a digit string.
- `extractor.dfy` — `parse_results`. The HTML arrives already parsed, as a sequence of
  result containers. Each container holds the texts of its title elements, its anchors
  (each with an optional `href`) and the texts of its description elements, in document
  order. `Extractions` gives what each container yields (a record or None). The
  specification function `Scan` describes the loop with its collected list and cutoff, and
  `ResultsOf` applies it to the extractions. `Extracted` gives every record with no limit,
  and `Yielding` the positions of the containers that yield one. The method
  `ParseResults` is the source's loop (inner loops that overwrite, a counter, a `break`),
  proved equal to `ResultsOf`. Since the method equals a function of its inputs, two runs
  on the same input give the same list.
- `searcher.dfy` — `search` as the pure function `Search`, and `build_no_results` as the
  function `NoResults`. `Search` takes the configuration, the `q` argument, the
  `per_page` argument and the upstream outcome. It returns the upstream request it sends
  (None when it sends none) and the reply. It delegates the reply to a sent request to
  `Respond`, which builds the success envelope with `Envelope`; `Envelope` calls
  `NoResults` when the total is not positive.

## Behaviour worth noting

- With `limit <= 0` the first container still yields its record, because `i >= limit`
  is tested only after a container is processed (src/app.py:170-171).
  `Extractor.ResultsBound` states this.
- `description` is always set: it is `None` when the container has no description
  element (src/app.py:155, 161-162, 166). `Extractor.Record` always has the field.
- The link is the `href` of the last anchor that has one, because every later anchor
  overwrites `href` (src/app.py:159-160). `Extractor.LastHrefIsLastLinked` states this.
- A missing or empty `q` is answered with 400 by the handler itself, before any other
  argument is read (src/app.py:58-63). `Searcher.QueryRequired` states this.

## Model

| member | source | states |
|---|---|---|
| `Decimal.NatToStringRoundTrip` | src/app.py:105 | reading back the decimal rendering of a natural number gives that number |
| `Decimal.IntToString` | src/app.py:105 | the rendering of a code is non-empty, starts with a minus sign exactly when the code is negative, and is digits after that |
| `Decimal.IntToStringInjective` | src/app.py:105 | different status codes are rendered as different texts |
| `Extractor.Extract` | src/app.py:157-169 | a container yields a record exactly when it has a title element and an anchor with an href; the record carries the last title, the last href, the last description or None, and item format "database" |
| `Extractor.Scan` | src/app.py:151-171 | the scan only appends to what it has collected, at most one record per remaining container, and stops at `limit` records (one past the collected count when that already reaches the limit) |
| `Extractor.ResultsOf` | src/app.py:147-173 | the list `parse_results` returns has at most one record per container, and at most `limit` records (at most one when `limit <= 0`) |
| `Extractor.ScanContainer` | src/app.py:153-162 | after the three inner loops, `rtitle`, `href` and `desc` hold the last title text, the href of the last anchor that has one, and the last description text (None when there is none) |
| `Extractor.ParseResults` | src/app.py:147-173 | the loop with its counter and `break` returns exactly `ResultsOf(cs, limit)` |
| `Extractor.LastHrefIsLastLinked` | src/app.py:159-160 | the link is the href of an anchor after which no anchor has one; there is none exactly when no anchor has an href |
| `Extractor.ExtractLastWins` | src/app.py:153-169 | a container yields a record iff it has a title element and an anchor with an href; the record carries the last title, the last href, the last description or None, and item format "database" |
| `Extractor.ScanTakesFront` | src/app.py:151-171 | while the count is below the limit, the rest of the scan appends the first `limit - count` records of the remaining containers, in order |
| `Extractor.FirstPresentIsPrefix` | src/app.py:151-171 | the first `n` records of the remaining containers are a prefix of all their records, `min(n, total)` long |
| `Extractor.ResultsArePrefix` | src/app.py:151-171 | for every limit, the output is a prefix of all records the containers yield in document order: truncated from the front, never sampled |
| `Extractor.ResultsBound` | src/app.py:151-171 | with `limit >= 1` the output has `min(limit, n)` records for `n` complete containers; with `limit <= 0` it is the first container's record or nothing; never more than `max(limit, 1)` |
| `Extractor.YieldingIsOrderedSource` | src/app.py:152-169 | the containers that yield records are listed in increasing order, all of them and only them, and the i-th record comes from the i-th of them |
| `Extractor.ResultsInSourceOrder` | src/app.py:152-169 | each output record is the record of a distinct container, has item format "database", and records keep their containers' order |
| `Searcher.RequestFor` | src/app.py:74-87 | the upstream request goes to the configured base URL with exactly the parameters site_id, search_action, is_widget "0" and search = the query |
| `Searcher.NoResults` | src/app.py:140-144 | the no-results error has message "No Results" and the configured no-results URL |
| `Searcher.StatusMessage` | src/app.py:105 | the message is "Received ", the code in decimal, " for q=" and the query, and the code reads back from the message |
| `Searcher.Envelope` | src/app.py:112-137 | endpoint "databases", the query, per_page 3, page 1 and module_link = module URL + query; the total is `data.count`, or 0 without `data`; results iff total > 0, a prefix of the records the HTML yields and no more than the limit allows; otherwise the no-results error |
| `Searcher.Respond` | src/app.py:86-137 | the reply is 200 exactly when the upstream answered 200 or 206, and is then the envelope; otherwise 500 with endpoint "databases" and only an error message (no query, per_page, page, total, results or module_link): "Search error" for a transport failure, "Received {code} for q={query}" for another status |
| `Searcher.Search` | src/app.py:53-137 | a request is sent iff `q` is non-empty and `per_page` is usable; JSON replies are 200, 400 or 500; a 200 envelope has endpoint "databases", the query, per_page 3, page 1, module_link = module URL + query, a total, results iff total > 0, otherwise the no-results error; error replies carry no query, per_page, page, total, results or module_link |
| `Searcher.QueryRequired` | src/app.py:57-63 | missing or empty `q` gives 400 with only `error.msg` "q parameter is required", whatever the other inputs, and sends no request |
| `Searcher.DefaultLimitIsThree` | src/app.py:70-72 | a missing or empty `per_page` behaves exactly as `per_page=3` |
| `Searcher.TransportFailureReply` | src/app.py:86-97 | a transport failure gives 500 with endpoint "databases" and message "Search error" only |
| `Searcher.UnexpectedStatusReply` | src/app.py:99-107 | a status other than 200 and 206 gives 500 with endpoint "databases" and message "Received {code} for q={query}" only |
| `Searcher.StatusMessageNamesCode` | src/app.py:105 | different status codes give different messages |
| `Searcher.SuccessEnvelope` | src/app.py:112-144 | on 200 or 206 the total is `data.count` when `data` is present and 0 otherwise; results are the extraction of `data.html` at the requested limit when the total is positive, otherwise the error is "No Results" with the configured URL |
| `Searcher.SuccessResultCount` | src/app.py:112-137 | with a positive total, results are a prefix of the complete containers' records, with `min(limit, n)` entries when `limit >= 1` and at most one when `limit <= 0`; the total stays the upstream count |

## Left out

- Environment loading and the start-up check for missing variables (src/app.py:13-25): the configuration is the `Config` value given to `Search`.
- Logging (src/app.py:27-37, 89-90, 100, 109-110): it has no effect on the reply.
- The Flask application, the `/` and `/ping` routes, `JSON_AS_ASCII` and the waitress server (src/app.py:39-50, 180-187): web framework wiring.
- The upstream GET through `requests` and `furl` (src/app.py:83-87): network I/O in a foreign library. Its outcome is the `Outcome` parameter, and `Search` reports the request it sends. URL encoding of the parameters is not modelled.
- `json.loads` (src/app.py:112): the payload arrives decoded. A body that is not JSON makes the source raise, and that case is not modelled. The decoded body is assumed to be a JSON object whose `data`, when present, is an object. Other shapes are not modelled: `"data": null`, or a top-level string that contains "data", raises TypeError (src/app.py:115); a top-level number raises TypeError at the `in` test (src/app.py:114); a top-level list gives the no-results envelope.
- The BeautifulSoup parse and `.text` flattening (src/app.py:149, 158, 162): the containers arrive parsed. A result container nested inside another is not modelled; the source would count its title and anchors for both.
- Python's `int()` syntax for `per_page` (src/app.py:72): `per_page` arrives as `Integer(n)` or `NotAnInteger`. For `NotAnInteger` the reply is `Unhandled("ValueError")`; the framework's error page is not modelled.
- The `KeyError` raised when `data` lacks `html` or `count` (src/app.py:115, 119), and a `count` that is not an integer: `Data` always holds both, with an integer count.
- `get_total_records` (src/app.py:176-177): nothing calls it.
