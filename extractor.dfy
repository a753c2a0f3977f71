/** The result extractor of the databases search proxy (`parse_results`).
    The HTML fragment arrives already parsed: a sequence of `div.s-lg-az-result`
    containers in document order, each holding, in document order, the flattened
    texts of its `div.s-lg-az-result-title` elements, its `a` elements and the
    flattened texts of its `div.s-lg-az-result-description` elements. */
module Extractor {
  import opened Wrappers

  /** An `a` element of a container; `href` is None when the anchor carries no `href`. */
  datatype Anchor = Anchor(href: Option<string>)

  datatype Container = Container(titles: seq<string>, anchors: seq<Anchor>, descriptions: seq<string>)

  /** One entry of the `results` list: `description` is None when the container has no
      description element, and is never left out. */
  datatype Record = Record(title: string, link: string, description: Option<string>, itemFormat: string)

  const ItemFormat: string := "database"

  // ---------------------------------------------------------------------------
  // Specification: what one container contributes
  // ---------------------------------------------------------------------------

  /** The last element of `s`: the value a loop variable holds after a `for` over `s`. */
  function Last<T>(s: seq<T>): Option<T> {
    if s == [] then None else Some(s[|s| - 1])
  }

  /** The `href` of the last anchor that has one. */
  function LastHref(anchors: seq<Anchor>): Option<string>
    decreases |anchors|
  {
    if anchors == [] then None
    else if anchors[|anchors| - 1].href.Some? then anchors[|anchors| - 1].href
    else LastHref(anchors[..|anchors| - 1])
  }

  /** The record a container yields, or None when it lacks a title or a linked anchor. */
  function Extract(c: Container): (r: Option<Record>)
    ensures r.Some? <==> c.titles != [] && LastHref(c.anchors).Some?
    ensures r.Some? ==>
      r.value.title == c.titles[|c.titles| - 1] && Some(r.value.link) == LastHref(c.anchors) &&
      r.value.description == Last(c.descriptions) && r.value.itemFormat == "database"
  {
    var title := Last(c.titles);
    var link := LastHref(c.anchors);
    if title.Some? && link.Some? then Some(Record(title.value, link.value, Last(c.descriptions), ItemFormat))
    else None
  }

  /** What each container of `cs` yields, position by position. */
  function Extractions(cs: seq<Container>): seq<Option<Record>> {
    seq(|cs|, i requires 0 <= i < |cs| => Extract(cs[i]))
  }

  // ---------------------------------------------------------------------------
  // Specification: the scan with its cutoff, over what the containers yield
  // ---------------------------------------------------------------------------

  /** The values present in `s` from position `k` on, in order. */
  function PresentFrom<T>(s: seq<Option<T>>, k: nat): seq<T>
    requires k <= |s|
    decreases |s| - k
  {
    if k == |s| then [] else (if s[k].Some? then [s[k].value] else []) + PresentFrom(s, k + 1)
  }

  /** The positions from `k` on at which `s` holds a value, in order. */
  function PositionsFrom<T>(s: seq<Option<T>>, k: nat): seq<nat>
    requires k <= |s|
    decreases |s| - k
  {
    if k == |s| then [] else (if s[k].Some? then [k] else []) + PositionsFrom(s, k + 1)
  }

  /** The scan from position `k` of `s` with `result` already collected: each present
      value is appended, and after each position, appending or not, the scan stops once
      the count has reached `limit`. */
  function Scan<T>(s: seq<Option<T>>, limit: int, k: nat, result: seq<T>): (r: seq<T>)
    requires k <= |s|
    ensures result <= r
    ensures |r| <= |result| + (|s| - k)
    ensures |r| <= if |result| < limit then limit else |result| + 1
    decreases |s| - k
  {
    if k == |s| then result
    else
      var result' := if s[k].Some? then result + [s[k].value] else result;
      if |result'| >= limit then result' else Scan(s, limit, k + 1, result')
  }

  /** The list `parse_results` returns for the containers `cs` and `limit`. */
  function ResultsOf(cs: seq<Container>, limit: int): (r: seq<Record>)
    ensures |r| <= |cs|
    ensures |r| <= if limit >= 1 then limit else 1
  {
    Scan(Extractions(cs), limit, 0, [])
  }

  /** Every record the containers yield, in document order, with no limit. */
  function Extracted(cs: seq<Container>): seq<Record> {
    PresentFrom(Extractions(cs), 0)
  }

  /** The positions in `cs` of the containers that yield a record. */
  function Yielding(cs: seq<Container>): seq<nat> {
    PositionsFrom(Extractions(cs), 0)
  }

  /** The first `n` values present in `s` from position `k` on (all of them when there
      are fewer). */
  function FirstPresent<T>(s: seq<Option<T>>, k: nat, n: nat): seq<T>
    requires k <= |s|
    decreases |s| - k
  {
    if k == |s| || n == 0 then []
    else if s[k].Some? then [s[k].value] + FirstPresent(s, k + 1, n - 1)
    else FirstPresent(s, k + 1, n)
  }

  // ---------------------------------------------------------------------------
  // The scan as the source runs it: loops that overwrite, a counter and a break
  // ---------------------------------------------------------------------------

  /** The three inner loops of one container: each loop variable ends up holding the
      value of the last matching element. */
  method ScanContainer(div: Container) returns (rtitle: Option<string>, href: Option<string>, desc: Option<string>)
    ensures rtitle == Last(div.titles)
    ensures href == LastHref(div.anchors)
    ensures desc == Last(div.descriptions)
  {
    rtitle, href, desc := None, None, None;
    for j := 0 to |div.titles|
      invariant rtitle == Last(div.titles[..j])
    {
      rtitle := Some(div.titles[j]);
    }
    assert div.titles[..|div.titles|] == div.titles;
    for j := 0 to |div.anchors|
      invariant href == LastHref(div.anchors[..j])
    {
      if div.anchors[j].href.Some? {
        href := div.anchors[j].href;
      }
      assert div.anchors[..j + 1][..j] == div.anchors[..j];
    }
    assert div.anchors[..|div.anchors|] == div.anchors;
    for j := 0 to |div.descriptions|
      invariant desc == Last(div.descriptions[..j])
    {
      desc := Some(div.descriptions[j]);
    }
    assert div.descriptions[..|div.descriptions|] == div.descriptions;
  }

  /** The record a container yields, from the values its inner loops leave behind. */
  lemma ExtractFromScan(div: Container, rtitle: Option<string>, href: Option<string>, desc: Option<string>)
    requires rtitle == Last(div.titles) && href == LastHref(div.anchors) && desc == Last(div.descriptions)
    ensures Extract(div) == if rtitle.Some? && href.Some? then Some(Record(rtitle.value, href.value, desc, ItemFormat)) else None
  {
  }

  /** `parse_results`: walk the containers, append each complete record, count it, and
      stop after the first container at which the count has reached `limit`. */
  method ParseResults(cs: seq<Container>, limit: int) returns (result: seq<Record>)
    ensures result == ResultsOf(cs, limit)
  {
    ghost var es := Extractions(cs);
    result := [];
    var i := 0;
    var k := 0;
    while k < |cs|
      invariant 0 <= k <= |cs|
      invariant i == |result|
      invariant Scan(es, limit, k, result) == ResultsOf(cs, limit)
    {
      var div := cs[k];
      var rtitle, href, desc := ScanContainer(div);
      ExtractFromScan(div, rtitle, href, desc);
      assert es[k] == Extract(div);
      if rtitle.Some? && href.Some? {
        var entry := Record(rtitle.value, href.value, desc, ItemFormat);
        i := i + 1;
        result := result + [entry];
      }
      if i >= limit {
        break;
      }
      k := k + 1;
    }
  }

  // ---------------------------------------------------------------------------
  // Properties of one container
  // ---------------------------------------------------------------------------

  /** "Last anchor with an href wins", stated without the scan: the link is the href of
      an anchor after which no anchor has one, and there is none exactly when no anchor
      has an href. */
  lemma {:induction false} LastHrefIsLastLinked(anchors: seq<Anchor>)
    ensures LastHref(anchors).None? <==> forall k :: 0 <= k < |anchors| ==> anchors[k].href.None?
    ensures LastHref(anchors).Some? ==>
      exists j :: 0 <= j < |anchors| && anchors[j].href == LastHref(anchors) &&
        forall k :: j < k < |anchors| ==> anchors[k].href.None?
    decreases |anchors|
  {
    if anchors != [] {
      var n := |anchors| - 1;
      var init := anchors[..n];
      if anchors[n].href.None? {
        LastHrefIsLastLinked(init);
        assert forall k :: 0 <= k < n ==> anchors[k] == init[k];
        if LastHref(anchors).Some? {
          var j :| 0 <= j < |init| && init[j].href == LastHref(init) &&
            forall k :: j < k < |init| ==> init[k].href.None?;
          assert anchors[j].href == LastHref(anchors);
        }
      } else {
        assert anchors[n].href == LastHref(anchors);
      }
    }
  }

  /** A container yields a record exactly when it has a title element and an anchor with
      an href; the record then carries the last title, the last href, the last
      description (None when there is none) and the item format "database". */
  lemma ExtractLastWins(c: Container)
    ensures Extract(c).Some? <==>
      c.titles != [] && exists k :: 0 <= k < |c.anchors| && c.anchors[k].href.Some?
    ensures Extract(c).Some? ==>
      var r := Extract(c).value;
      r.title == c.titles[|c.titles| - 1] &&
      r.itemFormat == "database" &&
      (r.description.None? <==> c.descriptions == []) &&
      (c.descriptions != [] ==> r.description == Some(c.descriptions[|c.descriptions| - 1])) &&
      exists j :: 0 <= j < |c.anchors| && c.anchors[j].href == Some(r.link) &&
        forall k :: j < k < |c.anchors| ==> c.anchors[k].href.None?
  {
    LastHrefIsLastLinked(c.anchors);
  }

  // ---------------------------------------------------------------------------
  // Properties of the scan
  // ---------------------------------------------------------------------------

  /** While the count is below the limit, the rest of the scan appends the first values
      the remaining positions hold, as many as the limit still allows. */
  lemma {:induction false} ScanTakesFront<T>(s: seq<Option<T>>, limit: int, k: nat, result: seq<T>)
    requires k <= |s| && |result| < limit
    ensures Scan(s, limit, k, result) == result + FirstPresent(s, k, limit - |result|)
    decreases |s| - k
  {
    if k == |s| {
      assert result + [] == result;
    } else if s[k].None? {
      ScanTakesFront(s, limit, k + 1, result);
    } else {
      var v := s[k].value;
      var rest := FirstPresent(s, k + 1, limit - |result| - 1);
      if |result| + 1 < limit {
        ScanTakesFront(s, limit, k + 1, result + [v]);
        assert (result + [v]) + rest == result + ([v] + rest);
      } else {
        assert rest == [] && [v] + [] == [v];
      }
    }
  }

  /** The first `n` present values are a prefix of all of them, `min(n, total)` long. */
  lemma {:induction false} FirstPresentIsPrefix<T>(s: seq<Option<T>>, k: nat, n: nat)
    requires k <= |s|
    ensures FirstPresent(s, k, n) <= PresentFrom(s, k)
    ensures |FirstPresent(s, k, n)| == if n <= |PresentFrom(s, k)| then n else |PresentFrom(s, k)|
    decreases |s| - k
  {
    if k < |s| && n > 0 {
      if s[k].Some? {
        FirstPresentIsPrefix(s, k + 1, n - 1);
      } else {
        FirstPresentIsPrefix(s, k + 1, n);
      }
    }
  }

  /** The output is always a prefix of the records the containers yield in document
      order, whatever the limit. */
  lemma ResultsArePrefix(cs: seq<Container>, limit: int)
    ensures ResultsOf(cs, limit) <= Extracted(cs)
  {
    var es := Extractions(cs);
    if limit >= 1 {
      ScanTakesFront(es, limit, 0, []);
      FirstPresentIsPrefix(es, 0, limit);
    }
  }

  /** The bound: with `limit >= 1` the output has `min(limit, n)` records for the `n`
      containers that yield one; with `limit <= 0` the cutoff after the first container
      leaves that container's record or nothing. */
  lemma ResultsBound(cs: seq<Container>, limit: int)
    ensures limit >= 1 ==> |ResultsOf(cs, limit)| == if limit <= |Extracted(cs)| then limit else |Extracted(cs)|
    ensures limit <= 0 ==>
      ResultsOf(cs, limit) == if cs == [] || Extract(cs[0]).None? then [] else [Extract(cs[0]).value]
    ensures |ResultsOf(cs, limit)| <= if limit >= 1 then limit else 1
  {
    var es := Extractions(cs);
    if limit >= 1 {
      ScanTakesFront(es, limit, 0, []);
      FirstPresentIsPrefix(es, 0, limit);
    } else if cs != [] {
      assert es[0] == Extract(cs[0]);
    }
  }

  // ---------------------------------------------------------------------------
  // Properties of document order
  // ---------------------------------------------------------------------------

  /** The positions `PositionsFrom` lists lie in range and increase strictly. */
  lemma {:induction false} PositionsIncreasing<T>(s: seq<Option<T>>, k: nat)
    requires k <= |s|
    ensures forall j :: 0 <= j < |PositionsFrom(s, k)| ==> k <= PositionsFrom(s, k)[j] < |s|
    ensures forall i, j :: 0 <= i < j < |PositionsFrom(s, k)| ==> PositionsFrom(s, k)[i] < PositionsFrom(s, k)[j]
    decreases |s| - k
  {
    if k < |s| {
      PositionsIncreasing(s, k + 1);
    }
  }

  /** The j-th listed position holds the j-th present value. */
  lemma {:induction false} PositionsHoldPresent<T>(s: seq<Option<T>>, k: nat)
    requires k <= |s|
    ensures |PositionsFrom(s, k)| == |PresentFrom(s, k)|
    ensures forall j :: 0 <= j < |PositionsFrom(s, k)| ==>
      k <= PositionsFrom(s, k)[j] < |s| && s[PositionsFrom(s, k)[j]] == Some(PresentFrom(s, k)[j])
    decreases |s| - k
  {
    if k < |s| {
      PositionsHoldPresent(s, k + 1);
      var head: seq<nat> := if s[k].Some? then [k] else [];
      var front: seq<T> := if s[k].Some? then [s[k].value] else [];
      var y, e := PositionsFrom(s, k), PresentFrom(s, k);
      var rest, tail := PositionsFrom(s, k + 1), PresentFrom(s, k + 1);
      assert y == head + rest && e == front + tail;
      forall j | |head| <= j < |y|
        ensures k <= y[j] < |s| && s[y[j]] == Some(e[j])
      {
        assert y[j] == rest[j - |head|] && e[j] == tail[j - |head|];
      }
    }
  }

  /** Every position from `k` on that holds a value is listed. */
  lemma {:induction false} PositionsComplete<T>(s: seq<Option<T>>, k: nat)
    requires k <= |s|
    ensures forall i :: k <= i < |s| && s[i].Some? ==> i in PositionsFrom(s, k)
    decreases |s| - k
  {
    if k < |s| {
      PositionsComplete(s, k + 1);
    }
  }

  /** `Yielding` lists, in increasing order, exactly the containers that yield a record,
      and the i-th yielded record comes from the i-th of them. */
  lemma YieldingIsOrderedSource(cs: seq<Container>)
    ensures |Yielding(cs)| == |Extracted(cs)|
    ensures forall j :: 0 <= j < |Yielding(cs)| ==>
      Yielding(cs)[j] < |cs| && Extract(cs[Yielding(cs)[j]]) == Some(Extracted(cs)[j])
    ensures forall i, j :: 0 <= i < j < |Yielding(cs)| ==> Yielding(cs)[i] < Yielding(cs)[j]
    ensures forall k :: 0 <= k < |cs| && Extract(cs[k]).Some? ==> k in Yielding(cs)
  {
    var es := Extractions(cs);
    PositionsIncreasing(es, 0);
    PositionsHoldPresent(es, 0);
    PositionsComplete(es, 0);
    forall j | 0 <= j < |Yielding(cs)|
      ensures Extract(cs[Yielding(cs)[j]]) == Some(Extracted(cs)[j])
    {
      assert es[Yielding(cs)[j]] == Extract(cs[Yielding(cs)[j]]);
    }
    forall k | 0 <= k < |cs| && Extract(cs[k]).Some?
      ensures k in Yielding(cs)
    {
      assert es[k] == Extract(cs[k]);
    }
  }

  /** Every record in the output comes from a container with a title and a linked anchor,
      is that container's record with item format "database", and records appear in the
      order of their containers. */
  lemma ResultsInSourceOrder(cs: seq<Container>, limit: int)
    ensures |ResultsOf(cs, limit)| <= |Yielding(cs)|
    ensures forall j :: 0 <= j < |ResultsOf(cs, limit)| ==>
      Yielding(cs)[j] < |cs| && Extract(cs[Yielding(cs)[j]]) == Some(ResultsOf(cs, limit)[j]) &&
      ResultsOf(cs, limit)[j].itemFormat == "database"
    ensures forall i, j :: 0 <= i < j < |ResultsOf(cs, limit)| ==> Yielding(cs)[i] < Yielding(cs)[j]
  {
    ResultsArePrefix(cs, limit);
    YieldingIsOrderedSource(cs);
  }
}
