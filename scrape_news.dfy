/**
 * The headline aggregation endpoint: five news sources are tried one after
 * the other, each in its own error boundary, every usable item is appended
 * to one list, and the response is an error exactly when that list ends up
 * empty.
 *
 * Fetching and HTML/RSS extraction are not modelled: each source arrives as
 * a `Fetch`, either `Failed` (the request, the page load or the feed parse
 * threw) or the sequence of raw (title text, link attribute) pairs its
 * selector produced, in document order.
 */
module ScrapeNews {
  import opened Wrappers
  import opened Text
  import opened Headlines

  /** The five sources, in the order the handler tries them. */
  datatype Source = Moneycontrol | EconomicTimes | LiveMint | BusinessStandard | GoogleNewsRss

  /** One extracted element: the title text before trimming, and the link ("" when the attribute is absent). */
  datatype RawItem = RawItem(title: string, link: string)

  /** What one source delivered. */
  datatype Fetch = Failed | Fetched(items: seq<RawItem>)

  datatype ScrapeBody = HeadlineList(headlines: seq<Headline>) | ErrorMessage(error: string)

  datatype Response = Response(status: nat, body: ScrapeBody)

  const EconomicTimesBase := "https://economictimes.indiatimes.com"
  const LiveMintBase := "https://www.livemint.com"
  const BusinessStandardBase := "https://www.business-standard.com"
  const NoHeadlinesError := "No headlines fetched from any source."

  /** A link that does not start with "http" is taken as relative to `base`. */
  function ResolveLink(base: string, link: string): string {
    if StartsWith(link, "http") then link else base + link
  }

  /** The Economic Times link expression, with its repeated test, as it is written. */
  function EconomicTimesLink(link: string): string {
    if StartsWith(link, "http") then link
    else if StartsWith(link, "http") then link
    else EconomicTimesBase + link
  }

  /** The title as the source emits it: HTML element text is trimmed, RSS titles are not. */
  function TitleOf(src: Source, raw: string): string {
    if src == GoogleNewsRss then raw else Trim(raw)
  }

  /** The link as the source emits it. */
  function LinkOf(src: Source, raw: string): string {
    match src
    case Moneycontrol => raw
    case EconomicTimes => EconomicTimesLink(raw)
    case LiveMint => ResolveLink(LiveMintBase, raw)
    case BusinessStandard => ResolveLink(BusinessStandardBase, raw)
    case GoogleNewsRss => raw
  }

  /** What one extracted item contributes: a headline when its title and link are both non-empty. */
  function Emit(src: Source, item: RawItem): Option<Headline> {
    var title := TitleOf(src, item.title);
    if title != "" && item.link != "" then Some(Headline(title, LinkOf(src, item.link))) else None
  }

  function AsSeq(o: Option<Headline>): seq<Headline> {
    match o
    case Some(h) => [h]
    case None => []
  }

  /** The headlines a successful source contributes, in item order. */
  function Extracted(src: Source, items: seq<RawItem>): seq<Headline> {
    if items == [] then [] else Extracted(src, items[..|items| - 1]) + AsSeq(Emit(src, items[|items| - 1]))
  }

  /** What a source contributes: nothing when it failed. */
  function Contribution(src: Source, fetch: Fetch): seq<Headline> {
    match fetch
    case Failed => []
    case Fetched(items) => Extracted(src, items)
  }

  /** All five contributions in source order, with nothing removed or merged. */
  function Aggregate(moneycontrol: Fetch, economicTimes: Fetch, liveMint: Fetch, businessStandard: Fetch, googleNews: Fetch): seq<Headline> {
    Contribution(Moneycontrol, moneycontrol) + Contribution(EconomicTimes, economicTimes)
    + Contribution(LiveMint, liveMint) + Contribution(BusinessStandard, businessStandard)
    + Contribution(GoogleNewsRss, googleNews)
  }

  /** One source's block: a failed fetch threw before anything was pushed (the error is caught and logged). */
  method Scrape(src: Source, fetch: Fetch, headlines: seq<Headline>) returns (out: seq<Headline>)
    ensures out == headlines + Contribution(src, fetch)
  {
    out := headlines;
    if fetch.Fetched? {
      out := PushEach(src, fetch.items, headlines);
    }
  }

  /** The loop over one source's extracted items, pushing each usable one onto `headlines`. */
  method PushEach(src: Source, items: seq<RawItem>, headlines: seq<Headline>) returns (out: seq<Headline>)
    ensures out == headlines + Extracted(src, items)
  {
    out := headlines;
    var i := 0;
    while i < |items|
      invariant 0 <= i <= |items|
      invariant out == headlines + Extracted(src, items[..i])
    {
      ExtractedPrefix(src, items, i);
      AppendAssoc(headlines, Extracted(src, items[..i]), AsSeq(Emit(src, items[i])));
      out := PushItem(src, items[i], out);
      i := i + 1;
    }
    assert items[..i] == items;
  }

  /** The `.each` callback: build the title and link, and push the headline when both are non-empty. */
  method PushItem(src: Source, item: RawItem, headlines: seq<Headline>) returns (out: seq<Headline>)
    ensures out == headlines + AsSeq(Emit(src, item))
  {
    out := headlines;
    var title := TitleOf(src, item.title);
    if title != "" && item.link != "" {
      out := out + [Headline(title, LinkOf(src, item.link))];
    }
  }

  /** Only helps the solver: regrouping three appended lists. */
  lemma AppendAssoc(a: seq<Headline>, b: seq<Headline>, c: seq<Headline>)
    ensures a + b + c == a + (b + c)
  {
  }

  /** Extending a prefix of the items by one extends what it contributes by that item's headline, if any. */
  lemma ExtractedPrefix(src: Source, items: seq<RawItem>, i: nat)
    requires i < |items|
    ensures Extracted(src, items[..i + 1]) == Extracted(src, items[..i]) + AsSeq(Emit(src, items[i]))
  {
    assert items[..i + 1][..i] == items[..i];
  }

  /** The endpoint: every source in order, then the status decided by the total. */
  method Handler(moneycontrol: Fetch, economicTimes: Fetch, liveMint: Fetch, businessStandard: Fetch, googleNews: Fetch)
    returns (res: Response)
    ensures var all := Aggregate(moneycontrol, economicTimes, liveMint, businessStandard, googleNews);
      res == if all == [] then Response(500, ErrorMessage(NoHeadlinesError)) else Response(200, HeadlineList(all))
  {
    var headlines: seq<Headline> := [];
    headlines := Scrape(Moneycontrol, moneycontrol, headlines);
    assert headlines == Contribution(Moneycontrol, moneycontrol);
    headlines := Scrape(EconomicTimes, economicTimes, headlines);
    headlines := Scrape(LiveMint, liveMint, headlines);
    headlines := Scrape(BusinessStandard, businessStandard, headlines);
    headlines := Scrape(GoogleNewsRss, googleNews, headlines);
    if |headlines| == 0 {
      res := Response(500, ErrorMessage(NoHeadlinesError));
    } else {
      res := Response(200, HeadlineList(headlines));
    }
  }

  /** Every headline a source emits has a non-empty title and link, and comes from one of its items. */
  lemma {:induction false} ExtractedFromItems(src: Source, items: seq<RawItem>, h: Headline)
    requires h in Extracted(src, items)
    ensures WellFormed(h)
    ensures exists k :: 0 <= k < |items| && Emit(src, items[k]) == Some(h)
  {
    var n := |items| - 1;
    if h in Extracted(src, items[..n]) {
      ExtractedFromItems(src, items[..n], h);
      var k :| 0 <= k < n && Emit(src, items[..n][k]) == Some(h);
      assert items[k] == items[..n][k];
    } else {
      assert Emit(src, items[n]) == Some(h);
    }
  }

  /** Every headline in the response has a non-empty title and a non-empty link. */
  lemma AggregateWellFormed(moneycontrol: Fetch, economicTimes: Fetch, liveMint: Fetch, businessStandard: Fetch, googleNews: Fetch, h: Headline)
    requires h in Aggregate(moneycontrol, economicTimes, liveMint, businessStandard, googleNews)
    ensures WellFormed(h)
  {
    if h in Contribution(Moneycontrol, moneycontrol) {
      ExtractedFromItems(Moneycontrol, moneycontrol.items, h);
    } else if h in Contribution(EconomicTimes, economicTimes) {
      ExtractedFromItems(EconomicTimes, economicTimes.items, h);
    } else if h in Contribution(LiveMint, liveMint) {
      ExtractedFromItems(LiveMint, liveMint.items, h);
    } else if h in Contribution(BusinessStandard, businessStandard) {
      ExtractedFromItems(BusinessStandard, businessStandard.items, h);
    } else {
      ExtractedFromItems(GoogleNewsRss, googleNews.items, h);
    }
  }

  /** How one emitted headline relates to its item: the title trimmed except for RSS, the link resolved only for the three relative-link sites. */
  lemma EmitShape(src: Source, item: RawItem, h: Headline)
    requires Emit(src, item) == Some(h)
    ensures h.title == (if src == GoogleNewsRss then item.title else Trim(item.title))
    ensures src in {Moneycontrol, GoogleNewsRss} ==> h.link == item.link
    ensures src == EconomicTimes ==> h.link == ResolveLink(EconomicTimesBase, item.link)
    ensures src == LiveMint ==> h.link == ResolveLink(LiveMintBase, item.link)
    ensures src == BusinessStandard ==> h.link == ResolveLink(BusinessStandardBase, item.link)
    ensures IsTrimmed(h.title) || src == GoogleNewsRss
  {
    if src != GoogleNewsRss {
      TrimTrimmed(item.title);
    }
  }

  /** The doubled test in the Economic Times link is the same as a single one. */
  lemma EconomicTimesLinkSingle(link: string)
    ensures EconomicTimesLink(link) == ResolveLink(EconomicTimesBase, link)
  {
  }

  /** A link resolved against one of the three bases is absolute, so resolving again changes nothing. */
  lemma ResolvedIsAbsolute(base: string, link: string)
    requires base in {EconomicTimesBase, LiveMintBase, BusinessStandardBase}
    ensures StartsWith(ResolveLink(base, link), "http")
    ensures ResolveLink(base, ResolveLink(base, link)) == ResolveLink(base, link)
  {
    if !StartsWith(link, "http") {
      assert (base + link)[..4] == base[..4];
    }
  }

  /** A source whose items are all usable contributes exactly one headline per item. */
  lemma {:induction false} ExtractedCount(src: Source, items: seq<RawItem>)
    requires forall k :: 0 <= k < |items| ==> Emit(src, items[k]).Some?
    ensures |Extracted(src, items)| == |items|
  {
    if items != [] {
      var n := |items| - 1;
      assert forall k :: 0 <= k < n ==> items[..n][k] == items[k];
      ExtractedCount(src, items[..n]);
    }
  }

  /** A failed source has the same effect as a source with no items: it removes nothing that the others contribute. */
  lemma FailedIsEmpty(src: Source)
    ensures Contribution(src, Failed) == Contribution(src, Fetched([]))
  {
  }

  /** What `src` fetches when only `working` is reachable: `fetch` for that source, a failure for the others. */
  function OnlyAt(src: Source, working: Source, fetch: Fetch): Fetch {
    if src == working then fetch else Failed
  }

  /** With one source reachable, the aggregate is that source's contribution. */
  lemma AggregateOfOne(working: Source, fetch: Fetch)
    ensures Aggregate(OnlyAt(Moneycontrol, working, fetch), OnlyAt(EconomicTimes, working, fetch),
                      OnlyAt(LiveMint, working, fetch), OnlyAt(BusinessStandard, working, fetch),
                      OnlyAt(GoogleNewsRss, working, fetch)) == Contribution(working, fetch)
  {
    var hs := Contribution(working, fetch);
    match working
    case Moneycontrol => assert hs + [] + [] + [] + [] == hs;
    case EconomicTimes => assert [] + hs + [] + [] + [] == hs;
    case LiveMint => assert [] + [] + hs + [] + [] == hs;
    case BusinessStandard => assert [] + [] + [] + hs + [] == hs;
    case GoogleNewsRss => assert [] + [] + [] + [] + hs == hs;
  }

  /**
   * Four sources fail and any one returns items that are all usable: the
   * aggregate is exactly those items' headlines, one per item, so the
   * response is a success.
   */
  lemma OneSourceSuffices(working: Source, items: seq<RawItem>)
    requires items != [] && forall k :: 0 <= k < |items| ==> Emit(working, items[k]).Some?
    ensures var all := Aggregate(OnlyAt(Moneycontrol, working, Fetched(items)), OnlyAt(EconomicTimes, working, Fetched(items)),
                                 OnlyAt(LiveMint, working, Fetched(items)), OnlyAt(BusinessStandard, working, Fetched(items)),
                                 OnlyAt(GoogleNewsRss, working, Fetched(items)));
      all == Extracted(working, items) && |all| == |items| && all != []
  {
    AggregateOfOne(working, Fetched(items));
    ExtractedCount(working, items);
  }

  /** The response is an error exactly when every source failed or yielded no usable item. */
  lemma NoHeadlinesExactly(moneycontrol: Fetch, economicTimes: Fetch, liveMint: Fetch, businessStandard: Fetch, googleNews: Fetch)
    ensures Aggregate(moneycontrol, economicTimes, liveMint, businessStandard, googleNews) == [] <==>
      && Contribution(Moneycontrol, moneycontrol) == []
      && Contribution(EconomicTimes, economicTimes) == []
      && Contribution(LiveMint, liveMint) == []
      && Contribution(BusinessStandard, businessStandard) == []
      && Contribution(GoogleNewsRss, googleNews) == []
  {
  }
}
