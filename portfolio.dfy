/**
 * The page's own state and logic: the portfolio of stock symbols the user
 * builds up from a text field, the headline list loaded from the
 * aggregation endpoint, and the per-stock grouping of headlines by keyword.
 */
module Portfolio {
  import opened Wrappers
  import opened Text
  import opened Headlines
  import ScrapeNews

  /** The symbol a typed text stands for: trimmed, then upper-cased. */
  function Normalize(input: string): string {
    Upper(Trim(input))
  }

  /** Normalizing a symbol again changes nothing, and a symbol has no whitespace at its ends. */
  lemma NormalizeIdempotent(input: string)
    ensures Normalize(Normalize(input)) == Normalize(input)
    ensures IsTrimmed(Normalize(input))
  {
    TrimTrimmed(input);
    UpperStable(Trim(input));
    TrimOfTrimmed(Normalize(input));
  }

  /** No symbol appears twice. */
  predicate NoDuplicates(portfolio: seq<string>) {
    forall i, j :: 0 <= i < j < |portfolio| ==> portfolio[i] != portfolio[j]
  }

  /** A portfolio entry: non-empty and already in normal form. */
  predicate IsSymbol(s: string) {
    s != "" && Normalize(s) == s
  }

  /** What the page keeps invariant about its portfolio. */
  predicate ValidPortfolio(portfolio: seq<string>) {
    NoDuplicates(portfolio) && forall i :: 0 <= i < |portfolio| ==> IsSymbol(portfolio[i])
  }

  /**
   * The portfolio and the input text after "Add Stock": the normalized
   * symbol is appended and the text cleared, unless the symbol is empty or
   * already held, in which case neither changes.
   */
  function AddStock(portfolio: seq<string>, input: string): (seq<string>, string) {
    var stock := Normalize(input);
    if stock != "" && stock !in portfolio then (portfolio + [stock], "") else (portfolio, input)
  }

  /** Adding keeps the portfolio free of duplicates and of empty or unnormalized entries. */
  lemma AddStockValid(portfolio: seq<string>, input: string)
    requires ValidPortfolio(portfolio)
    ensures ValidPortfolio(AddStock(portfolio, input).0)
  {
    NormalizeIdempotent(input);
  }

  /** A symbol is added exactly when it is non-empty and not yet held, and it goes at the end. */
  lemma AddStockEffect(portfolio: seq<string>, input: string)
    ensures var (p, i) := AddStock(portfolio, input);
      && (p != portfolio <==> Normalize(input) != "" && Normalize(input) !in portfolio)
      && (p != portfolio ==> p == portfolio + [Normalize(input)] && i == "")
      && (p == portfolio ==> i == input)
      && (Normalize(input) != "" ==> Normalize(input) in p)
  {
    var p := AddStock(portfolio, input).0;
    if Normalize(input) != "" && Normalize(input) !in portfolio {
      assert p[|portfolio|] == Normalize(input);
      assert |p| != |portfolio|;
    }
  }

  /** Typing the same symbol again, in any spacing or case, adds nothing the second time. */
  lemma AddStockTwice(portfolio: seq<string>, input: string, again: string)
    requires Normalize(again) == Normalize(input)
    ensures var p := AddStock(portfolio, input).0;
      AddStock(p, again).0 == p
  {
    var p := AddStock(portfolio, input).0;
    if Normalize(input) != "" && Normalize(input) !in portfolio {
      assert p[|portfolio|] == Normalize(input);
    }
  }

  /**
   * The `stockMap` keywords for a stock: its entry when it has one (an empty
   * entry is kept, since an empty array is truthy), otherwise the symbol itself.
   */
  function Keywords(stockMap: map<string, seq<string>>, stock: string): seq<string> {
    if stock in stockMap then stockMap[stock] else [stock]
  }

  /** The title mentions the keyword, ignoring case. */
  predicate Mentions(title: string, keyword: string) {
    Contains(Lower(title), Lower(keyword))
  }

  /** `keywords.some(...)`: the title mentions at least one keyword. */
  function AnyMentioned(title: string, keywords: seq<string>): (r: bool)
    ensures r <==> exists k :: 0 <= k < |keywords| && Mentions(title, keywords[k])
  {
    if keywords == [] then false
    else if Mentions(title, keywords[0]) then true
    else
      var r := AnyMentioned(title, keywords[1..]);
      assert forall k :: 1 <= k < |keywords| ==> keywords[k] == keywords[1..][k - 1];
      r
  }

  /** `news.filter(...)`: the headlines whose title mentions one of the keywords, in their order. */
  function Matched(news: seq<Headline>, keywords: seq<string>): (r: seq<Headline>)
    ensures |r| <= |news|
  {
    if news == [] then []
    else if AnyMentioned(news[0].title, keywords) then [news[0]] + Matched(news[1..], keywords)
    else Matched(news[1..], keywords)
  }

  /** `a` is `b` with some elements left out, in the same order. */
  ghost predicate SubsequenceOf<T>(a: seq<T>, b: seq<T>)
    decreases |b|
  {
    if a == [] then true
    else if b == [] then false
    else (a[0] == b[0] && SubsequenceOf(a[1..], b[1..])) || SubsequenceOf(a, b[1..])
  }

  /** A headline is listed under a stock exactly when it is in the news and mentions one of the stock's keywords. */
  lemma {:induction false} MatchedMembership(news: seq<Headline>, keywords: seq<string>, h: Headline)
    ensures h in Matched(news, keywords) <==> h in news && AnyMentioned(h.title, keywords)
  {
    if news != [] {
      MatchedMembership(news[1..], keywords, h);
      assert news == [news[0]] + news[1..];
    }
  }

  /** The matched headlines keep the order of the news. */
  lemma {:induction false} MatchedSubsequence(news: seq<Headline>, keywords: seq<string>)
    ensures SubsequenceOf(Matched(news, keywords), news)
  {
    if news != [] {
      MatchedSubsequence(news[1..], keywords);
      var m := Matched(news, keywords);
      if AnyMentioned(news[0].title, keywords) {
        assert m[0] == news[0] && m[1..] == Matched(news[1..], keywords);
      }
    }
  }

  /** A stock whose entry is empty matches no headline at all. */
  lemma EmptyEntryMatchesNothing(stockMap: map<string, seq<string>>, stock: string, news: seq<Headline>)
    requires stock in stockMap && stockMap[stock] == []
    ensures Matched(news, Keywords(stockMap, stock)) == []
  {
    if Matched(news, Keywords(stockMap, stock)) != [] {
      var h := Matched(news, Keywords(stockMap, stock))[0];
      MatchedMembership(news, Keywords(stockMap, stock), h);
      assert false;
    }
  }

  /** A stock with no entry is matched as if its entry were its own symbol. */
  lemma DefaultKeyword(stockMap: map<string, seq<string>>, stock: string, news: seq<Headline>, h: Headline)
    requires stock !in stockMap
    ensures h in Matched(news, Keywords(stockMap, stock)) <==> h in news && Mentions(h.title, stock)
  {
    MatchedMembership(news, Keywords(stockMap, stock), h);
  }

  /** One rendered stock section: the stock and its matched headlines. */
  datatype Group = Group(stock: string, headlines: seq<Headline>)

  /** The news section: one group per stock in portfolio order, leaving out stocks with no match. */
  function Groups(portfolio: seq<string>, news: seq<Headline>, stockMap: map<string, seq<string>>): seq<Group> {
    if portfolio == [] then []
    else
      var matched := Matched(news, Keywords(stockMap, portfolio[0]));
      var rest := Groups(portfolio[1..], news, stockMap);
      if matched == [] then rest else [Group(portfolio[0], matched)] + rest
  }

  function Stocks(groups: seq<Group>): (r: seq<string>)
    ensures |r| == |groups|
    ensures forall k :: 0 <= k < |groups| ==> r[k] == groups[k].stock
  {
    if groups == [] then [] else [groups[0].stock] + Stocks(groups[1..])
  }

  /**
   * Every group holds exactly its stock's matches and is non-empty; the
   * groups follow the portfolio's order; and a stock of the portfolio has a
   * group exactly when something matches it.
   */
  lemma {:induction false} GroupsSpec(portfolio: seq<string>, news: seq<Headline>, stockMap: map<string, seq<string>>)
    ensures var gs := Groups(portfolio, news, stockMap);
      forall g :: g in gs ==> g.headlines != [] && g.headlines == Matched(news, Keywords(stockMap, g.stock))
    ensures SubsequenceOf(Stocks(Groups(portfolio, news, stockMap)), portfolio)
    ensures forall stock :: stock in Stocks(Groups(portfolio, news, stockMap)) <==>
      stock in portfolio && Matched(news, Keywords(stockMap, stock)) != []
  {
    if portfolio != [] {
      GroupsSpec(portfolio[1..], news, stockMap);
      var gs := Groups(portfolio, news, stockMap);
      var rest := Groups(portfolio[1..], news, stockMap);
      assert portfolio == [portfolio[0]] + portfolio[1..];
      if Matched(news, Keywords(stockMap, portfolio[0])) != [] {
        assert Stocks(gs) == [portfolio[0]] + Stocks(rest);
        assert Stocks(gs)[1..] == Stocks(rest);
      }
    }
  }

  /** No group comes out of an empty news list. */
  lemma {:induction false} NothingToGroup(portfolio: seq<string>, stockMap: map<string, seq<string>>)
    ensures Groups(portfolio, [], stockMap) == []
  {
    if portfolio != [] {
      NothingToGroup(portfolio[1..], stockMap);
    }
  }

  /** A stock of the portfolio with at least one match has its group, holding exactly those matches. */
  lemma {:induction false} GroupOf(portfolio: seq<string>, news: seq<Headline>, stockMap: map<string, seq<string>>, stock: string)
    requires stock in portfolio && Matched(news, Keywords(stockMap, stock)) != []
    ensures Group(stock, Matched(news, Keywords(stockMap, stock))) in Groups(portfolio, news, stockMap)
  {
    if portfolio[0] != stock {
      GroupOf(portfolio[1..], news, stockMap, stock);
    }
  }

  /** One headline that mentions the keywords of two stocks is listed under both. */
  lemma SharedHeadline(portfolio: seq<string>, news: seq<Headline>, stockMap: map<string, seq<string>>,
                       h: Headline, a: string, b: string)
    requires a in portfolio && b in portfolio && h in news
    requires AnyMentioned(h.title, Keywords(stockMap, a)) && AnyMentioned(h.title, Keywords(stockMap, b))
    ensures exists ga, gb ::
              && ga in Groups(portfolio, news, stockMap) && gb in Groups(portfolio, news, stockMap)
              && ga.stock == a && gb.stock == b && h in ga.headlines && h in gb.headlines
  {
    MatchedMembership(news, Keywords(stockMap, a), h);
    MatchedMembership(news, Keywords(stockMap, b), h);
    GroupOf(portfolio, news, stockMap, a);
    GroupOf(portfolio, news, stockMap, b);
    var ga := Group(a, Matched(news, Keywords(stockMap, a)));
    var gb := Group(b, Matched(news, Keywords(stockMap, b)));
    assert ga.stock == a && gb.stock == b && h in ga.headlines && h in gb.headlines;
  }

  /**
   * The worked example: with the entry `PNB -> ["PNB", "Punjab National Bank"]`,
   * the profit headline is listed under PNB and the unrelated one is not.
   */
  lemma PnbScenario(news: seq<Headline>, stockMap: map<string, seq<string>>)
    requires news == [Headline("Punjab National Bank reports profit", "x"), Headline("Unrelated story", "y")]
    requires stockMap == map["PNB" := ["PNB", "Punjab National Bank"]]
    ensures Groups(["PNB"], news, stockMap) == [Group("PNB", [news[0]])]
  {
    var keywords := Keywords(stockMap, "PNB");
    PnbKeywords(news, keywords);
    MatchedFirstOfTwo(news[0], news[1], keywords);
    assert news == [news[0], news[1]];
    SingleGroup("PNB", news, stockMap);
  }

  lemma PnbKeywords(news: seq<Headline>, keywords: seq<string>)
    requires news == [Headline("Punjab National Bank reports profit", "x"), Headline("Unrelated story", "y")]
    requires keywords == ["PNB", "Punjab National Bank"]
    ensures AnyMentioned(news[0].title, keywords) && !AnyMentioned(news[1].title, keywords)
  {
    MentionsBank(news[0].title, keywords[1]);
    UnrelatedMentionsNothing(news[1].title, keywords[0], keywords[1]);
    MentionedBySecond(news[0].title, keywords);
    MentionedByNeither(news[1].title, keywords);
  }

  lemma MentionedBySecond(title: string, keywords: seq<string>)
    requires |keywords| == 2 && Mentions(title, keywords[1])
    ensures AnyMentioned(title, keywords)
  {
  }

  lemma MentionedByNeither(title: string, keywords: seq<string>)
    requires |keywords| == 2 && !Mentions(title, keywords[0]) && !Mentions(title, keywords[1])
    ensures !AnyMentioned(title, keywords)
  {
  }

  lemma MatchedFirstOfTwo(a: Headline, b: Headline, keywords: seq<string>)
    requires AnyMentioned(a.title, keywords) && !AnyMentioned(b.title, keywords)
    ensures Matched([a, b], keywords) == [a]
  {
    assert [a, b][1..] == [b];
  }

  lemma SingleGroup(stock: string, news: seq<Headline>, stockMap: map<string, seq<string>>)
    ensures var matched := Matched(news, Keywords(stockMap, stock));
      Groups([stock], news, stockMap) == if matched == [] then [] else [Group(stock, matched)]
  {
    assert [stock][1..] == [];
  }

  lemma MentionsBank(title: string, keyword: string)
    requires title == "Punjab National Bank reports profit" && keyword == "Punjab National Bank"
    ensures Mentions(title, keyword)
  {
    BankTitle();
    MentionsPrefix(keyword, " reports profit");
  }

  /** Only helps the solver: the sample title is the keyword followed by the rest of the title. */
  lemma BankTitle()
    ensures "Punjab National Bank" + " reports profit" == "Punjab National Bank reports profit"
  {
  }

  lemma UnrelatedMentionsNothing(title: string, symbol: string, name: string)
    requires title == "Unrelated story" && symbol == "PNB" && name == "Punjab National Bank"
    ensures !Mentions(title, symbol) && !Mentions(title, name)
  {
    assert forall k :: 0 <= k < |title| ==> title[k] != 'P' && title[k] != 'p';
    MentionsNoInitial(title, symbol);
    MentionsNoInitial(title, name);
  }

  /** A title that starts with the keyword mentions it. */
  lemma MentionsPrefix(keyword: string, rest: string)
    ensures Mentions(keyword + rest, keyword)
  {
    LowerAppend(keyword, rest);
    assert OccursAt(Lower(keyword + rest), Lower(keyword), 0);
  }

  /** A title without the keyword's initial capital letter, in either case, does not mention it. */
  lemma MentionsNoInitial(title: string, keyword: string)
    requires keyword != [] && 'A' <= keyword[0] <= 'Z'
    requires forall k :: 0 <= k < |title| ==> title[k] != keyword[0] && title[k] != LowerChar(keyword[0])
    ensures !Mentions(title, keyword)
  {
    LowerAvoids(title, LowerChar(keyword[0]), keyword[0]);
    LowerAt(keyword, 0);
    NotContainsFirst(Lower(title), Lower(keyword));
  }

  /** The page: the portfolio, the text field, and the loaded headlines. */
  class Home {
    var portfolio: seq<string>
    var input: string
    var news: seq<Headline>

    predicate Valid()
      reads this
    {
      ValidPortfolio(portfolio)
    }

    /** The initial state: nothing added, nothing typed, nothing loaded. */
    constructor()
      ensures Valid()
      ensures portfolio == [] && input == "" && news == []
    {
      portfolio := [];
      input := "";
      news := [];
    }

    /** The text field's change handler. */
    method SetInput(text: string)
      requires Valid()
      modifies this
      ensures Valid()
      ensures input == text
      ensures portfolio == old(portfolio) && news == old(news)
    {
      input := text;
    }

    /** `handleAddStock`. */
    method HandleAddStock()
      requires Valid()
      modifies this
      ensures Valid()
      ensures (portfolio, input) == AddStock(old(portfolio), old(input))
      ensures news == old(news)
    {
      AddStockValid(portfolio, input);
      var stock := Normalize(input);
      if stock != "" && stock !in portfolio {
        portfolio := portfolio + [stock];
        input := "";
      }
    }

    /**
     * `fetchNews`: a 2xx response replaces the news with its headline list
     * (`[]` when the body carries none); an error status makes the request
     * throw, the error is logged and the news stays as it was.
     */
    method ReceiveNews(res: ScrapeNews.Response)
      requires Valid()
      modifies this
      ensures Valid()
      ensures news == (if 200 <= res.status < 300 then HeadlinesOf(res.body) else old(news))
      ensures portfolio == old(portfolio) && input == old(input)
    {
      if 200 <= res.status < 300 {
        news := HeadlinesOf(res.body);
      }
    }

    /** The grouped headlines this state renders. */
    function Rendered(stockMap: map<string, seq<string>>): seq<Group>
      reads this
    {
      Groups(portfolio, news, stockMap)
    }
  }

  /** `res.data.headlines || []`. */
  function HeadlinesOf(body: ScrapeNews.ScrapeBody): seq<Headline> {
    match body
    case HeadlineList(hs) => hs
    case ErrorMessage(_) => []
  }

  /** The endpoint's answer, as the page stores it: the aggregated headlines on success, and no change on an error. */
  lemma ReceivedFromEndpoint(moneycontrol: ScrapeNews.Fetch, economicTimes: ScrapeNews.Fetch, liveMint: ScrapeNews.Fetch,
                             businessStandard: ScrapeNews.Fetch, googleNews: ScrapeNews.Fetch, res: ScrapeNews.Response)
    requires var all := ScrapeNews.Aggregate(moneycontrol, economicTimes, liveMint, businessStandard, googleNews);
      res == if all == [] then ScrapeNews.Response(500, ScrapeNews.ErrorMessage(ScrapeNews.NoHeadlinesError))
             else ScrapeNews.Response(200, ScrapeNews.HeadlineList(all))
    ensures 200 <= res.status < 300 <==> ScrapeNews.Aggregate(moneycontrol, economicTimes, liveMint, businessStandard, googleNews) != []
    ensures 200 <= res.status < 300 ==>
      HeadlinesOf(res.body) == ScrapeNews.Aggregate(moneycontrol, economicTimes, liveMint, businessStandard, googleNews)
  {
  }
}
