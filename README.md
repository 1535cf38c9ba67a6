# Envest news portfolio: a Dafny model

This project models the core of a single-page Next.js application. A user
keeps a portfolio of stock tickers. A scraping endpoint collects market
headlines from five news sources. The page groups the headlines under each
ticker they mention, and a small widget per headline asks a sentiment
endpoint (backed by a chat-completion model) for a four-section report and
colours the sentiment line.

Modules, one per concern:

- `Wrappers` (wrappers.dfy): the `Option` type.
- `Text` (text.dfy): the JavaScript string operations the code relies on.
  These are `trim` (the full JavaScript whitespace set), `toUpperCase` and
  `toLowerCase` (ASCII letters), `includes` and `startsWith`, and which
  optional strings are truthy.
- `Headlines` (headlines.dfy): the `{ title, link }` record.
- `ScrapeNews` (scrape_news.dfy): the aggregation endpoint. It is written
  imperatively, one block per source, with the loop that pushes each usable
  item. Each method is proved against the functions `Extracted`,
  `Contribution` and `Aggregate`.
- `AnalyzeSentiment` (analyze_sentiment.dfy): the sentiment endpoint as a
  decision table over the request and the model's outcome. It includes the
  prompt template, which is expressed as a template-literal substitution.
- `Portfolio` (portfolio.dfy) covers the page. It has:
  - ticker normalisation and insertion;
  - keyword matching and the per-stock grouping;
  - the `Home` class holding the page state (`portfolio`, `input`, `news`).
- `SentimentTag` (sentiment_tag.dfy) covers the widget. It has:
  - the four section expressions, as leftmost, lazy regular-expression
    matches;
  - the commit, fallback and cancellation rules, as the function `Settle`
    and the `Widget` class;
  - the colour rule.
- `Client` (client.dfy): the client helper `getSentiment`, which turns the
  endpoint's reply into the text the widget parses.

The network, the HTML and RSS extraction, and the model call become
parameters:

- A news source arrives as a `Fetch`: either it failed, or it delivered the
  raw (title, link) pairs its selector produced.
- The model is a function `ChatRequest -> Completion`.
- The widget's request is a function `(title, stock) -> Analysis`.

## Model

| member | source | states |
|---|---|---|
| Text.Contains | app/page.tsx:103 | `includes` holds exactly when some index starts an occurrence of the pattern |
| Text.TrimTrimmed | app/page.tsx:32 | the result of `trim` has no whitespace at either end |
| Text.TrimPadded | pages/api/analyzeSentiment.ts:49 | `trim` removes exactly the whitespace around a trimmed, non-empty core |
| Text.UpperStable | app/page.tsx:32 | upper-casing is idempotent and keeps a trimmed string trimmed |
| Text.LowerAppend | app/page.tsx:103 | lower-casing a concatenation lower-cases each part |
| Text.NotContainsFirst | app/page.tsx:103 | a pattern whose first character is absent from the text is not contained in it |
| ScrapeNews.PushItem | pages/api/scrapeNews.ts:20-24 | one callback appends the item's headline exactly when its title and link are non-empty, and nothing otherwise |
| ScrapeNews.PushEach | pages/api/scrapeNews.ts:19-25 | the loop appends to the list exactly the headlines of the usable items, in item order |
| ScrapeNews.Scrape | pages/api/scrapeNews.ts:15-28 | one source block appends that source's contribution; a source that throws appends nothing |
| ScrapeNews.Handler | pages/api/scrapeNews.ts:12-101 | the response is 500 with the fixed error message when the aggregate is empty, else 200 with all headlines in source order |
| ScrapeNews.ExtractedFromItems | pages/api/scrapeNews.ts:19-25 | every emitted headline has a non-empty title and link and comes from one of the source's items |
| ScrapeNews.AggregateWellFormed | pages/api/scrapeNews.ts:13-94 | every headline in the aggregate has a non-empty title and a non-empty link |
| ScrapeNews.EmitShape | pages/api/scrapeNews.ts:15-91 | HTML titles are trimmed and RSS titles kept as given; links are resolved against the site base only for the three relative-link sites |
| ScrapeNews.EconomicTimesLinkSingle | pages/api/scrapeNews.ts:40 | the doubled `startsWith('http')` test equals a single one |
| ScrapeNews.ResolvedIsAbsolute | pages/api/scrapeNews.ts:58 | a resolved link starts with "http", so resolving it again changes nothing |
| ScrapeNews.ExtractedCount | pages/api/scrapeNews.ts:19-25 | with every item usable, a source contributes exactly one headline per item |
| ScrapeNews.FailedIsEmpty | pages/api/scrapeNews.ts:26-28 | a failed source contributes the same as a source with no items |
| ScrapeNews.OneSourceSuffices | pages/api/scrapeNews.ts:96-100 | when any one of the five sources works and all its items are usable while the other four fail, the aggregate is exactly that source's headlines, one per item, and is non-empty |
| ScrapeNews.NoHeadlinesExactly | pages/api/scrapeNews.ts:96-100 | the aggregate is empty exactly when every source's contribution is empty |
| AnalyzeSentiment.Handle | pages/api/analyzeSentiment.ts:11-56 | a non-POST request gets 405; otherwise a missing or empty field gets 400 with no model call; otherwise the model is asked once with the built prompt; it answers 500 when the call throws, and 200 with the trimmed content or the default text |
| AnalyzeSentiment.RejectedWithoutModel | pages/api/analyzeSentiment.ts:12-20 | a rejected request makes no call and its reply does not depend on the model |
| AnalyzeSentiment.MethodCheckedFirst | pages/api/analyzeSentiment.ts:12-14 | the method check comes before the field check |
| AnalyzeSentiment.StatusTable | pages/api/analyzeSentiment.ts:11-56 | every path ends in 200, 400, 405 or 500; 200 and 500 happen exactly when the model was called; 500 happens exactly when the call threw |
| AnalyzeSentiment.ContentShaping | pages/api/analyzeSentiment.ts:49 | present content is trimmed and returned even when empty; only absent content gets "Analysis not available." |
| AnalyzeSentiment.PromptIsText | pages/api/analyzeSentiment.ts:23-35 | trimming the template removes exactly its opening line break and closing indentation |
| AnalyzeSentiment.PromptEmbeds | pages/api/analyzeSentiment.ts:26-32 | the prompt embeds the ticker in sections 1, 3 and 4, and the headline between double quotes |
| Portfolio.NormalizeIdempotent | app/page.tsx:32 | normalising a symbol again changes nothing, and a symbol has no surrounding whitespace |
| Portfolio.AddStockValid | app/page.tsx:31-37 | adding keeps the portfolio duplicate-free and made of non-empty normalised symbols |
| Portfolio.AddStockEffect | app/page.tsx:31-37 | the portfolio changes exactly when the normalised input is non-empty and new; then it is appended and the input cleared; otherwise the input is kept; afterwards a non-empty symbol is held |
| Portfolio.AddStockTwice | app/page.tsx:33 | adding an input with the same normal form again leaves the portfolio unchanged |
| Portfolio.Home.constructor | app/page.tsx:15-17 | the page starts with an empty portfolio, empty input and no news |
| Portfolio.Home.SetInput | app/page.tsx:61 | typing replaces the input and changes nothing else |
| Portfolio.Home.HandleAddStock | app/page.tsx:31-37 | the new portfolio and input are those of `AddStock` on the old ones, and the portfolio invariant is kept |
| Portfolio.Home.ReceiveNews | app/page.tsx:19-29 | a 2xx response replaces the news with its headline list (`[]` when absent); an error leaves the news unchanged |
| Portfolio.ReceivedFromEndpoint | app/page.tsx:22-23 | from the endpoint's response the page stores exactly the aggregate, and the request succeeds exactly when the aggregate is non-empty |
| Portfolio.AnyMentioned | app/page.tsx:102-104 | true exactly when the title mentions some keyword, ignoring case |
| Portfolio.Matched | app/page.tsx:100-105 | the filter never yields more headlines than it is given |
| Portfolio.MatchedMembership | app/page.tsx:100-105 | a headline is kept exactly when it is in the news and its title mentions one of the keywords |
| Portfolio.MatchedSubsequence | app/page.tsx:100 | the kept headlines appear in their original order |
| Portfolio.EmptyEntryMatchesNothing | app/page.tsx:101 | a stock mapped to an empty keyword list matches nothing (an empty array is truthy, so there is no fallback) |
| Portfolio.DefaultKeyword | app/page.tsx:101 | a stock missing from the map is matched by its own symbol |
| Portfolio.GroupsSpec | app/page.tsx:99-107 | every group is non-empty and holds exactly its stock's matches; groups follow portfolio order; a stock has a group exactly when it is held and matches something |
| Portfolio.NothingToGroup | app/page.tsx:107 | with no news there are no groups |
| Portfolio.GroupOf | app/page.tsx:99-107 | a held stock with matches has its group among the rendered ones |
| Portfolio.SharedHeadline | app/page.tsx:99-107 | a headline mentioning two held stocks is shown under both |
| Portfolio.PnbScenario | app/page.tsx:99-107 | the portfolio ["PNB"] with the map {PNB: ["PNB", "Punjab National Bank"]} and two headlines renders one group holding the first headline only |
| SentimentTag.FindFrom | app/page.tsx:181-184 | the found index is the first occurrence at or after the start, and none exists when nothing is found |
| SentimentTag.SearchSelects | app/page.tsx:181-184 | the search succeeds whenever some match exists, and what it finds is the match the regular expression reports |
| SentimentTag.CaptureSpec | app/page.tsx:181-184 | a section expression matches exactly when a candidate exists; its group is the text between the selected colon and the selected end |
| SentimentTag.CaptureByLayout | app/page.tsx:181-184 | a candidate is the one captured when no earlier occurrence of its marker, no colon between its marker and its colon, and (sections 1 to 3) no occurrence of the next marker inside its group precedes it |
| SentimentTag.SectionCaptured | app/page.tsx:181-184 | a section "k.label:body" whose preceding text lacks the marker "k.", whose label has no colon or line break, and whose body lacks the next marker, followed by that marker (or by nothing, for section 4), yields exactly its body |
| SentimentTag.FourSections | app/page.tsx:181-184 | a reply laid out as "1.label:text 2.label:text ..." yields its four texts, trimmed, when the labels have no colon or line break and no label or text contains the marker of a later section; digits themselves are allowed |
| SentimentTag.DigitInSummary | app/page.tsx:181 | a digit not followed by a full stop stays in the section: "1.X:a2b2." has the summary "a2b" |
| SentimentTag.NoMarkerNoField | app/page.tsx:181-184 | without the marker of a section, that field is absent |
| SentimentTag.NoNextMarkerNoField | app/page.tsx:181-183 | without the next marker, fields 1 to 3 are absent as well |
| SentimentTag.NoThirdMarker | app/page.tsx:182-183 | a reply without "3." has neither advice nor outlook |
| SentimentTag.SentimentToEnd | app/page.tsx:184 | the sentiment field runs from the selected colon to the end of the text |
| SentimentTag.EmptyPortfolioNoCommit | app/page.tsx:172 | with no stock, nothing is committed |
| SentimentTag.CancelledNoCommit | app/page.tsx:179 | after cleanup nothing is committed, neither a parsed report nor the fallback |
| SentimentTag.OnlyFirstStock | app/page.tsx:173 | only the first stock is asked about |
| SentimentTag.ParsedCommits | app/page.tsx:186-188 | a reply with a non-empty section is committed as parsed |
| SentimentTag.EmptyTextNoField | app/page.tsx:179 | an empty reply has no section |
| SentimentTag.FallbackWhenNothingParsed | app/page.tsx:189-200 | a request that threw, or a reply without content, keeps the previous report, or commits the fallback when there was none |
| SentimentTag.FallbackNeverOverwrites | app/page.tsx:194 | from a committed report, only a newly parsed report can change it |
| SentimentTag.CommittedStays | app/page.tsx:194 | once a report is committed the widget never goes back to "Analyzing..." |
| SentimentTag.Widget.constructor | app/page.tsx:160-168 | a new widget has no report and is not cancelled |
| SentimentTag.Widget.Cleanup | app/page.tsx:204 | cleanup sets the cancelled flag and leaves the report |
| SentimentTag.Widget.Analyze | app/page.tsx:171-201 | the report afterwards is `Settle` of the old report, the stocks, the title, the cancelled flag and the request's outcome |
| SentimentTag.ToneOf | app/page.tsx:214-218 | green exactly when "Positive" occurs; red exactly when it does not and "Negative" does; yellow otherwise |
| Client.SentimentText | utils/analyzeSentiment.ts:1-16 | the text handed to the widget is never empty |
| Client.ClientText | utils/analyzeSentiment.ts:9-14 | for every endpoint answer the client yields "Neutral" for a rejected request, a failed model call or an empty analysis, "Analysis not available." for absent content, and the trimmed analysis otherwise |
| SentimentTag.SampleReply | app/page.tsx:181-188 | "1. Summary: Market is up 2. Advice: Hold 3. Outlook: Stable 4. Sentiment: Positive" yields those four words, is committed, and is shown in green |
| SentimentTag.NeutralHasNoSections | utils/analyzeSentiment.ts:11-14 | "Neutral", the client's stand-in answer, has no section |
| SentimentTag.NeutralIsYellow | app/page.tsx:193-218 | "Neutral" is shown in yellow, and so is the fallback's sentiment |
| SentimentTag.FailedAnalysisShowsFallback | app/page.tsx:178-200 | when the endpoint answers 500, a widget with no report ends with the fallback, shown in yellow |

## Left out

- Fetching, cheerio selectors and the RSS parser are not modelled. Each
  source is given as its list of extracted (title, link) pairs, or as a
  failure.
- The OpenAI client, the API key and its logging are not modelled. The model
  call is a function parameter.
- Temperature 0.4 is recorded as 4 tenths, since the model has no floating
  point.
- `console.log` and `console.error` are not modelled.
- The transport in `getSentiment` (the `fetch`, `res.json()` and its
  failure) is not modelled. The endpoint's reply comes in as an `Option`
  (`None` when the request or the JSON decoding failed).
- The one-second `sleep` and React's effect re-runs are not modelled, and
  neither is the batching of state updates.
- The time at which the cleanup runs is not modelled. `Widget.Analyze`
  reads the cancelled flag once, after the request; no `await` lies between
  the checks at app/page.tsx:179 and :193.
- Many widgets run at once, one per rendered headline. Their concurrency is
  not modelled; each widget is modelled on its own.
- Case mapping is ASCII only. JavaScript's full Unicode `toUpperCase` and
  `toLowerCase` are not modelled.
- Request body fields that are non-string JSON values, and an undefined
  `req.body`, are not modelled. A field is present or absent.
- The contents of utils/stockMap are not part of this model. The map is a
  parameter.
- The JSX markup is not modelled, apart from three parts:
  - the grouping, `Home.Rendered`;
  - the colour rule, `ToneOf` and `DisplayedTone`;
  - the "Analyzing..." placeholder, which is a `None` report.
- pages/api/sendAlert.ts is not part of this model.
- An exception thrown inside a `.each` callback after some pushes is not
  modelled: item handling cannot throw here. A failing source throws before
  it pushes anything.
- `SampleReply` is stated over its labels and words, which the requires
  pins to the literal pieces. It is not stated over the reply as one
  literal string.

## Behaviour worth noting

- The widget asks about `portfolio[0]` only. The page passes each widget
  the single stock it is grouped under.
- Headlines are grouped per stock, in portfolio order, with empty groups
  skipped. A headline that mentions two held stocks appears in both groups.
- Sections 1 to 3 need the next marker to end. A reply without "2." has no
  summary, however much text follows "1.". The label and its colon must be
  on the marker's line. A digit inside a section is kept; only a later
  section's digit followed by a full stop ends a section early.
- Error replies of both endpoints carry only an `error` message.
- An empty (trimmed) model answer is returned as `""` with status 200.
  The client helper turns it into "Neutral", so the widget shows the
  fallback. The widget's own early return on an empty result
  (app/page.tsx:179) is modelled as well, but the client never triggers it.
