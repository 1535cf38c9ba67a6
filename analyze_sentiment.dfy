/**
 * The sentiment endpoint: a chain of early-return guards (method, then the
 * two body fields), then a prompt built from a fixed template, one call to
 * the language model, and exactly one response per path.
 *
 * The model call is not modelled; `complete` stands for it and yields the
 * message content of the first choice, `null` content, or an exception.
 */
module AnalyzeSentiment {
  import opened Wrappers
  import opened Text

  /**
   * The HTTP method and the two body fields. A field is `None` when it is
   * missing, `null` or `undefined`.
   */
  datatype Request = Request(httpMethod: string, headline: Option<string>, ticker: Option<string>)

  /** What the chat-completion call produced. */
  datatype Completion = Threw | Content(content: Option<string>)

  /** The chat-completion request the handler sends: model name, system message, user message, temperature in tenths. */
  datatype ChatRequest = ChatRequest(model: string, system: string, user: string, temperatureTenths: nat)

  datatype Body = ErrorBody(error: string) | AnalysisBody(analysis: string)

  datatype Reply = Reply(status: nat, body: Body)

  /** The response, and the model request that was made on the way (`None` when no call was made). */
  datatype Exchange = Exchange(call: Option<ChatRequest>, reply: Reply)

  const MethodNotAllowed := "Method not allowed"
  const MissingFields := "Missing headline or ticker"
  const AnalysisFailed := "Failed to analyze sentiment"
  const NoAnalysis := "Analysis not available."
  const ChatModel := "gpt-3.5-turbo"
  const SystemMessage := "You are a financial sentiment assistant."

  // The prompt template's text, piece by piece. The opening line and the
  // closing line are written in two parts so that their outer characters are
  // easy to check.
  const Intro := "You are a financial news analyst AI. " + "Analyze the following headline and provide a detailed report in four sections:\n\n"
  const SummaryLead := "1. \U{1F4CA} Market Summary: Briefly summarize what this headline implies about the overall market or the specific stock ("
  const SummaryTail := ").\n"
  const AdviceLine := "2. \U{1F4A1} Investment Advice: Offer concise advice for investors \U{2014} for example, \"Hold\", \"Watch closely\", \"Buy on dips\", or \"Avoid for now\".\n"
  const OutlookLead := "3. \U{1F52E} Future Outlook: Predict the possible short-term direction (e.g., bullish, bearish, volatile, stable) for "
  const OutlookTail := " based on this news.\n"
  const ImpactLead := "4. \U{1F4C8} Sentiment Impact: Choose one of [Positive, Negative, Neutral] to indicate the direct impact of the news on "
  const ImpactTail := ".\n\nHeadline:\n"
  const Quote := "\""
  const Closing := "\n\nFormat the output exactly with numbered " + "sections as instructed."

  /** The line break after the opening backtick. */
  const LeadingBreak := "\n"
  /** The line break and indentation before the closing backtick. */
  const TrailingIndent := "\n    "

  /**
   * The template literal's fixed strings, as JavaScript splits them around
   * its substitutions: `${ticker}` after each of the first three and
   * `${headline}` after the fourth.
   */
  const TemplateStrings: seq<string> := [LeadingBreak + (Intro + SummaryLead), SummaryTail + AdviceLine + OutlookLead,
    OutlookTail + ImpactLead, ImpactTail + Quote, Quote + Closing + TrailingIndent]

  /** The same strings without the whitespace before the first line and after the last. */
  const TextStrings: seq<string> := [Intro + SummaryLead, SummaryTail + AdviceLine + OutlookLead,
    OutlookTail + ImpactLead, ImpactTail + Quote, Quote + Closing]

  /** How a template literal is evaluated: each fixed string followed by the next substituted value. */
  function Substitute(strings: seq<string>, values: seq<string>): string
    requires |strings| == |values| + 1
    decreases |values|
  {
    if values == [] then strings[0] else strings[0] + (values[0] + Substitute(strings[1..], values[1..]))
  }

  /** The template literal's value for a headline and a ticker, before `.trim()`. */
  function PromptTemplate(headline: string, ticker: string): string {
    Substitute(TemplateStrings, [ticker, ticker, ticker, headline])
  }

  /** The template's text between its opening line break and its closing indentation. */
  function PromptText(headline: string, ticker: string): string {
    Substitute(TextStrings, [ticker, ticker, ticker, headline])
  }

  /** The user message: the substituted template, trimmed. */
  function Prompt(headline: string, ticker: string): string {
    Trim(PromptTemplate(headline, ticker))
  }

  /** The request sent to the model for a validated headline and ticker. */
  function ChatFor(headline: string, ticker: string): ChatRequest {
    ChatRequest(ChatModel, SystemMessage, Prompt(headline, ticker), 4)
  }

  /** The handler, as a decision table over the request and the model's outcome. */
  function Handle(req: Request, complete: ChatRequest -> Completion): (ex: Exchange)
    ensures req.httpMethod != "POST" ==> ex == Exchange(None, Reply(405, ErrorBody(MethodNotAllowed)))
    ensures req.httpMethod == "POST" && !(Truthy(req.headline) && Truthy(req.ticker)) ==>
      ex == Exchange(None, Reply(400, ErrorBody(MissingFields)))
    ensures ex.call.Some? <==> req.httpMethod == "POST" && Truthy(req.headline) && Truthy(req.ticker)
    ensures ex.call.Some? ==> ex.call == Some(ChatFor(req.headline.value, req.ticker.value))
    ensures ex.call.Some? ==> ex.reply == match complete(ex.call.value)
      case Threw => Reply(500, ErrorBody(AnalysisFailed))
      case Content(None) => Reply(200, AnalysisBody(NoAnalysis))
      case Content(Some(text)) => Reply(200, AnalysisBody(Trim(text)))
  {
    if req.httpMethod != "POST" then
      Exchange(None, Reply(405, ErrorBody(MethodNotAllowed)))
    else if !Truthy(req.headline) || !Truthy(req.ticker) then
      Exchange(None, Reply(400, ErrorBody(MissingFields)))
    else
      var chat := ChatFor(req.headline.value, req.ticker.value);
      var reply := match complete(chat)
        case Threw => Reply(500, ErrorBody(AnalysisFailed))
        case Content(content) =>
          var analysis := if content.Some? then Some(Trim(content.value)) else None;
          Reply(200, AnalysisBody(analysis.GetOr(NoAnalysis)));
      Exchange(Some(chat), reply)
  }

  /** A rejected request does not depend on the model at all: no call, so nothing the model could do changes the reply. */
  lemma RejectedWithoutModel(req: Request, f: ChatRequest -> Completion, g: ChatRequest -> Completion)
    requires req.httpMethod != "POST" || !Truthy(req.headline) || !Truthy(req.ticker)
    ensures Handle(req, f) == Handle(req, g)
    ensures Handle(req, f).call.None? && Handle(req, f).reply.status in {400, 405}
  {
  }

  /** The method check wins over the field check: a non-POST request is 405 whatever its body. */
  lemma MethodCheckedFirst(req: Request, complete: ChatRequest -> Completion)
    requires req.httpMethod != "POST" && !Truthy(req.headline)
    ensures Handle(req, complete).reply.status == 405
  {
  }

  /** Every path ends in exactly one of the four statuses, and only a made call can end in 200 or 500. */
  lemma StatusTable(req: Request, complete: ChatRequest -> Completion)
    ensures var ex := Handle(req, complete);
      && ex.reply.status in {200, 400, 405, 500}
      && (ex.reply.status in {200, 500} <==> ex.call.Some?)
      && (ex.reply.status == 500 <==> ex.call.Some? && complete(ex.call.value).Threw?)
  {
  }

  /** Content that is present is trimmed and returned even when it is empty; only absent content gets the default text. */
  lemma ContentShaping(req: Request, complete: ChatRequest -> Completion)
    requires req.httpMethod == "POST" && Truthy(req.headline) && Truthy(req.ticker)
    ensures var ex := Handle(req, complete);
      && (complete(ex.call.value) == Content(Some("")) ==> ex.reply == Reply(200, AnalysisBody("")))
      && (complete(ex.call.value) == Content(None) ==> ex.reply == Reply(200, AnalysisBody(NoAnalysis)))
      && (complete(ex.call.value) == Content(Some(" Positive\n")) ==> ex.reply == Reply(200, AnalysisBody("Positive")))
  {
    TrimOfTrimmed("");
    TrimPadded(" ", "Positive", "\n");
    assert " " + "Positive" + "\n" == " Positive\n";
  }

  /** `.trim()` removes exactly the template's opening line break and closing indentation. */
  lemma PromptIsText(headline: string, ticker: string)
    ensures Prompt(headline, ticker) == PromptText(headline, ticker)
  {
    TemplateEnds();
    assert TemplateStrings == TextStrings[0 := LeadingBreak + TextStrings[0]][4 := TextStrings[4] + TrailingIndent];
    TrimSubstitute(TextStrings, LeadingBreak, TrailingIndent, [ticker, ticker, ticker, headline]);
  }

  /** The template's text starts and ends with a visible character. */
  lemma TemplateEnds()
    ensures TextStrings[0] != [] && !IsSpace(TextStrings[0][0])
    ensures TextStrings[4] != [] && !IsSpace(TextStrings[4][|TextStrings[4]| - 1])
  {
    assert Intro[0] == 'Y';
    assert Closing[|Closing| - 1] == '.';
  }

  /** Whitespace added before the first fixed string and after the last one is what `.trim()` takes off again. */
  lemma TrimSubstitute(strings: seq<string>, front: string, back: string, values: seq<string>)
    requires |strings| == |values| + 1 && |strings| >= 2
    requires AllSpace(front) && AllSpace(back)
    requires strings[0] != [] && !IsSpace(strings[0][0])
    requires strings[|strings| - 1] != [] && !IsSpace(strings[|strings| - 1][|strings[|strings| - 1]| - 1])
    ensures var last := |strings| - 1;
      Trim(Substitute(strings[0 := front + strings[0]][last := strings[last] + back], values)) == Substitute(strings, values)
  {
    var last := |strings| - 1;
    var padded := strings[last := strings[last] + back];
    SubstituteAppend(strings, back, values);
    SubstitutePrepend(padded, front, values);
    assert padded[0 := front + padded[0]] == strings[0 := front + strings[0]][last := strings[last] + back];
    SubstituteLast(strings, values);
    var x := Substitute(strings, values);
    assert x[0] == strings[0][0];
    assert front + (x + back) == front + x + back;
    TrimPadded(front, x, back);
  }

  /** Text put before the first fixed string comes first in the result. */
  lemma SubstitutePrepend(strings: seq<string>, front: string, values: seq<string>)
    requires |strings| == |values| + 1
    ensures Substitute(strings[0 := front + strings[0]], values) == front + Substitute(strings, values)
  {
    if values != [] {
      assert strings[0 := front + strings[0]][1..] == strings[1..];
    }
  }

  /** Text put after the last fixed string comes last in the result. */
  lemma {:induction false} SubstituteAppend(strings: seq<string>, back: string, values: seq<string>)
    requires |strings| == |values| + 1
    ensures var last := |strings| - 1;
      Substitute(strings[last := strings[last] + back], values) == Substitute(strings, values) + back
  {
    var last := |strings| - 1;
    var padded := strings[last := strings[last] + back];
    if values != [] {
      assert padded[0] == strings[0];
      assert padded[1..] == strings[1..][last - 1 := strings[1..][last - 1] + back];
      SubstituteAppend(strings[1..], back, values[1..]);
      var rest := Substitute(strings[1..], values[1..]);
      assert Substitute(padded, values) == strings[0] + (values[0] + (rest + back));
      assert strings[0] + (values[0] + (rest + back)) == strings[0] + (values[0] + rest) + back;
    }
  }

  /** The result ends with the last character of the last fixed string. */
  lemma {:induction false} SubstituteLast(strings: seq<string>, values: seq<string>)
    requires |strings| == |values| + 1
    requires strings[|strings| - 1] != []
    ensures var r := Substitute(strings, values);
      r != [] && r[|r| - 1] == strings[|strings| - 1][|strings[|strings| - 1]| - 1]
  {
    if values != [] {
      SubstituteLast(strings[1..], values[1..]);
    }
  }

  /** The ticker is embedded in sections 1, 3 and 4, and the headline inside double quotes. */
  lemma PromptEmbeds(headline: string, ticker: string)
    ensures Contains(Prompt(headline, ticker), SummaryLead + ticker + SummaryTail)
    ensures Contains(Prompt(headline, ticker), OutlookLead + ticker + OutlookTail)
    ensures Contains(Prompt(headline, ticker), ImpactLead + ticker + ImpactTail)
    ensures Contains(Prompt(headline, ticker), Quote + headline + Quote)
  {
    PromptIsText(headline, ticker);
    var s := TextStrings;
    TextLayout(headline, ticker);
    EndsWithSuffix(Intro, SummaryLead);
    StartsWithPrefix(SummaryTail, AdviceLine);
    StartsWithExtend(SummaryTail + AdviceLine, OutlookLead, SummaryTail);
    EndsWithSuffix(SummaryTail + AdviceLine, OutlookLead);
    StartsWithPrefix(OutlookTail, ImpactLead);
    EndsWithSuffix(OutlookTail, ImpactLead);
    StartsWithPrefix(ImpactTail, Quote);
    EndsWithSuffix(ImpactTail, Quote);
    StartsWithPrefix(Quote, Closing);
    LayoutEmbeds(s[0], s[1], s[2], s[3], s[4], ticker, headline,
      SummaryLead, SummaryTail, OutlookLead, OutlookTail, ImpactLead, ImpactTail, Quote, Quote);
  }

  /** The substituted text, written out one substitution at a time. */
  lemma TextLayout(headline: string, ticker: string)
    ensures var s := TextStrings;
      PromptText(headline, ticker) == s[0] + (ticker + (s[1] + (ticker + (s[2] + (ticker + (s[3] + (headline + s[4])))))))
  {
    var s := TextStrings;
    assert Substitute(s[3..], [headline]) == s[3] + (headline + s[4]);
    assert Substitute(s[2..], [ticker, headline]) == s[2] + (ticker + Substitute(s[3..], [headline]));
    assert Substitute(s[1..], [ticker, ticker, headline]) == s[1] + (ticker + Substitute(s[2..], [ticker, headline]));
  }

  /**
   * In a four-hole substitution, each value is found together with the end
   * of the string before it and the start of the string after it.
   */
  lemma LayoutEmbeds(s0: string, s1: string, s2: string, s3: string, s4: string, t: string, h: string,
                     b1: string, c1: string, b2: string, c2: string, b3: string, c3: string, b4: string, c4: string)
    requires EndsWith(s0, b1) && StartsWith(s1, c1)
    requires EndsWith(s1, b2) && StartsWith(s2, c2)
    requires EndsWith(s2, b3) && StartsWith(s3, c3)
    requires EndsWith(s3, b4) && StartsWith(s4, c4)
    ensures var w := s0 + (t + (s1 + (t + (s2 + (t + (s3 + (h + s4)))))));
      && Contains(w, b1 + t + c1) && Contains(w, b2 + t + c2)
      && Contains(w, b3 + t + c3) && Contains(w, b4 + h + c4)
  {
    var r3 := s3 + (h + s4);
    var r2 := s2 + (t + r3);
    var r1 := s1 + (t + r2);
    StartsWithExtend(s1, t + r2, c1);
    StartsWithExtend(s2, t + r3, c2);
    StartsWithExtend(s3, h + s4, c3);
    Straddle(s0, t, r1, b1, c1);
    Straddle(s1, t, r2, b2, c2);
    Straddle(s2, t, r3, b3, c3);
    Straddle(s3, h, s4, b4, c4);
    // each section stays found as the text before it is added
    ContainsBehind(s2, t, r3, b4 + h + c4);
    ContainsBehind(s1, t, r2, b4 + h + c4);
    ContainsBehind(s1, t, r2, b3 + t + c3);
    ContainsBehind(s0, t, r1, b4 + h + c4);
    ContainsBehind(s0, t, r1, b3 + t + c3);
    ContainsBehind(s0, t, r1, b2 + t + c2);
  }

  predicate EndsWith(s: string, x: string) {
    |x| <= |s| && s[|s| - |x|..] == x
  }

  lemma EndsWithSuffix(front: string, x: string)
    ensures EndsWith(front + x, x)
  {
    assert (front + x)[|front|..] == x;
  }

  lemma StartsWithPrefix(x: string, rest: string)
    ensures StartsWith(x + rest, x)
  {
    assert (x + rest)[..|x|] == x;
  }

  lemma StartsWithExtend(s: string, rest: string, x: string)
    requires StartsWith(s, x)
    ensures StartsWith(s + rest, x)
  {
    assert (s + rest)[..|x|] == s[..|x|];
  }

  /** A value between a string ending in `b` and one starting with `c` is found with `b` and `c` around it. */
  lemma Straddle(p: string, x: string, s: string, b: string, c: string)
    requires EndsWith(p, b) && StartsWith(s, c)
    ensures Contains(p + (x + s), b + x + c)
  {
    var i := |p| - |b|;
    var w := p + (x + s);
    assert w[i..i + |b|] == b;
    assert w[i + |b|..i + |b| + |x|] == x;
    assert w[i + |b| + |x|..i + |b| + |x| + |c|] == c;
    assert w[i..i + |b + x + c|] == b + x + c;
    assert OccursAt(w, b + x + c, i);
  }

  lemma ContainsBehind(p: string, x: string, s: string, y: string)
    requires Contains(s, y)
    ensures Contains(p + (x + s), y)
  {
    ContainsAfter(x, s, y);
    ContainsAfter(p, x + s, y);
  }

  lemma ContainsAfter(front: string, s: string, x: string)
    requires Contains(s, x)
    ensures Contains(front + s, x)
  {
    var i: nat :| OccursAt(s, x, i);
    assert (front + s)[|front| + i..|front| + i + |x|] == s[i..i + |x|];
    assert OccursAt(front + s, x, |front| + i);
  }
}
