/**
 * The client helper `getSentiment`: it posts the headline and the ticker to
 * the sentiment endpoint and hands back the text the widget parses.
 */
module Client {
  import opened Wrappers
  import opened Text
  import AnalyzeSentiment

  /**
   * `getSentiment`: the `analysis` field of the endpoint's reply when it is
   * non-empty, and "Neutral" when the field is missing or empty or the
   * request failed (`None`).
   */
  function SentimentText(reply: Option<AnalyzeSentiment.Reply>): (t: string)
    ensures t != ""
  {
    if reply.Some? && reply.value.body.AnalysisBody? && reply.value.body.analysis != "" then reply.value.body.analysis
    else "Neutral"
  }

  /**
   * What the client hands the widget for each way the endpoint can answer:
   * "Neutral" for a rejected request, a failed model call or an empty
   * analysis, and otherwise the analysis the endpoint returned.
   */
  lemma ClientText(req: AnalyzeSentiment.Request, complete: AnalyzeSentiment.ChatRequest -> AnalyzeSentiment.Completion)
    ensures var ex := AnalyzeSentiment.Handle(req, complete);
      var t := SentimentText(Some(ex.reply));
      && (ex.call.None? ==> t == "Neutral")
      && (ex.call.Some? && complete(ex.call.value).Threw? ==> t == "Neutral")
      && (ex.call.Some? && complete(ex.call.value) == AnalyzeSentiment.Content(None) ==> t == AnalyzeSentiment.NoAnalysis)
      && (ex.call.Some? && complete(ex.call.value).Content? && complete(ex.call.value).content.Some? ==>
            t == var a := Trim(complete(ex.call.value).content.value); if a == "" then "Neutral" else a)
  {
  }
}
