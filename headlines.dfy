/** The record the aggregation endpoint emits and the page filters. */
module Headlines {

  datatype Headline = Headline(title: string, link: string)

  /** Both fields non-empty: the only headlines the aggregator lets through. */
  predicate WellFormed(h: Headline) {
    h.title != "" && h.link != ""
  }
}
