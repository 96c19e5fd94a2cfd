/** One run of the bot, with its stages reduced to what the decisions depend
    on: the bulletin URL found by the browser step, the fetched bulletin
    page, URL resolution, and the similarity score of the summary text. */
module Pipeline {
  import opened Page
  import opened Summary
  import opened Bulletin
  import Search
  import opened Strings

  /** The similarity score (0 to 100) from which the phrase counts as found. */
  const Threshold: real := 80.0

  /** The notification decision: notify exactly when the score reaches the
      threshold. */
  predicate ShouldNotify(score: real) {
    score >= Threshold
  }

  /** A score of 80 notifies and a score of 79 does not. */
  lemma ThresholdBoundary()
    ensures ShouldNotify(80.0)
    ensures !ShouldNotify(79.0)
    ensures !ShouldNotify(79.99)
  {
  }

  /** A higher score never turns a notification off. */
  lemma NotifyMonotone(low: real, high: real)
    requires low <= high
    ensures ShouldNotify(low) ==> ShouldNotify(high)
  {
  }

  /** How a run ends. */
  datatype Outcome =
    | NoBulletin                  // the browser step gave no URL
    | NoSummary                   // no summary link (fetch failure, no match, no href)
    | PhraseMissing(score: real)  // scored below the threshold: nothing sent
    | PhraseFound(score: real)    // scored at or above the threshold: mail would be sent

  /** A run: stop without a bulletin URL, stop without a summary link,
      otherwise score the summary and notify on a high enough score.
      `similarity` stands for downloading the summary, extracting its text
      and scoring it against the target phrase. */
  function Run(bulletinUrl: string, page: Fetch, join: (string, string) -> string, similarity: string -> real): (o: Outcome)
    ensures o.NoBulletin? <==> !NonEmpty(bulletinUrl)
    ensures NonEmpty(bulletinUrl) && page.FetchFailed? ==> o == NoSummary
    ensures NonEmpty(bulletinUrl) ==>
      var link := SummaryLink(bulletinUrl, page, join);
      (o == NoSummary <==> link.None? || !NonEmpty(link.value))
    ensures o.PhraseFound? <==>
      var link := SummaryLink(bulletinUrl, page, join);
      NonEmpty(bulletinUrl) && link.Some? && NonEmpty(link.value) && ShouldNotify(similarity(link.value))
    ensures o.PhraseFound? ==> ShouldNotify(o.score)
    ensures o.PhraseMissing? ==> !ShouldNotify(o.score)
    ensures o.PhraseFound? || o.PhraseMissing? ==>
      var link := SummaryLink(bulletinUrl, page, join);
      link.Some? && NonEmpty(link.value) && o.score == similarity(link.value)
  {
    if !NonEmpty(bulletinUrl) then NoBulletin
    else
      var link := SummaryLink(bulletinUrl, page, join);
      if link.None? || !NonEmpty(link.value) then NoSummary
      else
        var score := similarity(link.value);
        if ShouldNotify(score) then PhraseFound(score) else PhraseMissing(score)
  }

  /** The browser step always hands over a URL, so a run that starts from
      its href never stops for want of a bulletin. */
  lemma LocatedBulletinIsUsed(href: string, page: Fetch, join: (string, string) -> string, similarity: string -> real)
    ensures !Run(Absolutise(href), page, join, similarity).NoBulletin?
  {
  }

  /** A page whose first titled summary anchor carries an href leads to a
      notification exactly when the resolved summary scores at least 80. */
  lemma TitledSummaryDecides(
    bulletinUrl: string, anchors: seq<Anchor>, k: int,
    join: (string, string) -> string, similarity: string -> real)
    requires NonEmpty(bulletinUrl)
    requires Search.IsFirst(anchors, TitleCue, k)
    requires Truthy(anchors[k].href)
    requires NonEmpty(join(bulletinUrl, anchors[k].href.value))
    ensures var url := join(bulletinUrl, anchors[k].href.value);
      Run(bulletinUrl, Fetched(anchors), join, similarity)
        == if ShouldNotify(similarity(url)) then PhraseFound(similarity(url))
           else PhraseMissing(similarity(url))
  {
    SummaryLinkResolvesFirstOfTier(bulletinUrl, anchors, join, ByTitle, k);
  }

  /** A page on which no heuristic matches ends the run before any summary
      is downloaded or scored. */
  lemma NoCueStopsRun(
    bulletinUrl: string, anchors: seq<Anchor>,
    join: (string, string) -> string, similarity: string -> real)
    requires NonEmpty(bulletinUrl)
    requires forall t: Tier :: Search.NoneSatisfy(anchors, CueOf(t))
    ensures Run(bulletinUrl, Fetched(anchors), join, similarity) == NoSummary
  {
    NoCueNoLink(bulletinUrl, anchors, join);
  }
}
