/** The search for the bulletin's summary link: four heuristics tried in
    order, first match wins, then a guard against a missing href and a
    resolution against the page URL. */
module Summary {
  import opened Wrappers
  import opened Strings
  import opened Search
  import opened Page

  /** Which heuristic produced the anchor. */
  datatype Tier = ByTitle | ByText | ByPdfHref | ByPdfParent

  /** The order in which the heuristics are tried. */
  function Rank(t: Tier): (n: nat) {
    match t
    case ByTitle => 0
    case ByText => 1
    case ByPdfHref => 2
    case ByPdfParent => 3
  }

  /** The test a tier applies to an anchor, over the whole page. */
  function CueOf(t: Tier): (cue: Anchor -> bool) {
    match t
    case ByTitle => TitleCue
    case ByText => TextCue
    case ByPdfHref => PdfHrefCue
    case ByPdfParent => PdfParentCue
  }

  /** The anchor that was found and the heuristic that found it. */
  datatype Choice = Choice(tier: Tier, anchor: Anchor)

  /** The result of fetching the bulletin page: a failure (network error,
      timeout or an error status) or the page's anchors. */
  datatype Fetch = FetchFailed | Fetched(anchors: seq<Anchor>)

  /** The four heuristics as the page code runs them. Tiers 3 and 4 scan
      only the PDF links, collected once in document order. */
  function Select(anchors: seq<Anchor>): (r: Option<Choice>)
    ensures r.Some? ==> r.value.anchor in anchors
    ensures r.Some? ==> CueOf(r.value.tier)(r.value.anchor)
  {
    var byTitle := Find(anchors, TitleCue);
    if byTitle.Some? then Some(Choice(ByTitle, byTitle.value))
    else
      var byText := Find(anchors, TextCue);
      if byText.Some? then Some(Choice(ByText, byText.value))
      else
        var pdfLinks := Filter(anchors, IsPdfLink);
        var byHref := Find(pdfLinks, HrefCue);
        if byHref.Some? then Some(Choice(ByPdfHref, byHref.value))
        else
          var byParent := Find(pdfLinks, ParentCue);
          if byParent.Some? then Some(Choice(ByPdfParent, byParent.value))
          else None
  }

  /** No heuristic tried before `t` matches any anchor of the page. */
  ghost predicate EarlierTiersSilent(anchors: seq<Anchor>, t: Tier) {
    && (Rank(t) > Rank(ByTitle) ==> NoneSatisfy(anchors, TitleCue))
    && (Rank(t) > Rank(ByText) ==> NoneSatisfy(anchors, TextCue))
    && (Rank(t) > Rank(ByPdfHref) ==> NoneSatisfy(anchors, PdfHrefCue))
  }

  /** Tiers 3 and 4 searched over the PDF links are tiers 3 and 4 searched
      over the whole page with the PDF test folded in. */
  lemma PdfTiersOverPage(anchors: seq<Anchor>)
    ensures Find(Filter(anchors, IsPdfLink), HrefCue) == Find(anchors, PdfHrefCue)
    ensures Find(Filter(anchors, IsPdfLink), ParentCue) == Find(anchors, PdfParentCue)
  {
    FindInFilter(anchors, IsPdfLink, HrefCue, PdfHrefCue);
    FindInFilter(anchors, IsPdfLink, ParentCue, PdfParentCue);
  }

  /** Completeness: when every earlier tier is silent and `k` is the first
      anchor tier `t` accepts, that anchor is chosen, by tier `t`. */
  lemma SelectPicksFirstOfTier(anchors: seq<Anchor>, t: Tier, k: int)
    requires EarlierTiersSilent(anchors, t)
    requires IsFirst(anchors, CueOf(t), k)
    ensures Select(anchors) == Some(Choice(t, anchors[k]))
  {
    FindFirst(anchors, CueOf(t), k);
    match t
    case ByTitle =>
    case ByText =>
      assert Find(anchors, TitleCue).None?;
    case _ =>
      assert Find(anchors, TitleCue).None?;
      assert Find(anchors, TextCue).None?;
      PdfTierPicksFirst(anchors, t, anchors[k]);
  }

  /** Completeness for tiers 3 and 4, once tiers 1 and 2 are known silent. */
  lemma PdfTierPicksFirst(anchors: seq<Anchor>, t: Tier, x: Anchor)
    requires t == ByPdfHref || t == ByPdfParent
    requires Find(anchors, TitleCue).None? && Find(anchors, TextCue).None?
    requires t == ByPdfParent ==> NoneSatisfy(anchors, PdfHrefCue)
    requires Find(anchors, CueOf(t)) == Some(x)
    ensures Select(anchors) == Some(Choice(t, x))
  {
    PdfTiersOverPage(anchors);
  }

  /** Soundness, empty case: no choice means every tier is silent. */
  lemma SelectNoneSound(anchors: seq<Anchor>)
    requires Select(anchors).None?
    ensures forall t: Tier :: NoneSatisfy(anchors, CueOf(t))
  {
    PdfTiersOverPage(anchors);
    assert Find(anchors, TitleCue).None?;
    assert Find(anchors, TextCue).None?;
    assert Find(anchors, PdfHrefCue).None?;
    assert Find(anchors, PdfParentCue).None?;
    forall t: Tier ensures NoneSatisfy(anchors, CueOf(t)) {
      assert Find(anchors, CueOf(t)).None?;
    }
  }

  /** Soundness, found case: the chosen anchor is the first one its tier
      accepts, and every earlier tier is silent. */
  lemma SelectSomeSound(anchors: seq<Anchor>)
    requires Select(anchors).Some?
    ensures EarlierTiersSilent(anchors, Select(anchors).value.tier)
    ensures exists k :: IsFirst(anchors, CueOf(Select(anchors).value.tier), k)
                        && anchors[k] == Select(anchors).value.anchor
  {
    if Find(anchors, TitleCue).Some? {
      ChosenByTier(anchors, Choice(ByTitle, Find(anchors, TitleCue).value));
    } else if Find(anchors, TextCue).Some? {
      ChosenByTier(anchors, Choice(ByText, Find(anchors, TextCue).value));
    } else {
      SelectSomeSoundPdf(anchors);
    }
  }

  /* SelectSomeSound, SelectSomeSoundPdf, SelectSomeSoundParent and
     ChosenByTier share one conclusion. The proof is split into these steps,
     each fixing one more silent tier, so that no single step unfolds all of
     Select at once. Proved in one piece, it exceeds the solver's resource
     limit. SelectSomeSoundParent takes the PdfTiersOverPage facts as
     requires for the same reason. */

  /** The found case of SelectSomeSound when tiers 1 and 2 are silent. */
  lemma SelectSomeSoundPdf(anchors: seq<Anchor>)
    requires Select(anchors).Some?
    requires Find(anchors, TitleCue).None? && Find(anchors, TextCue).None?
    ensures EarlierTiersSilent(anchors, Select(anchors).value.tier)
    ensures exists k :: IsFirst(anchors, CueOf(Select(anchors).value.tier), k)
                        && anchors[k] == Select(anchors).value.anchor
  {
    PdfTiersOverPage(anchors);
    if Find(anchors, PdfHrefCue).Some? {
      ChosenByTier(anchors, Choice(ByPdfHref, Find(anchors, PdfHrefCue).value));
    } else {
      SelectSomeSoundParent(anchors);
    }
  }

  /** The found case of SelectSomeSound when only tier 4 matches. */
  lemma SelectSomeSoundParent(anchors: seq<Anchor>)
    requires Select(anchors).Some?
    requires Find(anchors, TitleCue).None? && Find(anchors, TextCue).None?
    requires Find(anchors, PdfHrefCue).None?
    requires Find(Filter(anchors, IsPdfLink), HrefCue) == Find(anchors, PdfHrefCue)
    requires Find(Filter(anchors, IsPdfLink), ParentCue) == Find(anchors, PdfParentCue)
    ensures EarlierTiersSilent(anchors, Select(anchors).value.tier)
    ensures exists k :: IsFirst(anchors, CueOf(Select(anchors).value.tier), k)
                        && anchors[k] == Select(anchors).value.anchor
  {
    var pdfParent := Find(anchors, PdfParentCue);
    assert pdfParent.Some?;
    ChosenByTier(anchors, Choice(ByPdfParent, pdfParent.value));
  }

  /** One found case of soundness, once the tier is known. */
  lemma ChosenByTier(anchors: seq<Anchor>, c: Choice)
    requires Select(anchors) == Some(c)
    requires EarlierTiersSilent(anchors, c.tier)
    requires Find(anchors, CueOf(c.tier)) == Some(c.anchor)
    ensures EarlierTiersSilent(anchors, Select(anchors).value.tier)
    ensures exists k :: IsFirst(anchors, CueOf(Select(anchors).value.tier), k)
                        && anchors[k] == Select(anchors).value.anchor
  {
    FindIsFirst(anchors, CueOf(c.tier));
  }

  /** A page yields no anchor exactly when no tier matches anything. */
  lemma NoChoiceIffNoCue(anchors: seq<Anchor>)
    ensures Select(anchors).None? <==> forall t: Tier :: NoneSatisfy(anchors, CueOf(t))
  {
    if Select(anchors).Some? {
      var c := Select(anchors).value;
      assert !NoneSatisfy(anchors, CueOf(c.tier));
    } else {
      SelectNoneSound(anchors);
    }
  }

  /** An anchor whose title mentions the marker wins as soon as no anchor
      before it has such a title, whatever the rest of the page holds. */
  lemma TitleCueWins(before: seq<Anchor>, a: Anchor, after: seq<Anchor>)
    requires NoneSatisfy(before, TitleCue)
    requires TitleCue(a)
    ensures Select(before + [a] + after) == Some(Choice(ByTitle, a))
  {
    var page := before + [a] + after;
    assert page[|before|] == a;
    assert IsFirst(page, CueOf(ByTitle), |before|) by {
      forall j | 0 <= j < |before| ensures !TitleCue(page[j]) {
        assert page[j] == before[j];
      }
    }
    SelectPicksFirstOfTier(page, ByTitle, |before|);
  }

  /** Tier 2 is reached only when no title matches, and it only takes an
      anchor whose `.string` mentions the marker; an anchor without a
      `.string` never matches it. */
  lemma TextTierNeedsString(anchors: seq<Anchor>)
    requires Select(anchors).Some? && Select(anchors).value.tier == ByText
    ensures NoneSatisfy(anchors, TitleCue)
    ensures Select(anchors).value.anchor.text.Some?
    ensures exists k :: IsFirst(anchors, TextCue, k) && anchors[k] == Select(anchors).value.anchor
  {
    SelectSomeSound(anchors);
  }

  /** Tiers 3 and 4 only take PDF links; tier 3 takes the first PDF link
      whose href mentions the marker, and tier 4 is reached only when no
      PDF link's href does. */
  lemma PdfTiersOnlyPdfLinks(anchors: seq<Anchor>)
    requires Select(anchors).Some?
    requires Select(anchors).value.tier == ByPdfHref || Select(anchors).value.tier == ByPdfParent
    ensures IsPdfLink(Select(anchors).value.anchor)
    ensures NoneSatisfy(anchors, TitleCue) && NoneSatisfy(anchors, TextCue)
    ensures Select(anchors).value.tier == ByPdfParent ==> NoneSatisfy(anchors, PdfHrefCue)
    ensures Select(anchors).value.tier == ByPdfHref ==>
      exists k :: IsFirst(anchors, PdfHrefCue, k) && anchors[k] == Select(anchors).value.anchor
  {
    SelectSomeSound(anchors);
  }

  /** The whole lookup: fetch the page, choose an anchor, refuse an anchor
      without an href, resolve the href against the page URL. `join` stands
      for `urljoin`. */
  function SummaryLink(pageUrl: string, fetch: Fetch, join: (string, string) -> string): (r: Option<string>)
    ensures fetch.FetchFailed? ==> r.None?
    ensures r.Some? ==> exists a :: a in fetch.anchors && Truthy(a.href) && r.value == join(pageUrl, a.href.value)
  {
    match fetch
    case FetchFailed => None
    case Fetched(anchors) =>
      match Select(anchors)
      case None => None
      case Some(c) =>
        if !Truthy(c.anchor.href) then None
        else Some(join(pageUrl, c.anchor.href.value))
  }

  /** The lookup resolves the href of the first anchor of the first tier
      that matches, or gives None when that anchor has no usable href. */
  lemma SummaryLinkResolvesFirstOfTier(pageUrl: string, anchors: seq<Anchor>, join: (string, string) -> string, t: Tier, k: int)
    requires EarlierTiersSilent(anchors, t)
    requires IsFirst(anchors, CueOf(t), k)
    ensures Truthy(anchors[k].href) ==> SummaryLink(pageUrl, Fetched(anchors), join) == Some(join(pageUrl, anchors[k].href.value))
    ensures !Truthy(anchors[k].href) ==> SummaryLink(pageUrl, Fetched(anchors), join).None?
  {
    SelectPicksFirstOfTier(anchors, t, k);
  }

  /** A page on which no tier matches yields None. */
  lemma NoCueNoLink(pageUrl: string, anchors: seq<Anchor>, join: (string, string) -> string)
    requires forall t: Tier :: NoneSatisfy(anchors, CueOf(t))
    ensures SummaryLink(pageUrl, Fetched(anchors), join).None?
  {
    NoChoiceIffNoCue(anchors);
  }

  /** When an anchor is chosen but the lookup still gives None, the anchor
      came from tier 1 or 2: tiers 3 and 4 only ever hold PDF links, whose
      href is present and non-empty. */
  lemma MissingHrefOnlyFromTitleOrText(pageUrl: string, anchors: seq<Anchor>, join: (string, string) -> string)
    requires Select(anchors).Some?
    requires SummaryLink(pageUrl, Fetched(anchors), join).None?
    ensures Select(anchors).value.tier == ByTitle || Select(anchors).value.tier == ByText
  {
  }

  /** A titled anchor without an href is still chosen, so it hides a PDF
      link whose name mentions the summary: the lookup gives None. */
  lemma TitleWithoutHrefHidesPdf(pageUrl: string, join: (string, string) -> string)
    ensures var titled := Anchor(Some("Sumario"), None, None, None);
            var pdf := Anchor(None, None, Some("sumario.pdf"), None);
            && PdfHrefCue(pdf)
            && SummaryLink(pageUrl, Fetched([titled, pdf]), join) == None
  {
    var titled := Anchor(Some("Sumario"), None, None, None);
    var pdf := Anchor(None, None, Some("sumario.pdf"), None);
    assert Lower("Sumario") == Marker;
    assert OccursAt(Marker, Lower("Sumario"), 0);
    assert Lower("sumario.pdf") == "sumario.pdf";
    assert OccursAt(Marker, Lower("sumario.pdf"), 0);
    assert Lower("sumario.pdf")[7..] == PdfSuffix;
    TitleCueWins([], titled, [pdf]);
    assert [] + [titled] + [pdf] == [titled, pdf];
  }
}
