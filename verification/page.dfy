/** The bulletin page as the summary-link search sees it: the page's `<a>`
    elements in document order, each reduced to the four things the
    heuristics look at, and the per-anchor tests those heuristics apply. */
module Page {
  import opened Wrappers
  import opened Strings

  /** One `<a>` element.
      - `title`: its `title` attribute, if present;
      - `text`: BeautifulSoup's `.string`, present when the element has a
        single child that is a string, or a single child tag whose own
        `.string` is present;
      - `href`: its `href` attribute, if present;
      - `parentText`: the text of the enclosing element joined with spaces,
        None when the anchor has no parent element. */
  datatype Anchor = Anchor(
    title: Option<string>,
    text: Option<string>,
    href: Option<string>,
    parentText: Option<string>)

  /** The word every heuristic looks for. */
  const Marker: string := "sumario"

  /** The ending that marks a link to a PDF document. */
  const PdfSuffix: string := ".pdf"

  /** Python truthiness of an optional string: present and non-empty. */
  predicate Truthy(s: Option<string>) {
    s.Some? && NonEmpty(s.value)
  }

  /** `"sumario" in s.lower()` */
  predicate Mentions(s: string) {
    Contains(Lower(s), Marker)
  }

  /** The test is blind to case: lower-casing first changes nothing. */
  lemma MentionsIgnoresCase(s: string)
    ensures Mentions(Lower(s)) == Mentions(s)
  {
    LowerIdempotent(s);
  }

  /** Tier 1 filter: a title that mentions the marker. */
  predicate TitleCue(a: Anchor) {
    Truthy(a.title) && Mentions(a.title.value)
  }

  /** Tier 2 filter: a `.string` that mentions the marker. */
  predicate TextCue(a: Anchor) {
    Truthy(a.text) && Mentions(a.text.value)
  }

  /** The `find_all` filter for tiers 3 and 4: an href whose lower-cased
      form ends in ".pdf". */
  predicate IsPdfLink(a: Anchor) {
    Truthy(a.href) && EndsWith(Lower(a.href.value), PdfSuffix)
  }

  /** Tier 3 test on a PDF link: the href (read with default "") mentions
      the marker. */
  predicate HrefCue(a: Anchor) {
    Mentions(a.href.GetOr(""))
  }

  /** Tier 4 test on a PDF link: the parent's text (or "" without a
      parent) mentions the marker. */
  predicate ParentCue(a: Anchor) {
    Mentions(a.parentText.GetOr(""))
  }

  /** Tier 3 as a test on the whole page: a PDF link whose href mentions
      the marker. */
  predicate PdfHrefCue(a: Anchor) {
    IsPdfLink(a) && HrefCue(a)
  }

  /** Tier 4 as a test on the whole page: a PDF link whose parent's text
      mentions the marker. */
  predicate PdfParentCue(a: Anchor) {
    IsPdfLink(a) && ParentCue(a)
  }
}
