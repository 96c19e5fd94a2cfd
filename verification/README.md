# BOJA summary-link bot: a Dafny model

The bot looks for the latest issue of the Boletín Oficial de la Junta de
Andalucía (BOJA), finds the link to that issue's summary PDF, scores the
summary's text against a target phrase, and sends a mail when the score is
high enough. This project models the decision logic of that run:

- **Summary-link selection** (`obtener_enlace_sumario`). The bulletin page is
  a sequence of anchor records in document order. Each record holds the
  `title` attribute, BeautifulSoup's `.string`, the `href` and the parent
  element's text. Four heuristics run in order and the first match wins:
  1. a title mentioning "sumario";
  2. a `.string` mentioning "sumario";
  3. a PDF link whose href mentions "sumario";
  4. a PDF link whose parent's text mentions "sumario".

  Every test lower-cases before it compares. After a match, an anchor with
  no href, or an empty one, gives None. Otherwise the href is resolved
  against the page URL. A failed page fetch gives None before any heuristic
  runs.
- **Href absolutisation** in `obtener_url_ultimo_boletin`. An href that does
  not start with "http" gets `https://www.juntadeandalucia.es` put in front
  of it.
- **The run's decisions** in `main`. The run stops when there is no bulletin
  URL or no summary link. Otherwise it notifies exactly when the similarity
  score is at least 80.

Modules, one per concept:

- `Wrappers`: `Option`.
- `Strings`: ASCII lower-casing, `in`, `startswith` and `endswith`.
- `Search`: first match in document order (`soup.find` and the for/break
  loops) and the order-keeping filter (`soup.find_all`).
- `Page`: the anchor record and the per-anchor tests.
- `Summary`: the four-tier selection and the lookup.
- `Bulletin`: href absolutisation.
- `Pipeline`: the threshold and the run.

Outside inputs are parameters. `join` stands for `urljoin`, following
RFC 3986 section 5.2. `similarity` stands for downloading the PDF,
extracting its text and scoring it with `fuzz.partial_ratio`. The page fetch
is a `Fetch` value: either a failure or the page's anchors.

Three facts about the code shape the model:

- Tier 2 reads BeautifulSoup's `.string`. It is present only when the
  anchor has a single child that is a string, or a single child tag whose
  own `.string` is present. An anchor whose text is spread over several
  children never matches tier 2.
- The score is a `real`, because `partial_ratio` returns a float.
- The browser step raises an exception when an element or the href it
  reads is missing.

## Model

| member | source | states |
|---|---|---|
| Summary.Select | app.py:46-72 | A chosen anchor is one of the page's anchors and passes the test of the tier that chose it. A tier 3 or 4 choice is therefore a PDF link. |
| Summary.SelectPicksFirstOfTier | app.py:46-68 | Completeness. Suppose every earlier tier matches nothing and k is the first anchor tier t accepts. Then anchor k is chosen, by tier t. |
| Summary.SelectSomeSound | app.py:46-68 | Soundness. A chosen anchor is the first in document order that its tier accepts, and every earlier tier matches no anchor on the page. |
| Summary.SelectNoneSound | app.py:70-72 | If nothing is chosen, then no anchor passes any of the four tests. |
| Summary.NoChoiceIffNoCue | app.py:46-72 | Nothing is chosen exactly when no anchor passes any tier's test. Both directions are proved. |
| Summary.TitleCueWins | app.py:47 | Take an anchor whose title mentions "sumario", with no such title before it. It is chosen by tier 1, whatever anchors follow it. |
| Summary.TextTierNeedsString | app.py:48-50 | A tier 2 choice happens only when no title matches. The chosen anchor has a `.string`, and it is the first anchor whose `.string` mentions "sumario". |
| Summary.PdfTiersOnlyPdfLinks | app.py:52-68 | Tiers 3 and 4 choose only PDF links, and only when tiers 1 and 2 are silent. Tier 3 takes the first PDF link whose href mentions "sumario". Tier 4 runs only when tier 3 found no such link. |
| Summary.PdfTiersOverPage | app.py:54-68 | Scanning the `find_all` list of PDF links gives the same result as scanning the whole page for "PDF link and cue". |
| Summary.SummaryLink | app.py:35-81 | A failed fetch gives None. A result is always `join(page URL, h)`, where h is the non-empty href of an anchor on the page. |
| Summary.SummaryLinkResolvesFirstOfTier | app.py:74-81 | When tier t is the first to match and k is its first anchor, the lookup gives `join(page URL, href of k)` if that href is non-empty, and None otherwise. |
| Summary.NoCueNoLink | app.py:70-72 | A page on which no tier matches gives None. |
| Summary.MissingHrefOnlyFromTitleOrText | app.py:74-77 | An anchor that is chosen but refused for lack of an href always comes from tier 1 or tier 2. |
| Summary.TitleWithoutHrefHidesPdf | app.py:47-77 | Example: a titled anchor without an href comes before a link named `sumario.pdf`. The lookup gives None, even though that link would pass tier 3. |
| Search.FirstIndex | app.py:55-59 | `soup.find` and the for/break loops return the first position whose element passes the test, or None exactly when no element passes. |
| Search.Find | app.py:47-50 | `soup.find` yields an element that is in the sequence and passes the test. It yields None exactly when no element passes. `FindFirst` and `FindIsFirst` tie the result to the first passing position. |
| Search.Filter | app.py:54 | `soup.find_all` keeps at most as many elements as it is given. Membership holds both ways: every kept element is in the input and passes the test, and every passing input element is kept. The contract does not state order; `FindInFilter` carries the order fact. |
| Search.FindInFilter | app.py:54-59 | Searching the filtered list for q gives the same result as searching the whole list for "p and q", because filtering keeps document order. |
| Strings.Contains | app.py:47 | `needle in hay` holds exactly when some window of `hay` spells `needle`. |
| Strings.InfixStep | app.py:57 | `needle` occurs in `hay` exactly when it starts `hay` or occurs in `hay` after the first character. |
| Strings.Lower | app.py:47 | Lower-casing keeps the length. Each capital 'A' to 'Z' becomes the small letter at the same place in the alphabet. No upper-case ASCII letter is left, and no other character changes. |
| Strings.LowerIdempotent | app.py:50 | Lower-casing twice gives the same result as lower-casing once. |
| Page.Truthy | app.py:47-75 | No contract: Python truthiness of an optional string, present and non-empty. It is the `x and …` guard of the lambdas at lines 47, 50 and 54 and the `if not href` at line 75. |
| Page.Mentions | app.py:47-66 | No contract: the shared test `"sumario" in s.lower()`, that is, the lower-cased string contains "sumario". |
| Page.TitleCue | app.py:47 | No contract: the tier-1 test, a present, non-empty title whose lower-cased form contains "sumario". |
| Page.TextCue | app.py:50 | No contract: the tier-2 test, a present, non-empty `.string` whose lower-cased form contains "sumario". |
| Page.IsPdfLink | app.py:54 | No contract: the `find_all` filter, a present, non-empty href whose lower-cased form ends in ".pdf". |
| Page.HrefCue | app.py:56-57 | No contract: the tier-3 test, the href read with default "" contains "sumario" once lower-cased. |
| Page.ParentCue | app.py:64-66 | No contract: the tier-4 test, the parent's text, or "" without a parent, contains "sumario" once lower-cased. |
| Strings.NonEmpty | app.py:117-123 | No contract: Python truthiness of a string, the `if not url_boletin` and `if not url_sumario` guards. |
| Strings.StartsWith | app.py:30 | No contract: `s.startswith(p)`, the string is at least as long as p and its first characters spell p. |
| Strings.EndsWith | app.py:54 | No contract: `s.endswith(p)`, the string is at least as long as p and its last characters spell p. |
| Page.MentionsIgnoresCase | app.py:66 | The "sumario" test gives the same answer on a string and on its lower-cased form. |
| Bulletin.Absolutise | app.py:30-31 | The result starts with "http" and ends with the href. It equals the href exactly when the href starts with "http". Otherwise it is the origin followed by the href. |
| Bulletin.AbsolutiseIdempotent | app.py:30-31 | Making an href absolute twice is the same as doing it once. |
| Pipeline.ShouldNotify | app.py:133 | The notify decision `similitud >= 80`. As a bare predicate it carries no contract; `ThresholdBoundary` and `NotifyMonotone` state its boundary and its monotonicity. |
| Pipeline.ThresholdBoundary | app.py:133-137 | A score of 80 notifies. Scores of 79 and 79.99 do not. |
| Pipeline.NotifyMonotone | app.py:133 | A higher score never turns a notification off. |
| Pipeline.Run | app.py:114-137 | The run stops at "no bulletin" exactly when the bulletin URL is empty. It stops at "no summary" exactly when the lookup gives no link or an empty one, so a failed page fetch stops it there. Each scored outcome carries the similarity of the resolved summary URL. The run ends in "found" exactly when there is a bulletin URL and a non-empty summary link whose score is at least 80. |
| Pipeline.LocatedBulletinIsUsed | app.py:116-119 | Starting from an absolutised href, the run never stops for want of a bulletin. |
| Pipeline.TitledSummaryDecides | app.py:122-137 | Take a page whose first titled summary anchor has an href. The run scores the resolved URL and notifies exactly when that score is at least 80. |
| Pipeline.NoCueStopsRun | app.py:122-124 | A page on which no heuristic matches ends the run with "no summary", before anything is downloaded or scored. |

## Left out

- Browser automation: the Playwright launch, the wait for network idle, the shadow-DOM query and the async flow (app.py:14-28, 114-116). This is an external browser. Only the href post-processing is modelled. Two crashes are not modelled. A missing element makes the code raise. So does a button without an href attribute: `get_attribute` returns None and `startswith` fails on it (app.py:26-31).
- HTTP through `requests` (app.py:38-39, 86): network I/O. The page fetch is only a success/failure input.
- HTML parsing by BeautifulSoup (`find`, `find_all`, `find_parent`, `get_text`): library behaviour. The page is given already reduced to anchor records.
- `urljoin` (app.py:80): it is the parameter `join`, so the URL resolution rules are not modelled.
- Strings.Lower: models only ASCII lower-casing. Python's `str.lower` also folds non-ASCII letters; the model leaves them unchanged.
- Temp-file writing and pdfminer text extraction (app.py:84-91): file I/O and a foreign library.
- `fuzz.partial_ratio` (app.py:93-97): a library computation. The score is the output of the `similarity` parameter.
- Mail sending and environment-variable reads (app.py:99-112): I/O and credentials. A run ending in `PhraseFound` is the point where the mail would be sent.
- Pipeline.Run: treats the stages after the lookup as total, and they are not. The PDF download at app.py:86 has no status check and no `try`. Text extraction at app.py:90 raises on a body that is not a PDF, such as an error page. The SMTP login and send at app.py:110-112 can raise. Each of these ends the real run with an uncaught exception instead of an outcome. `similarity` always yields a score, and `PhraseFound` marks where the mail would be sent, not that it was delivered.
- Console output (`print`) on every path: not part of any decision.
