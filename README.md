# OmixCalculator page scripts, modelled in Dafny

Two browser scripts of the OmixCalculator static site:

- `global.js`, shared by every page: the mobile-menu toggle, the desktop search overlay, and the
  sitemap search. On the first focus or hover of a search field, the sitemap search fetches
  `/sitemap.xml` once. It turns every `<loc>` into an entry `{title, url}`. Each search field then
  gets a results dropdown. On every keystroke the typed term filters the cards already on the page
  and fills the dropdown with up to five matching entries.
- `academic/negative-marking-calculator/tool.js`: the negative-marking calculator. It reads four
  number fields and refuses the input when there are more wrong answers than attempted ones.
  Otherwise it shows the score, the correct and wrong counts and the accuracy, and enters "auto
  mode". In auto mode every edit of a field recalculates. A reset leaves auto mode.

Modules:

- `Text` (`text.dfy`): the JavaScript string built-ins the scripts use. These are `toLowerCase`,
  `trim`, `indexOf`/`includes`, and `replace` with a string pattern.
- `Dom` (`dom.dfy`): an element's inline `style.display`.
- `SitemapIndex` (`sitemap_index.dfy`): the `<loc>` → `{title, url}` mapping.
- `SiteSearch` (`site_search.dfy`): the query, the dropdown, the card filter and the one-shot
  initialisation, with the index and the dropdowns as objects.
- `PageChrome` (`page_chrome.dfy`): the menu and overlay toggles, as classes.
- `NegativeMarking` (`negative_marking.dfy`): the calculator's arithmetic as functions, and the
  widget as a class. Each method of the class is proved equal to a pure transition
  (`Calculated`, `AfterReset`, `AfterInput`), and the lemmas are stated about those transitions.

Notes on what the code does:

- global.js:126 replaces the first `/index.html` anywhere in the `<loc>` text, not only at its
  end, so `/index.html/x` becomes `//x`.
- The title is "Home" when the url has no non-empty segment, but a page whose slug is `home` is
  titled "Home" as well, so the title alone does not tell the two apart.
- The length guard at global.js:163 counts UTF-16 code units: a term made of one character
  outside the Basic Multilingual Plane is long enough to search with.
- The reset handler (tool.js:66) calls `form.reset()`, which restores the values the markup gives
  the fields, so the model takes these as a parameter. The four readouts keep their text; only
  the result box is hidden.
- The calculator refuses only `wrong > total` (tool.js:31), so with a positive attempted count a
  negative wrong count gives an accuracy above 100 (`NegativeWrongOverstatesAccuracy`). With no
  positive attempted count the accuracy is 0. It lies in [0, 100] when `0 <= wrong <= total`
  (`AccuracyInRange`).

## Model

| member | source | states |
|---|---|---|
| `Text.Lower` | global.js:156 | lower-casing keeps the length, changes only upper-case ASCII letters, each into its lower-case letter, and leaves no upper-case ASCII letter behind |
| `Text.Utf16Length` | global.js:163 | a string counts between one and two code units per character |
| `Text.Utf16LongerThanOne` | global.js:163 | `length > 1` holds exactly for two or more characters or one character outside the Basic Multilingual Plane |
| `Text.TrimStart` | global.js:156 | the result is a suffix of the text that does not start with white space, and everything dropped is white space |
| `Text.TrimEnd` | global.js:156 | the result is a prefix of the text that does not end with white space, and everything dropped is white space |
| `Text.Trim` | global.js:156 | the term has no white space at either end, and it is the typed text with only surrounding white space removed |
| `Text.TrimKeepsCharacters` | global.js:156 | trimming only removes characters, it never introduces one |
| `Text.IndexOfFrom` | global.js:164 | the search finds the first occurrence at or after the start position, or reports that there is none |
| `Text.Contains` | global.js:164 | the empty pattern is always found, and a pattern longer than the text never is |
| `Text.ContainsIff` | global.js:164 | `includes` holds exactly when the pattern occurs somewhere in the text |
| `Text.ReplaceFirst` | global.js:126 | a string-pattern `replace` changes nothing when the pattern is absent; otherwise it replaces the first occurrence and only that, keeping every other character in place |
| `SitemapIndex.LastIndexOf` | global.js:129 | the position returned holds the separator and no later position does; `None` means there is no separator |
| `SitemapIndex.Split` | global.js:129 | `split('/')` yields at least one piece, and no piece contains a separator |
| `SitemapIndex.JoinSplit` | global.js:129 | joining the pieces with `/` gives back the url, which with the previous row determines the split |
| `SitemapIndex.NonEmpty` | global.js:129 | `filter(p => p)` keeps exactly the non-empty pieces and never yields more pieces than it was given |
| `SitemapIndex.NonEmptyAppend` | global.js:129 | the filter distributes over concatenation, so it keeps the pieces in order and the last non-empty piece last |
| `SitemapIndex.Slug` | global.js:129 | a slug, when there is one, is non-empty and holds no `/` |
| `SitemapIndex.SlugIsLastSegment` | global.js:129 | there is no slug exactly when the url is made of `/` only; otherwise the slug is a whole non-empty segment followed only by `/` |
| `SitemapIndex.HyphensToSpaces` | global.js:132 | `replace(/-/g, ' ')` keeps the length, turns every `-` into a space and keeps every other character, so no `-` is left |
| `SitemapIndex.CapitalizeWords` | global.js:132 | `replace(/\b\w/g, …)` keeps the length; `CapitalizeWordsAt` gives each character |
| `SitemapIndex.CapitalizeWordsAt` | global.js:132 | `/\b\w/g` upper-cases a character exactly when it is a word character with no word character before it |
| `SitemapIndex.FormatTitle` | global.js:132 | a title has exactly as many characters as its slug |
| `SitemapIndex.TitleShape` | global.js:132 | a title has its slug's length and contains no `-`; each character is the slug's with `-` made a space, upper-cased where a word starts |
| `SitemapIndex.ToEntry` | global.js:122-135 | a `<loc>` without `/index.html` keeps its url; with one, the url is ten characters shorter; the title is "Home" without a slug and otherwise as long as the slug |
| `SitemapIndex.EntryShape` | global.js:122-135 | the url is the `<loc>` with only its first `/index.html` made `/`; the title is "Home" for a url of separators only, otherwise the formatted last segment |
| `SitemapIndex.BuildIndex` | global.js:122 | the index has one entry per `<loc>`, and entry i is the entry of the i-th `<loc>` |
| `SiteSearch.NormalizeTerm` | global.js:156 | the term is the lower-cased typed text with only white space removed at its edges: no upper-case ASCII letter, no white space at either end |
| `SiteSearch.NormalizeIgnoresCase` | global.js:156 | the normalized term does not depend on the case of the typed text |
| `SiteSearch.Matches` | global.js:164 | every match is an index entry whose lower-cased title contains the term, and every such entry is a match |
| `SiteSearch.MatchesAppend` | global.js:164 | the filter distributes over concatenation, so matches come in index order |
| `SiteSearch.Results` | global.js:163-170 | at most five results; each is an entry whose title contains the term; they are the first min(5, #matches) matches in order; a term of at most one UTF-16 code unit or an empty index gives none |
| `SiteSearch.ResultsNonEmptyIff` | global.js:163-181 | there is something to show exactly when the term is longer than one code unit and some title contains it |
| `SiteSearch.FailedFetchFindsNothing` | global.js:137-170 | after a failed fetch no typed text gives a result |
| `SiteSearch.EmptyTermShowsEveryCard` | global.js:196-197 | the empty term keeps every card visible |
| `SiteSearch.ToolsIndex` | global.js:111-139 | a failed fetch leaves the index empty; a fetched sitemap gives one entry per `<loc>`, in order |
| `SiteSearch.FilterVisiblePage` | global.js:187-200 | every card of every grid present is `flex` when its lower-cased text contains the term, and `none` otherwise |
| `SiteSearch.Dropdown.constructor` | global.js:144-152 | a new dropdown holds the shared index, has no links and no inline display |
| `SiteSearch.Dropdown.AppendLinks` | global.js:170-176 | the links grow by exactly the given entries, in order, and nothing else changes |
| `SiteSearch.Dropdown.Update` | global.js:157-182 | the dropdown lists exactly the results, and is `block` when there are any and `none` otherwise |
| `SiteSearch.SitemapSearch.constructor` | global.js:100 | before the first trigger the guard is off, with no index and no dropdowns |
| `SiteSearch.SitemapSearch.Init` | global.js:100-152 | a call after the first changes nothing; with no search field nothing is indexed; otherwise the index comes from the sitemap (empty on failure) and each field gets a fresh, empty dropdown (`SecondTriggerExample` is a caller that triggers twice and keeps the first, empty index) |
| `SiteSearch.SitemapSearch.OnInput` | global.js:155-183 | a keystroke filters the page's cards and sets the field's dropdown to the results for the normalized term; with no handler attached it changes nothing |
| `SiteSearch.ToolSlugExample` | global.js:129 | the slug of `/a-b-c/` is `a-b-c` |
| `SiteSearch.ToolTitleExample` | global.js:132 | the slug `a-b-c` is titled "A B C" |
| `SiteSearch.ToolEntryExample` | global.js:122-135 | the `<loc>` `/a-b-c/` gives the entry "A B C" at `/a-b-c/` |
| `SiteSearch.HomeEntryExample` | global.js:122-135 | the `<loc>` `/index.html` gives the entry "Home" at `/` |
| `SiteSearch.SmallIndexQueryExample` | global.js:163-170 | over those entries "a b" finds the first only, and "a" finds nothing |
| `SiteSearch.AstralTermExample` | global.js:163-170 | a one-character term outside the Basic Multilingual Plane passes the length guard and finds the entry whose title holds it |
| `PageChrome.MobileMenu.Click` | global.js:33-38 | a click flips `is-active` on the nav and sets `aria-expanded` to the new state |
| `PageChrome.MenuClickTwice` | global.js:33-38 | two clicks restore the menu's state |
| `PageChrome.SearchOverlay.Close` | global.js:92-95 | closing removes `is-active` and sets `aria-expanded` to false |
| `PageChrome.SearchOverlay.Click` | global.js:62-83 | the button toggles the overlay and mirrors the state; a click inside changes nothing; a click elsewhere closes an open overlay and leaves a closed one alone |
| `PageChrome.SearchOverlay.KeyDown` | global.js:86-90 | Escape closes an open overlay; any other key, or Escape on a closed overlay, changes nothing |
| `NegativeMarking.Accuracy` | academic/negative-marking-calculator/tool.js:43-46 | the accuracy is 0 without positive attempts, and otherwise the correct answers as a percentage of the attempts |
| `NegativeMarking.Evaluate` | academic/negative-marking-calculator/tool.js:25-46 | refused exactly when wrong > total; otherwise correct + wrong = total with correct ≥ 0, score = correct·marks − wrong·penalty, accuracy as above |
| `NegativeMarking.EvaluateReadsNumbers` | academic/negative-marking-calculator/tool.js:25-28 | only the numbers the fields read as matter, so an empty or non-numeric field acts as 0 |
| `NegativeMarking.AccuracyInRange` | academic/negative-marking-calculator/tool.js:43-46 | with 0 ≤ wrong ≤ total the accuracy lies in [0, 100] |
| `NegativeMarking.NegativeWrongOverstatesAccuracy` | academic/negative-marking-calculator/tool.js:31-46 | with a positive attempted count, a negative wrong count passes the check and gives an accuracy above 100 |
| `NegativeMarking.AccuracyExamples` | academic/negative-marking-calculator/tool.js:43-46 | no attempts give 0; 7 correct of 10 give 70 |
| `NegativeMarking.OrZero` | academic/negative-marking-calculator/tool.js:25-28 | a field that reads as NaN counts as 0, and a number counts as itself |
| `NegativeMarking.Calculated` | academic/negative-marking-calculator/tool.js:23-62 | a calculation never changes the fields; a refused one changes nothing; an accepted one shows its score and turns auto mode on; coherence is kept |
| `NegativeMarking.AfterReset` | academic/negative-marking-calculator/tool.js:65-74 | a reset ends auto mode, hides the result box and shows the calculate button, keeps the readouts, and restores the first two fields to the form's defaults |
| `NegativeMarking.AfterInput` | academic/negative-marking-calculator/tool.js:85-92 | an edit sets the edited field; auto mode changes only through an accepted recalculation; coherence is kept |
| `NegativeMarking.CalculateRejectedChangesNothing` | academic/negative-marking-calculator/tool.js:31-34 | a refused calculation leaves fields, readouts, visibility and auto mode as they were |
| `NegativeMarking.CalculateAccepted` | academic/negative-marking-calculator/tool.js:48-61 | an accepted calculation shows the score, shows the result box, turns auto mode on and, from a coherent state, leaves the button hidden |
| `NegativeMarking.InputOutsideAutoMode` | academic/negative-marking-calculator/tool.js:85-92 | outside auto mode an edit changes the field and nothing else |
| `NegativeMarking.InputInAutoMode` | academic/negative-marking-calculator/tool.js:85-92 | in auto mode an edit recalculates: an accepted result is shown, a refused one leaves the display unchanged |
| `NegativeMarking.ResetIdempotent` | academic/negative-marking-calculator/tool.js:65-74 | a second reset changes nothing; a reset ends auto mode, hides the result box, shows the button, leaves a coherent state, and sets the coefficients to 4 and 1 |
| `NegativeMarking.CoherentPreserved` | academic/negative-marking-calculator/tool.js:55-74 | calculation, edits and reset keep "auto mode ⇒ result box shown ⇒ button hidden" |
| `NegativeMarking.Calculator.constructor` | academic/negative-marking-calculator/tool.js:4-20 | the widget starts with auto mode off and the markup's fields and readouts |
| `NegativeMarking.Calculator.Calculate` | academic/negative-marking-calculator/tool.js:23-62 | the step-by-step handler ends in the state `Calculated` gives |
| `NegativeMarking.Calculator.Reset` | academic/negative-marking-calculator/tool.js:65-74 | the reset handler ends in the state `AfterReset` gives |
| `NegativeMarking.Calculator.OnInput` | academic/negative-marking-calculator/tool.js:85-92 | an edit ends in the state `AfterInput` gives |

## Left out

- The fetch of `/sitemap.xml`, `DOMParser` and `querySelectorAll("loc")` (global.js:113-119) are
  network I/O and a foreign parser. Their outcome is a parameter: the `<loc>` texts, or a failure.
  The warning on the console (global.js:138) is not modelled.
- `SiteSearch.SitemapSearch.Init` runs atomically. The real function awaits the fetch after
  setting its guard. Keystrokes that arrive before the handlers are attached are not modelled.
  They do nothing in the page either, and repeated triggers return at once in both.
- Building the dropdown elements, `getComputedStyle` positioning, `appendChild`, and the link
  markup with its icon (global.js:144-152, 171-175) are not modelled. A dropdown is its list of
  entries and its display.
- Listener registration, `{ once: true }` and `DOMContentLoaded` are not modelled. The handlers
  are methods called directly. The delayed focus of the overlay's input (global.js:69-72) is not
  modelled either.
- The hamburger icon's transforms and opacity (global.js:40-49) are purely visual and not modelled.
- The early returns when the menu, overlay or a grid is missing (global.js:31, 59, 192) are not
  modelled as branches. The classes model a page that has the elements. A missing grid is simply
  absent from the list `FilterVisiblePage` receives.
- `Text.Lower`: only ASCII letters are lower-cased; the full Unicode case mapping of
  `toLowerCase` is not modelled.
- `NegativeMarking.Evaluate`: numbers are exact reals. IEEE rounding, `parseFloat`'s
  prefix parsing (a `Reading` is its result) and the `toFixed(2)`/`toFixed(1)` formatting of the
  readouts (tool.js:49-52) are not modelled.
- The `alert` on a refused calculation (tool.js:32) is not modelled.
- What `form.reset()` restores (tool.js:66) depends on markup that is not part of this model. It
  is a parameter of `Reset`.
