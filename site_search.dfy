/** The lazily built site search: a one-shot initialisation that turns the sitemap into an
    index and gives every search field its own dropdown, the dropdown's contents for a typed
    term, and the filter that shows or hides the cards already on the page. */
module SiteSearch {
  import opened Text
  import opened Dom
  import opened SitemapIndex

  /** The most results a dropdown shows. */
  const MaxResults: nat := 5

  /** The handler's term: `value.toLowerCase().trim()`. It holds no upper-case ASCII letter and
      no white space at either end. */
  function NormalizeTerm(value: string): (term: string)
    ensures |term| <= |value|
    ensures term == [] || (!IsSpace(term[0]) && !IsSpace(term[|term| - 1]))
    ensures forall c :: c in term ==> !('A' <= c <= 'Z')
    ensures exists i :: TrimmedAt(Lower(value), term, i)
  {
    TrimKeepsCharacters(Lower(value));
    Trim(Lower(value))
  }

  /** The term does not depend on the case of the typed text. */
  lemma NormalizeIgnoresCase(value: string)
    ensures NormalizeTerm(Lower(value)) == NormalizeTerm(value)
  {
    LowerIdempotent(value);
  }

  predicate TitleMatches(e: Entry, term: string) {
    Contains(Lower(e.title), term)
  }

  /** `index.filter(tool => tool.title.toLowerCase().includes(term))`. */
  function Matches(index: seq<Entry>, term: string): (r: seq<Entry>)
    ensures |r| <= |index|
    ensures forall e :: e in r ==> e in index && TitleMatches(e, term)
    ensures forall e :: e in index && TitleMatches(e, term) ==> e in r
  {
    if index == [] then []
    else (if TitleMatches(index[0], term) then [index[0]] else []) + Matches(index[1..], term)
  }

  /** The filter keeps index order: it distributes over concatenation. */
  lemma {:induction false} MatchesAppend(a: seq<Entry>, b: seq<Entry>, term: string)
    ensures Matches(a + b, term) == Matches(a, term) + Matches(b, term)
  {
    if a == [] {
      assert a + b == b;
    } else {
      assert (a + b)[1..] == a[1..] + b;
      MatchesAppend(a[1..], b, term);
    }
  }

  /** What the dropdown lists for a normalized term: nothing for a term of fewer than two
      UTF-16 code units or an empty index, otherwise `matches.slice(0, 5)`. */
  function Results(index: seq<Entry>, term: string): (r: seq<Entry>)
    ensures |r| <= MaxResults
    ensures forall e :: e in r ==> e in index && TitleMatches(e, term)
    ensures |r| <= |Matches(index, term)| && r == Matches(index, term)[..|r|]
    ensures Utf16Length(term) > 1 && |index| > 0 ==>
      |r| == if |Matches(index, term)| < MaxResults then |Matches(index, term)| else MaxResults
    ensures Utf16Length(term) <= 1 || index == [] ==> r == []
  {
    if Utf16Length(term) > 1 && |index| > 0 then
      var matches := Matches(index, term);
      if |matches| <= MaxResults then matches else matches[..MaxResults]
    else []
  }

  /** The dropdown has something to show exactly when the term is longer than one code unit and
      some entry's title contains it. */
  lemma ResultsNonEmptyIff(index: seq<Entry>, term: string)
    ensures |Results(index, term)| > 0 <==>
      Utf16Length(term) > 1 && exists e :: e in index && TitleMatches(e, term)
  {
    if Utf16Length(term) > 1 && exists e :: e in index && TitleMatches(e, term) {
      var e :| e in index && TitleMatches(e, term);
      assert e in Matches(index, term);
      assert |index| > 0 && |Matches(index, term)| > 0;
    }
    if |Results(index, term)| > 0 {
      assert Results(index, term)[0] in Results(index, term);
    }
  }


  /** A card stays visible when its lower-cased text contains the term. */
  predicate CardShown(text: string, term: string) {
    Contains(Lower(text), term)
  }

  /** An empty term shows every card. */
  lemma EmptyTermShowsEveryCard(text: string)
    ensures CardShown(text, [])
  {
    assert OccursAt(Lower(text), [], 0);
  }

  /** The sitemap as delivered to the indexer: the text of every `<loc>` node, or a failure of
      the fetch (a rejected request or a response that is not ok). */
  datatype Sitemap = Fetched(locs: seq<string>) | FetchFailed

  /** `toolsIndex` after the try/catch: the entries, or empty when the fetch failed. */
  function ToolsIndex(sitemap: Sitemap): (index: seq<Entry>)
    ensures sitemap.FetchFailed? ==> index == []
    ensures sitemap.Fetched? ==> |index| == |sitemap.locs|
    ensures sitemap.Fetched? ==> forall i :: 0 <= i < |index| ==> index[i] == ToEntry(sitemap.locs[i])
  {
    match sitemap
    case Fetched(locs) => BuildIndex(locs)
    case FetchFailed => []
  }

  /** After a failed fetch the dropdown stays empty whatever is typed. */
  lemma FailedFetchFindsNothing(value: string)
    ensures Results(ToolsIndex(FetchFailed), NormalizeTerm(value)) == []
  {
  }

  /** A card of one of the page's grids. */
  class Card {
    const text: string
    var display: Display

    constructor (text: string)
      ensures this.text == text && display == Unset
    {
      this.text := text;
      display := Unset;
    }
  }

  /** `filterVisiblePage`: every card of every grid found on the page is shown (`flex`) when its
      text contains the term and hidden otherwise; `grids` lists the cards of the grids that
      exist, in the order of the grid ids. */
  method FilterVisiblePage(grids: seq<seq<Card>>, term: string)
    modifies set g, c | g in grids && c in g :: c
    ensures forall g, c :: g in grids && c in g ==>
      c.display == if CardShown(c.text, term) then Flex else Hidden
  {
    for i := 0 to |grids|
      invariant forall g, c :: g in grids[..i] && c in g ==>
        c.display == if CardShown(c.text, term) then Flex else Hidden
    {
      var cards := grids[i];
      for j := 0 to |cards|
        invariant forall g, c :: g in grids[..i] && c in g ==>
          c.display == if CardShown(c.text, term) then Flex else Hidden
        invariant forall c :: c in cards[..j] ==>
          c.display == if CardShown(c.text, term) then Flex else Hidden
      {
        var card := cards[j];
        assert cards in grids && card in cards;
        card.display := if CardShown(card.text, term) then Flex else Hidden;
      }
      assert cards[..|cards|] == cards;
      assert grids[..i + 1] == grids[..i] + [cards];
    }
    assert grids[..|grids|] == grids;
  }

  /** The results dropdown of one search field. */
  class Dropdown {
    /** The index the field's input handler captured. */
    const index: seq<Entry>
    var display: Display
    /** The result links, in the order they were appended. */
    var links: seq<Entry>

    constructor (index: seq<Entry>)
      ensures this.index == index && display == Unset && links == []
    {
      this.index := index;
      display := Unset;
      links := [];
    }

    /** `entries.forEach(tool => resultsContainer.appendChild(link))`: one link per entry, in order. */
    method AppendLinks(entries: seq<Entry>)
      modifies this`links
      ensures links == old(links) + entries
    {
      for k := 0 to |entries|
        invariant links == old(links) + entries[..k]
      {
        links := links + [entries[k]];
      }
    }

    /** The dropdown part of the input handler, for a normalized term: it is emptied, then
        lists the results and is shown when there are any, and is hidden otherwise. */
    method Update(term: string)
      modifies this
      ensures links == Results(index, term)
      ensures display == if links != [] then Block else Hidden
    {
      links := [];
      if Utf16Length(term) > 1 && |index| > 0 {
        var matches := Matches(index, term);
        if |matches| > 0 {
          display := Block;
          var top := if |matches| <= MaxResults then matches else matches[..MaxResults];
          AppendLinks(top);
        } else {
          display := Hidden;
        }
      } else {
        display := Hidden;
      }
    }
  }

  /** The search of one page: the one-shot guard, the index and one dropdown per search field. */
  class SitemapSearch {
    var initialized: bool
    var index: seq<Entry>
    var dropdowns: seq<Dropdown>

    ghost predicate Valid()
      reads this
    {
      (!initialized ==> index == [] && dropdowns == [])
      && (forall d :: d in dropdowns ==> d.index == index)
      && (forall i, j :: 0 <= i < j < |dropdowns| ==> dropdowns[i] != dropdowns[j])
    }

    constructor ()
      ensures Valid() && !initialized
    {
      initialized := false;
      index := [];
      dropdowns := [];
    }

    /** `initSitemapSearch`, fired by the first focus or hover on a search field; `fieldCount` is
        the number of search fields on the page. Only the first call does anything; with no
        search field nothing is fetched; otherwise the index comes from the sitemap (empty when
        the fetch failed) and each field gets a fresh, empty dropdown. */
    method Init(fieldCount: nat, sitemap: Sitemap)
      requires Valid()
      modifies this
      ensures Valid() && initialized
      ensures old(initialized) ==> index == old(index) && dropdowns == old(dropdowns)
      ensures !old(initialized) && fieldCount == 0 ==> index == [] && dropdowns == []
      ensures !old(initialized) && fieldCount > 0 ==>
        index == ToolsIndex(sitemap) && |dropdowns| == fieldCount
        && forall d :: d in dropdowns ==> fresh(d) && d.display == Unset && d.links == []
    {
      if initialized {
        return;
      }
      initialized := true;
      if fieldCount == 0 {
        return;
      }
      var toolsIndex := ToolsIndex(sitemap);
      var created: seq<Dropdown> := [];
      for k := 0 to fieldCount
        invariant initialized
        invariant |created| == k
        invariant forall d :: d in created ==>
          fresh(d) && d.index == toolsIndex && d.display == Unset && d.links == []
        invariant forall i, j :: 0 <= i < j < |created| ==> created[i] != created[j]
      {
        var d := new Dropdown(toolsIndex);
        created := created + [d];
      }
      index := toolsIndex;
      dropdowns := created;
    }

    /** An `input` event on search field `k` with text `value`, and `grids` the cards on the
        page. Before initialisation no handler is attached and nothing happens; afterwards the
        cards are filtered by the normalized term and the field's dropdown shows the results. */
    method OnInput(k: nat, value: string, grids: seq<seq<Card>>)
      requires Valid()
      modifies if k < |dropdowns| then {dropdowns[k]} else {}
      modifies set g, c | g in grids && c in g :: c
      ensures Valid()
      ensures k < |dropdowns| ==>
        dropdowns[k].links == Results(index, NormalizeTerm(value))
        && dropdowns[k].display == (if dropdowns[k].links != [] then Block else Hidden)
      ensures k < |dropdowns| ==> forall g, c :: g in grids && c in g ==>
        c.display == if CardShown(c.text, NormalizeTerm(value)) then Flex else Hidden
      ensures k >= |dropdowns| ==> forall g, c :: g in grids && c in g ==> c.display == old(c.display)
    {
      if k < |dropdowns| {
        var term := NormalizeTerm(value);
        var dropdown := dropdowns[k];
        dropdown.links := [];
        FilterVisiblePage(grids, term);
        dropdown.Update(term);
      }
    }
  }

  /** The only separator of `/a-b-c` is the first character. */
  lemma ToolSeparatorExample()
    ensures LastIndexOf("/a-b-c", '/') == Some(0)
  {
    assert LastIndexOf("/", '/') == Some(0);
    assert "/a"[..1] == "/";
    assert LastIndexOf("/a", '/') == Some(0);
    assert "/a-"[..2] == "/a";
    assert LastIndexOf("/a-", '/') == Some(0);
    assert "/a-b"[..3] == "/a-";
    assert LastIndexOf("/a-b", '/') == Some(0);
    assert "/a-b-"[..4] == "/a-b";
    assert LastIndexOf("/a-b-", '/') == Some(0);
    assert "/a-b-c"[..5] == "/a-b-";
  }

  /** The slug of `/a-b-c/` is `a-b-c`. */
  lemma ToolSlugExample()
    ensures Slug("/a-b-c/") == Some("a-b-c")
  {
    var url := "/a-b-c/";
    assert LastIndexOf(url, '/') == Some(6);
    SlugAtLastSeparator(url, 6);
    assert url[..6] == "/a-b-c";
    ToolSeparatorExample();
    SlugAtLastSeparator("/a-b-c", 0);
  }

  /** The slug `a-b-c` is titled "A B C". */
  lemma ToolTitleExample()
    ensures FormatTitle("a-b-c") == "A B C"
  {
    assert HyphensToSpaces("a-b-c") == "a b c";
    assert CapitalizeWords("c", false) == "C";
    assert CapitalizeWords(" c", true) == " C";
    assert CapitalizeWords("b c", false) == "B C";
    assert CapitalizeWords(" b c", true) == " B C";
    assert CapitalizeWords("a b c", false) == "A B C";
  }

  /** The sitemap entry of `/a-b-c/` is titled "A B C" and keeps its url. */
  lemma ToolEntryExample()
    ensures ToEntry("/a-b-c/") == Entry("A B C", "/a-b-c/")
  {
    assert IndexOf("/a-b-c/", IndexPage) == None;
    ToolSlugExample();
    ToolTitleExample();
  }

  /** The sitemap entry of `/index.html` is the home page `/`. */
  lemma HomeEntryExample()
    ensures ToEntry("/index.html") == Entry("Home", "/")
  {
    var loc := "/index.html";
    assert OccursAt(loc, IndexPage, 0);
    assert FirstOccurrence(loc, IndexPage, 0);
    assert ReplaceFirst(loc, IndexPage, "/") == "/";
    assert LastIndexOf("/", '/') == Some(0);
    SlugAtLastSeparator("/", 0);
    SlugWithoutSeparator("");
  }

  /** Over those two entries the term "a b" finds the first only, and a one-character term
      finds nothing. */
  lemma SmallIndexQueryExample()
    ensures Results([Entry("A B C", "/a-b-c/"), Entry("Home", "/")], "a b") == [Entry("A B C", "/a-b-c/")]
    ensures Results([Entry("A B C", "/a-b-c/"), Entry("Home", "/")], "a") == []
  {
    var tool, home := Entry("A B C", "/a-b-c/"), Entry("Home", "/");
    assert Lower(tool.title) == "a b c";
    assert OccursAt("a b c", "a b", 0);
    assert TitleMatches(tool, "a b");
    assert Lower(home.title) == "home";
    assert !TitleMatches(home, "a b") by {
      forall i ensures !OccursAt("home", "a b", i) {
        if 0 <= i <= 1 { assert "home"[i] != 'a'; }
      }
    }
    assert [tool, home][1..] == [home];
    assert Matches([home], "a b") == [];
    assert Matches([tool, home], "a b") == [tool];
  }

  /** A single character outside the Basic Multilingual Plane is two code units long, so it is
      long enough to search with. */
  lemma AstralTermExample()
    ensures Results([Entry("\U{1F600} X", "/x/")], "\U{1F600}") == [Entry("\U{1F600} X", "/x/")]
  {
    var e, term := Entry("\U{1F600} X", "/x/"), "\U{1F600}";
    Utf16LongerThanOne(term);
    assert Lower(e.title) == "\U{1F600} x";
    assert OccursAt(Lower(e.title), term, 0);
    assert TitleMatches(e, term);
    assert [e][1..] == [];
  }

  /** A second trigger does not index again, even when the sitemap would now be available. */
  method SecondTriggerExample(locs: seq<string>) {
    var search := new SitemapSearch();
    search.Init(2, FetchFailed);
    search.Init(2, Fetched(locs));
    assert search.index == [];
  }
}
