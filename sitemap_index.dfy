/** How one `<loc>` text of the sitemap becomes a search entry `{title, url}`: the first
    `/index.html` is replaced by `/`, the last non-empty `/`-separated segment is the slug, and
    the title is the slug with hyphens turned into spaces and every word's first character
    upper-cased, or "Home" when there is no slug. */
module SitemapIndex {
  import opened Text

  datatype Entry = Entry(title: string, url: string)

  /** The position of the last `c` in `s`, if any. */
  function LastIndexOf(s: string, c: char): (r: Option<nat>)
    ensures r.Some? ==> r.value < |s| && s[r.value] == c
    ensures r.Some? ==> forall k :: r.value < k < |s| ==> s[k] != c
    ensures r.None? ==> forall k :: 0 <= k < |s| ==> s[k] != c
  {
    if s == [] then None
    else if s[|s| - 1] == c then Some(|s| - 1)
    else LastIndexOf(s[..|s| - 1], c)
  }

  /** `s.split('/')`: the pieces between separators, empty ones included. */
  function Split(s: string): (parts: seq<string>)
    ensures |parts| >= 1
    ensures forall p :: p in parts ==> '/' !in p
  {
    match LastIndexOf(s, '/')
    case None => [s]
    case Some(k) => Split(s[..k]) + [s[k + 1..]]
  }

  /** `parts.join('/')`, the inverse of `Split`. */
  function Join(parts: seq<string>): string
    requires |parts| >= 1
  {
    if |parts| == 1 then parts[0] else Join(parts[..|parts| - 1]) + "/" + parts[|parts| - 1]
  }

  /** Joining the pieces gives back the string, so together with "no piece holds a `/`" this
      determines `Split` completely. */
  lemma {:induction false} JoinSplit(s: string)
    ensures Join(Split(s)) == s
  {
    match LastIndexOf(s, '/')
    case None =>
    case Some(k) =>
      JoinSplit(s[..k]);
      var parts := Split(s[..k]) + [s[k + 1..]];
      assert parts[..|parts| - 1] == Split(s[..k]);
      assert s == s[..k] + "/" + s[k + 1..];
  }

  /** `parts.filter(p => p)`: the non-empty pieces, in order. */
  function NonEmpty(parts: seq<string>): (r: seq<string>)
    ensures |r| <= |parts|
    ensures forall p :: p in r <==> p in parts && p != []
  {
    if parts == [] then []
    else
      var init, last := parts[..|parts| - 1], parts[|parts| - 1];
      assert parts == init + [last];
      NonEmpty(init) + (if last != [] then [last] else [])
  }

  /** The filter keeps the pieces' order: it distributes over concatenation, so the last
      non-empty piece of the url is the last element of the result. */
  lemma {:induction false} NonEmptyAppend(a: seq<string>, b: seq<string>)
    ensures NonEmpty(a + b) == NonEmpty(a) + NonEmpty(b)
  {
    if b == [] {
      assert a + b == a;
    } else {
      var init, last := b[..|b| - 1], b[|b| - 1];
      assert (a + b)[..|a + b| - 1] == a + init;
      NonEmptyAppend(a, init);
    }
  }

  /** `url.split('/').filter(p => p).pop()`: `None` stands for `undefined`. */
  function Slug(url: string): (r: Option<string>)
    ensures r.Some? ==> r.value != [] && '/' !in r.value
  {
    var segments := NonEmpty(Split(url));
    if segments == [] then None
    else
      assert segments[|segments| - 1] in segments;
      Some(segments[|segments| - 1])
  }

  /** `url[i..j]` is a whole non-empty segment followed only by separators. */
  ghost predicate LastSegmentAt(url: string, i: int, j: int) {
    0 <= i < j <= |url|
    && (i == 0 || url[i - 1] == '/')
    && (forall k :: i <= k < j ==> url[k] != '/')
    && (forall k :: j <= k < |url| ==> url[k] == '/')
  }

  ghost predicate IsLastSegment(url: string, slug: string) {
    exists i, j :: LastSegmentAt(url, i, j) && slug == url[i..j]
  }

  /** Unfolds `Slug` at the last separator of the url. */
  lemma SlugAtLastSeparator(url: string, k: nat)
    requires LastIndexOf(url, '/') == Some(k)
    ensures Slug(url) == if url[k + 1..] != [] then Some(url[k + 1..]) else Slug(url[..k])
  {
    var head, tail := url[..k], url[k + 1..];
    var parts := Split(head) + [tail];
    assert Split(url) == parts;
    assert parts[..|parts| - 1] == Split(head);
    if tail != [] {
      assert NonEmpty(parts) == NonEmpty(Split(head)) + [tail];
    } else {
      assert NonEmpty(parts) == NonEmpty(Split(head));
    }
  }

  /** A url without separators is its own slug, unless it is empty. */
  lemma SlugWithoutSeparator(url: string)
    requires LastIndexOf(url, '/') == None
    ensures Slug(url) == if url != [] then Some(url) else None
  {
    assert Split(url) == [url];
    assert NonEmpty([url]) == NonEmpty([]) + (if url != [] then [url] else []);
  }

  /** The slug of a url without separators. */
  lemma SlugCaseNoSeparator(url: string)
    requires LastIndexOf(url, '/') == None
    ensures Slug(url).None? <==> forall k :: 0 <= k < |url| ==> url[k] == '/'
    ensures Slug(url).Some? ==> IsLastSegment(url, Slug(url).value)
  {
    SlugWithoutSeparator(url);
    if url != [] {
      assert LastSegmentAt(url, 0, |url|) && url == url[0..|url|];
      assert url[0] != '/';
    }
  }

  /** The slug of a url that does not end with its last separator. */
  lemma SlugCaseLastSegment(url: string, k: nat)
    requires LastIndexOf(url, '/') == Some(k) && k + 1 < |url|
    ensures Slug(url) == Some(url[k + 1..])
    ensures IsLastSegment(url, url[k + 1..])
    ensures url[|url| - 1] != '/'
  {
    SlugAtLastSeparator(url, k);
    assert LastSegmentAt(url, k + 1, |url|) && url[k + 1..] == url[k + 1..|url|];
  }

  /** A last segment stays the last one when a separator is appended. */
  lemma LastSegmentAtExtended(head: string, i: int, j: int)
    requires LastSegmentAt(head, i, j)
    ensures LastSegmentAt(head + "/", i, j) && (head + "/")[i..j] == head[i..j]
  {
    var url := head + "/";
    forall m | i <= m < j ensures url[m] != '/' {
      assert url[m] == head[m];
    }
    forall m | j <= m < |url| ensures url[m] == '/' {
      if m < |head| { assert url[m] == head[m]; }
    }
    if i > 0 { assert url[i - 1] == head[i - 1]; }
  }

  /** Appending a separator keeps the answer of the previous lemma about the url before it. */
  lemma TrailingSeparatorKeepsSlug(head: string, slug: Option<string>)
    requires slug.None? <==> forall m :: 0 <= m < |head| ==> head[m] == '/'
    requires slug.Some? ==> IsLastSegment(head, slug.value)
    ensures slug.None? <==> forall m :: 0 <= m < |head + "/"| ==> (head + "/")[m] == '/'
    ensures slug.Some? ==> IsLastSegment(head + "/", slug.value)
  {
    var url := head + "/";
    if slug.Some? {
      var i, j :| LastSegmentAt(head, i, j) && slug.value == head[i..j];
      LastSegmentAtExtended(head, i, j);
      assert url[i] == head[i] && head[i] != '/';
    } else {
      forall m | 0 <= m < |url| ensures url[m] == '/' {
        if m < |head| { assert url[m] == head[m]; }
      }
    }
  }

  /** There is no slug exactly when the url is made of separators only; otherwise the slug is
      the last non-empty segment of the url. */
  lemma {:induction false} SlugIsLastSegment(url: string)
    ensures Slug(url).None? <==> forall k :: 0 <= k < |url| ==> url[k] == '/'
    ensures Slug(url).Some? ==> IsLastSegment(url, Slug(url).value)
  {
    match LastIndexOf(url, '/')
    case None =>
      SlugCaseNoSeparator(url);
    case Some(k) =>
      if k + 1 < |url| {
        SlugCaseLastSegment(url, k);
      } else {
        SlugAtLastSeparator(url, k);
        SlugIsLastSegment(url[..k]);
        assert url == url[..k] + "/";
        TrailingSeparatorKeepsSlug(url[..k], Slug(url[..k]));
      }
  }

  /** `s.replace(/-/g, ' ')`. */
  function HyphensToSpaces(s: string): (r: string)
    ensures |r| == |s| && '-' !in r
    ensures forall i :: 0 <= i < |s| ==> r[i] == (if s[i] == '-' then ' ' else s[i])
  {
    seq(|s|, i requires 0 <= i < |s| => if s[i] == '-' then ' ' else s[i])
  }

  /** `s.replace(/\b\w/g, l => l.toUpperCase())`, scanning left to right; `afterWord` tells
      whether the character before `s` is a word character. */
  function CapitalizeWords(s: string, afterWord: bool): (r: string)
    ensures |r| == |s|
  {
    if s == [] then []
    else
      [if IsWordChar(s[0]) && !afterWord then UpperChar(s[0]) else s[0]]
      + CapitalizeWords(s[1..], IsWordChar(s[0]))
  }

  /** Position `i` of `s` is where `\b\w` matches: a word character with no word character before it. */
  predicate StartsWord(s: string, i: nat)
    requires i < |s|
  {
    IsWordChar(s[i]) && (i == 0 || !IsWordChar(s[i - 1]))
  }

  lemma {:induction false} CapitalizeWordsAt(s: string, afterWord: bool, i: nat)
    requires i < |s|
    ensures |CapitalizeWords(s, afterWord)| == |s|
    ensures CapitalizeWords(s, afterWord)[i] ==
      if IsWordChar(s[i]) && (if i == 0 then !afterWord else !IsWordChar(s[i - 1]))
      then UpperChar(s[i]) else s[i]
  {
    if i == 0 {
      if |s| > 1 { CapitalizeWordsAt(s[1..], IsWordChar(s[0]), 0); }
    } else {
      CapitalizeWordsAt(s[1..], IsWordChar(s[0]), i - 1);
    }
  }

  /** The title of a slug, character for character. */
  function FormatTitle(slug: string): (t: string)
    ensures |t| == |slug|
  {
    CapitalizeWords(HyphensToSpaces(slug), false)
  }

  /** The title has the slug's length and no hyphen; each of its characters is the slug's
      character with `-` turned into a space, upper-cased where it starts a word. */
  lemma TitleShape(slug: string)
    ensures |FormatTitle(slug)| == |slug|
    ensures '-' !in FormatTitle(slug)
    ensures forall i :: 0 <= i < |slug| ==>
      FormatTitle(slug)[i] ==
        var spaced := HyphensToSpaces(slug);
        if StartsWord(spaced, i) then UpperChar(spaced[i]) else spaced[i]
  {
    var spaced := HyphensToSpaces(slug);
    if slug == [] {
      assert FormatTitle(slug) == [];
    } else {
      CapitalizeWordsAt(spaced, false, 0);
    }
    forall i | 0 <= i < |slug|
      ensures FormatTitle(slug)[i] == if StartsWord(spaced, i) then UpperChar(spaced[i]) else spaced[i]
    {
      CapitalizeWordsAt(spaced, false, i);
    }
  }

  const IndexPage: string := "/index.html"

  /** The entry built from one `<loc>` text. */
  function ToEntry(loc: string): (e: Entry)
    ensures (forall i :: !OccursAt(loc, IndexPage, i)) ==> e.url == loc
    ensures (exists i :: OccursAt(loc, IndexPage, i)) ==> |e.url| == |loc| - |IndexPage| + 1
    ensures Slug(e.url).None? ==> e.title == "Home"
    ensures Slug(e.url).Some? ==> |e.title| == |Slug(e.url).value|
  {
    var url := ReplaceFirst(loc, IndexPage, "/");
    var title := match Slug(url) case None => "Home" case Some(slug) => FormatTitle(slug);
    Entry(title, url)
  }

  /** The url is the `<loc>` text with only its first `/index.html` replaced by `/`. The title is
      "Home" when the url holds no segment, and otherwise the formatted last segment. */
  lemma EntryShape(loc: string)
    ensures (forall i :: !OccursAt(loc, IndexPage, i)) ==> ToEntry(loc).url == loc
    ensures forall i :: FirstOccurrence(loc, IndexPage, i) ==>
      ToEntry(loc).url == loc[..i] + "/" + loc[i + |IndexPage|..]
    ensures var url := ToEntry(loc).url;
      (forall k :: 0 <= k < |url| ==> url[k] == '/') ==> ToEntry(loc).title == "Home"
    ensures var url := ToEntry(loc).url;
      (exists k :: 0 <= k < |url| && url[k] != '/') ==>
        exists slug :: IsLastSegment(url, slug) && ToEntry(loc).title == FormatTitle(slug)
  {
    var url := ToEntry(loc).url;
    SlugIsLastSegment(url);
    forall i | FirstOccurrence(loc, IndexPage, i)
      ensures url == loc[..i] + "/" + loc[i + |IndexPage|..]
    {
      assert url == url[..i] + url[i..i + 1] + url[i + 1..];
    }
  }

  /** The index: one entry per `<loc>`, in document order. */
  function BuildIndex(locs: seq<string>): (index: seq<Entry>)
    ensures |index| == |locs|
    ensures forall i :: 0 <= i < |locs| ==> index[i] == ToEntry(locs[i])
  {
    seq(|locs|, i requires 0 <= i < |locs| => ToEntry(locs[i]))
  }
}
