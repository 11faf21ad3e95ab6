/** The response-processing half of the web search helper: the blank-query guard and the
    provider preference of `search_web`, the flattening of DuckDuckGo related topics, and the
    URL de-duplication with its limit. The HTTP requests themselves are not modelled: what a
    provider returned is a parameter. */
module WebSearch {

  import opened PyCore
  import opened PyStrings

  /** One normalised search hit. */
  datatype SearchResult = SearchResult(title: string, url: string, snippet: string, provider: string)

  const DuckDuckGo: string := "duckduckgo"

  /** `str.strip()` leaves nothing to strip. */
  predicate Stripped(s: string) {
    s == [] || (!IsSpace(s[0]) && !IsSpace(s[|s| - 1]))
  }

  /** What every DuckDuckGo hit satisfies. */
  predicate WellFormedHit(r: SearchResult) {
    r.provider == DuckDuckGo && r.url != [] && Stripped(r.title) && Stripped(r.snippet)
  }

  // ---------------------------------------------------------------- search_web

  /** `search_web`: nothing for a blank query; otherwise the SerpAPI hits when a key is
      configured and they are not empty, else the DuckDuckGo hits. `serpapi` and `duckduckgo`
      are what the two providers returned for the query. */
  function SearchWeb(query: string, hasSerpapiKey: bool, serpapi: seq<SearchResult>, duckduckgo: seq<SearchResult>)
    : (r: seq<SearchResult>)
    ensures Strip(query) == [] ==> r == []
    ensures Strip(query) != [] ==> r == (if hasSerpapiKey && serpapi != [] then serpapi else duckduckgo)
  {
    if query == [] || Strip(query) == [] then []
    else if hasSerpapiKey && serpapi != [] then serpapi
    else duckduckgo
  }

  /** A query of spaces alone never reaches a provider. */
  lemma BlankQueryFindsNothing(serpapi: seq<SearchResult>, duckduckgo: seq<SearchResult>)
    ensures SearchWeb("  \t", true, serpapi, duckduckgo) == []
  {
  }

  // ---------------------------------------------------------------- related topics

  /** When the fields a leaf entry reads are truthy, they are strings. */
  predicate StringField(entry: map<string, Value>, key: string) {
    key in entry && IsTruthy(entry[key]) ==> entry[key].Str?
  }

  predicate LeafStrings(entry: map<string, Value>) {
    StringField(entry, "FirstURL") && StringField(entry, "Text") && StringField(entry, "Result")
  }

  /** How many more levels of nesting are followed below `depth`. */
  function Budget(depth: nat): nat {
    if depth < 3 then 3 - depth else 0
  }

  /** The leaves reached from `topics` read string fields. */
  predicate TopicStrings(topics: Value, depth: nat)
    decreases Budget(depth), 2, 0
  {
    topics.List? ==> EntriesStrings(topics.items, depth)
  }

  predicate EntriesStrings(items: seq<Value>, depth: nat)
    decreases Budget(depth), 1, |items|
  {
    forall k :: 0 <= k < |items| ==> EntryStrings(items[k], depth)
  }

  predicate EntryStrings(entry: Value, depth: nat)
    decreases Budget(depth), 0, 0
  {
    entry.Dict? ==>
      var nested := Get(entry.entries, "Topics", PyNone);
      if IsTruthy(nested) && depth < 3 then TopicStrings(nested, depth + 1) else LeafStrings(entry.entries)
  }

  /** The hit a leaf entry yields: none without a truthy `FirstURL` and `Text`; otherwise the
      title is `Result` when truthy, else the text before the first " - ". */
  function Leaf(entry: map<string, Value>): (r: Option<SearchResult>)
    requires LeafStrings(entry)
    ensures r.None? <==> !IsTruthy(Get(entry, "FirstURL", PyNone)) || !IsTruthy(Get(entry, "Text", PyNone))
    ensures r.Some? ==> WellFormedHit(r.value)
    ensures r.Some? ==> r.value.url == entry["FirstURL"].s && r.value.snippet == Strip(entry["Text"].s)
  {
    var firstUrl := Get(entry, "FirstURL", PyNone);
    var text := Get(entry, "Text", PyNone);
    if !IsTruthy(firstUrl) || !IsTruthy(text) then None
    else
      var result := Get(entry, "Result", PyNone);
      var title := if IsTruthy(result) then result.s else BeforeFirst(text.s, " - ");
      Some(SearchResult(Strip(title), firstUrl.s, Strip(text.s), DuckDuckGo))
  }

  /** Run one walk after another: the first exception wins, else the hits are concatenated. */
  function Then(first: Result<seq<SearchResult>>, second: Result<seq<SearchResult>>): (r: Result<seq<SearchResult>>)
    ensures r.Ok? <==> first.Ok? && second.Ok?
    ensures r.Ok? ==> r.value == first.value + second.value
    ensures first.Raised? ==> r == first
  {
    if first.Raised? then first
    else if second.Raised? then second
    else Ok(first.value + second.value)
  }

  lemma ThenAssociative(a: Result<seq<SearchResult>>, b: Result<seq<SearchResult>>, c: Result<seq<SearchResult>>)
    ensures Then(Then(a, b), c) == Then(a, Then(b, c))
  {
    if a.Ok? && b.Ok? && c.Ok? {
      assert a.value + b.value + c.value == a.value + (b.value + c.value);
    }
  }

  /** `_extract_duckduckgo_topics(topics, depth)`: iterating a string or a dictionary yields
      strings, none of them a dictionary, and anything else that is not a list cannot be
      iterated. */
  function TopicsOf(topics: Value, depth: nat): (r: Result<seq<SearchResult>>)
    requires TopicStrings(topics, depth)
    ensures r.Raised? ==> r.error == TypeError
    ensures r.Ok? ==> forall k :: 0 <= k < |r.value| ==> WellFormedHit(r.value[k])
    decreases Budget(depth), 2, 0
  {
    match topics
    case List(items) => ItemsTopics(items, depth)
    case Str(_) => Ok([])
    case Dict(_) => Ok([])
    case _ => Raised(TypeError)
  }

  /** The hits of the entries of a list, in order; the first exception ends the walk. */
  function ItemsTopics(items: seq<Value>, depth: nat): (r: Result<seq<SearchResult>>)
    requires EntriesStrings(items, depth)
    ensures r.Raised? ==> r.error == TypeError
    ensures r.Ok? ==> forall k :: 0 <= k < |r.value| ==> WellFormedHit(r.value[k])
    decreases Budget(depth), 1, |items|
  {
    if items == [] then Ok([])
    else Then(ItemsTopics(items[..|items| - 1], depth), EntryTopics(items[|items| - 1], depth))
  }

  /** The hits of one entry: nothing for a non-dictionary, the flattened group for a truthy
      `Topics` above depth 3, else the entry's own hit if it has one. */
  function EntryTopics(entry: Value, depth: nat): (r: Result<seq<SearchResult>>)
    requires EntryStrings(entry, depth)
    ensures r.Raised? ==> r.error == TypeError
    ensures r.Ok? ==> forall k :: 0 <= k < |r.value| ==> WellFormedHit(r.value[k])
    ensures !entry.Dict? ==> r == Ok([])
    decreases Budget(depth), 0, 0
  {
    if !entry.Dict? then Ok([])
    else
      var nested := Get(entry.entries, "Topics", PyNone);
      if IsTruthy(nested) && depth < 3 then TopicsOf(nested, depth + 1)
      else
        match Leaf(entry.entries)
        case None => Ok([])
        case Some(hit) => Ok([hit])
  }

  /** The hits of a list of entries are the hits of its parts, in order. */
  lemma {:induction false} ItemsTopicsAppend(a: seq<Value>, b: seq<Value>, depth: nat)
    requires EntriesStrings(a, depth) && EntriesStrings(b, depth)
    ensures EntriesStrings(a + b, depth)
    ensures ItemsTopics(a + b, depth) == Then(ItemsTopics(a, depth), ItemsTopics(b, depth))
    decreases |b|
  {
    if b == [] {
      assert a + b == a;
      if ItemsTopics(a, depth).Ok? {
        assert ItemsTopics(a, depth).value + [] == ItemsTopics(a, depth).value;
      }
    } else {
      var b' := b[..|b| - 1];
      assert EntriesStrings(b', depth);
      ItemsTopicsAppend(a, b', depth);
      assert (a + b)[..|a + b| - 1] == a + b';
      assert (a + b)[|a + b| - 1] == b[|b| - 1];
      ThenAssociative(ItemsTopics(a, depth), ItemsTopics(b', depth), EntryTopics(b[|b| - 1], depth));
    }
  }

  /** An exception in the first `j` entries is the exception of the whole list. */
  lemma RaisedPrefix(items: seq<Value>, j: nat, depth: nat)
    requires j <= |items| && EntriesStrings(items, depth)
    ensures EntriesStrings(items[..j], depth)
    ensures ItemsTopics(items[..j], depth).Raised? ==> ItemsTopics(items, depth) == ItemsTopics(items[..j], depth)
  {
    assert items[..j] + items[j..] == items;
    assert EntriesStrings(items[j..], depth);
    ItemsTopicsAppend(items[..j], items[j..], depth);
  }

  /** From depth 3 on, a `Topics` group is not followed: the entry is read as a leaf. */
  lemma DeepGroupsAreLeaves(entry: map<string, Value>, depth: nat)
    requires depth >= 3 && LeafStrings(entry)
    ensures EntryTopics(Dict(entry), depth) == if Leaf(entry).Some? then Ok([Leaf(entry).value]) else Ok([])
  {
  }

  /** Above depth 3, a group contributes exactly its own flattened topics. */
  lemma GroupsAreFlattened(group: seq<Value>, depth: nat)
    requires depth < 3 && group != []
    requires EntriesStrings(group, depth + 1)
    ensures EntryTopics(Dict(map["Topics" := List(group)]), depth) == ItemsTopics(group, depth + 1)
  {
  }

  /** An entry lacking a truthy `FirstURL` or `Text` is skipped. */
  lemma IncompleteEntriesSkipped(entry: map<string, Value>, depth: nat)
    requires !IsTruthy(Get(entry, "Topics", PyNone)) && LeafStrings(entry)
    requires !IsTruthy(Get(entry, "FirstURL", PyNone)) || !IsTruthy(Get(entry, "Text", PyNone))
    ensures EntryTopics(Dict(entry), depth) == Ok([])
  {
  }

  /** `text.split(" - ", 1)[0]` of a word followed by " - " is the word. */
  lemma BeforeSeparator(name: string, rest: string)
    requires forall k :: 0 <= k < |name| ==> !IsSpace(name[k])
    ensures BeforeFirst(name + " - " + rest, " - ") == name
  {
    var text := name + " - " + rest;
    assert text[|name|..|name| + 3] == " - ";
    assert MatchAt(text, " - ", |name|);
    var before := BeforeFirst(text, " - ");
    assert |before| <= |name|;
    assert MatchAt(text, " - ", |before|);
    assert text[|before|] == ' ' by {
      assert text[|before|..|before| + 3][0] == ' ';
    }
    assert |before| >= |name|;
    assert text[..|name|] == name;
  }

  /** The title falls back to the text before " - " when `Result` is missing. */
  lemma TitleFromText(url: string, name: string, rest: string)
    requires url != [] && name != [] && forall k :: 0 <= k < |name| ==> !IsSpace(name[k])
    ensures Leaf(map["FirstURL" := Str(url), "Text" := Str(name + " - " + rest)]).Some?
    ensures Leaf(map["FirstURL" := Str(url), "Text" := Str(name + " - " + rest)]).value.title == name
  {
    var text := name + " - " + rest;
    var entry := map["FirstURL" := Str(url), "Text" := Str(text)];
    assert "Result" !in entry;
    assert Get(entry, "Text", PyNone) == Str(text) && IsTruthy(Str(text));
    assert Get(entry, "FirstURL", PyNone) == Str(url) && IsTruthy(Str(url));
    BeforeSeparator(name, rest);
    StripStripped(name);
  }

  /** Stripping a stripped string changes nothing. */
  lemma StripStripped(s: string)
    requires Stripped(s)
    ensures Strip(s) == s
  {
    if s != [] {
      assert LeadingSpaces(s) == 0;
      assert TrailingSpaces(s) == 0;
      assert s[0..|s|] == s;
    }
  }

  /** One more entry extends the hits of a list by the entry's own. */
  lemma ItemsTopicsStep(items: seq<Value>, i: nat, depth: nat)
    requires i < |items| && EntriesStrings(items, depth)
    ensures EntriesStrings(items[..i], depth) && EntriesStrings(items[..i + 1], depth)
    ensures ItemsTopics(items[..i + 1], depth) == Then(ItemsTopics(items[..i], depth), EntryTopics(items[i], depth))
  {
    assert items[..i + 1][..i] == items[..i];
    assert items[..i + 1][i] == items[i];
  }

  /** `_extract_duckduckgo_topics`: the loop over the entries. */
  method ExtractTopics(topics: Value, depth: nat) returns (r: Result<seq<SearchResult>>)
    requires TopicStrings(topics, depth)
    ensures r == TopicsOf(topics, depth)
    decreases Budget(depth), 1
  {
    var items: seq<Value>;
    match topics {
      case List(xs) => items := xs;
      case Str(_) => return Ok([]);
      case Dict(_) => return Ok([]);
      case PyNone => return Raised(TypeError);
      case Bool(_) => return Raised(TypeError);
      case Int(_) => return Raised(TypeError);
      case Float(_) => return Raised(TypeError);
    }
    var results: seq<SearchResult> := [];
    var i := 0;
    while i < |items|
      invariant 0 <= i <= |items|
      invariant EntriesStrings(items[..i], depth)
      invariant ItemsTopics(items[..i], depth) == Ok(results)
      decreases |items| - i
    {
      ItemsTopicsStep(items, i, depth);
      var hits := ExtractEntry(items[i], depth);
      if hits.Raised? {
        RaisedPrefix(items, i + 1, depth);
        return hits;
      }
      results := results + hits.value;
      i := i + 1;
    }
    assert items[..i] == items;
    return Ok(results);
  }

  /** The body of the loop for one entry: skip it, recurse into its group, or take its hit. */
  method ExtractEntry(entry: Value, depth: nat) returns (r: Result<seq<SearchResult>>)
    requires EntryStrings(entry, depth)
    ensures r == EntryTopics(entry, depth)
    decreases Budget(depth), 0
  {
    if !entry.Dict? {
      return Ok([]);
    }
    var nested := Get(entry.entries, "Topics", PyNone);
    if IsTruthy(nested) && depth < 3 {
      r := ExtractTopics(nested, depth + 1);
      return;
    }
    var hit := Leaf(entry.entries);
    if hit.Some? {
      return Ok([hit.value]);
    }
    return Ok([]);
  }

  // ---------------------------------------------------------------- de-duplication

  /** The non-empty URLs of some hits. */
  function UrlsOf(rs: seq<SearchResult>): (urls: set<string>)
    ensures forall k :: 0 <= k < |rs| && rs[k].url != [] ==> rs[k].url in urls
    ensures [] !in urls
  {
    if rs == [] then {}
    else
      var last := rs[|rs| - 1];
      var prefix := rs[..|rs| - 1];
      assert forall k :: 0 <= k < |prefix| ==> prefix[k] == rs[k];
      UrlsOf(prefix) + (if last.url != [] then {last.url} else {})
  }

  /** Appending a hit adds its URL, if it has one. */
  lemma UrlsOfSnoc(rs: seq<SearchResult>, x: SearchResult)
    ensures UrlsOf(rs + [x]) == UrlsOf(rs) + (if x.url != [] then {x.url} else {})
  {
    assert (rs + [x])[..|rs|] == rs;
  }

  /** Every URL of `UrlsOf(rs)` is the URL of some hit of `rs`. */
  lemma {:induction false} UrlWitness(rs: seq<SearchResult>, url: string) returns (k: nat)
    requires url in UrlsOf(rs)
    ensures k < |rs| && rs[k].url == url && url != []
  {
    var prefix := rs[..|rs| - 1];
    if url in UrlsOf(prefix) {
      k := UrlWitness(prefix, url);
    } else {
      k := |rs| - 1;
    }
  }

  /** The position of the first hit carrying `url`. */
  function FirstIndexOf(rs: seq<SearchResult>, url: string): (i: nat)
    requires url in UrlsOf(rs)
    ensures i < |rs| && rs[i].url == url
    ensures forall j :: 0 <= j < i ==> rs[j].url != url
  {
    if rs[0].url == url then 0
    else
      assert url in UrlsOf(rs[1..]) by {
        var k := UrlWitness(rs, url);
        assert rs[1..][k - 1] == rs[k];
      }
      1 + FirstIndexOf(rs[1..], url)
  }

  /** The first hit for each non-empty URL, in input order. */
  function Unique(rs: seq<SearchResult>): (u: seq<SearchResult>)
    ensures UrlsOf(u) == UrlsOf(rs)
    ensures forall k :: 0 <= k < |u| ==> u[k].url != []
    ensures forall i, j :: 0 <= i < j < |u| ==> u[i].url != u[j].url
  {
    if rs == [] then []
    else
      var prefix := Unique(rs[..|rs| - 1]);
      var last := rs[|rs| - 1];
      if last.url != [] && last.url !in UrlsOf(prefix) then prefix + [last] else prefix
  }

  /** Each hit of `u` is the first hit of `rs` with its URL, and they come in the order of
      those first occurrences. */
  ghost predicate FirstOccurrences(rs: seq<SearchResult>, u: seq<SearchResult>) {
    && (forall k :: 0 <= k < |u| ==> IsFirstHit(rs, u[k]))
    && (forall i, j :: 0 <= i < j < |u| ==> Precedes(rs, u[i], u[j]))
  }

  /** `h` is the first hit of `rs` with its URL. */
  ghost predicate IsFirstHit(rs: seq<SearchResult>, h: SearchResult) {
    h.url in UrlsOf(rs) && h == rs[FirstIndexOf(rs, h.url)]
  }

  /** The URL of `a` first occurs in `rs` before the URL of `b` does. */
  ghost predicate Precedes(rs: seq<SearchResult>, a: SearchResult, b: SearchResult) {
    a.url in UrlsOf(rs) && b.url in UrlsOf(rs) && FirstIndexOf(rs, a.url) < FirstIndexOf(rs, b.url)
  }

  /** The first index is determined by its two properties. */
  lemma FirstIndexUnique(rs: seq<SearchResult>, url: string, i: nat)
    requires i < |rs| && rs[i].url == url && url != []
    requires forall j :: 0 <= j < i ==> rs[j].url != url
    ensures url in UrlsOf(rs) && FirstIndexOf(rs, url) == i
  {
    var f := FirstIndexOf(rs, url);
    assert !(f < i) && !(i < f);
  }

  /** A hit appended at the end does not move the first occurrence of a URL already present. */
  lemma FirstIndexOfSnoc(rs: seq<SearchResult>, x: SearchResult, url: string)
    requires url in UrlsOf(rs)
    ensures url in UrlsOf(rs + [x]) && FirstIndexOf(rs + [x], url) == FirstIndexOf(rs, url)
  {
    var i := FirstIndexOf(rs, url);
    assert (rs + [x])[i] == rs[i];
    assert forall j :: 0 <= j < i ==> (rs + [x])[j] == rs[j];
    FirstIndexUnique(rs + [x], url, i);
  }

  /** A hit with a new URL, appended at the end, is that URL's first occurrence. */
  lemma FirstIndexOfNew(rs: seq<SearchResult>, x: SearchResult)
    requires x.url != [] && x.url !in UrlsOf(rs)
    ensures x.url in UrlsOf(rs + [x]) && FirstIndexOf(rs + [x], x.url) == |rs|
  {
    assert forall j :: 0 <= j < |rs| ==> (rs + [x])[j] == rs[j];
    FirstIndexUnique(rs + [x], x.url, |rs|);
  }

  /** Appending a hit keeps the first occurrences already found. */
  lemma FirstOccurrencesKept(rs: seq<SearchResult>, x: SearchResult, u: seq<SearchResult>)
    requires FirstOccurrences(rs, u)
    ensures FirstOccurrences(rs + [x], u)
  {
    forall k | 0 <= k < |u|
      ensures IsFirstHit(rs + [x], u[k])
    {
      FirstHitKept(rs, x, u[k]);
    }
    forall i, j | 0 <= i < j < |u|
      ensures Precedes(rs + [x], u[i], u[j])
    {
      PrecedesKept(rs, x, u[i], u[j]);
    }
  }

  /** A first hit stays the first hit when a hit is appended. */
  lemma FirstHitKept(rs: seq<SearchResult>, x: SearchResult, h: SearchResult)
    requires IsFirstHit(rs, h)
    ensures IsFirstHit(rs + [x], h)
  {
    FirstIndexOfSnoc(rs, x, h.url);
    assert (rs + [x])[FirstIndexOf(rs, h.url)] == rs[FirstIndexOf(rs, h.url)];
  }

  /** The order of two first occurrences survives appending a hit. */
  lemma PrecedesKept(rs: seq<SearchResult>, x: SearchResult, a: SearchResult, b: SearchResult)
    requires Precedes(rs, a, b)
    ensures Precedes(rs + [x], a, b)
  {
    FirstIndexOfSnoc(rs, x, a.url);
    FirstIndexOfSnoc(rs, x, b.url);
  }

  /** Appending a hit with a new URL extends the first occurrences by that hit. */
  lemma FirstOccurrencesExtended(rs: seq<SearchResult>, x: SearchResult, u: seq<SearchResult>)
    requires FirstOccurrences(rs, u) && x.url != [] && x.url !in UrlsOf(rs)
    ensures FirstOccurrences(rs + [x], u + [x])
  {
    FirstOccurrencesKept(rs, x, u);
    FirstIndexOfNew(rs, x);
    assert IsFirstHit(rs + [x], x);
    var u' := u + [x];
    forall k | 0 <= k < |u'|
      ensures IsFirstHit(rs + [x], u'[k])
    {
      if k < |u| {
        assert u'[k] == u[k];
      }
    }
    forall i, j | 0 <= i < j < |u'|
      ensures Precedes(rs + [x], u'[i], u'[j])
    {
      assert u'[i] == u[i];
      if j < |u| {
        assert u'[j] == u[j];
      } else {
        FirstIndexOfSnoc(rs, x, u[i].url);
      }
    }
  }

  /** The de-duplication keeps exactly the first occurrences, in order. */
  lemma {:induction false} UniqueKeepsFirstOccurrences(rs: seq<SearchResult>)
    ensures FirstOccurrences(rs, Unique(rs))
  {
    if rs != [] {
      var prefix := rs[..|rs| - 1];
      var last := rs[|rs| - 1];
      assert rs == prefix + [last];
      UniqueKeepsFirstOccurrences(prefix);
      if last.url != [] && last.url !in UrlsOf(Unique(prefix)) {
        FirstOccurrencesExtended(prefix, last, Unique(prefix));
      } else {
        FirstOccurrencesKept(prefix, last, Unique(prefix));
      }
    }
  }

  /** The de-duplication of a prefix is a prefix of the de-duplication. */
  lemma {:induction false} UniquePrefix(rs: seq<SearchResult>, j: nat)
    requires j <= |rs|
    ensures Unique(rs[..j]) <= Unique(rs)
    decreases |rs| - j
  {
    if j < |rs| {
      UniquePrefix(rs, j + 1);
      assert rs[..j + 1][..j] == rs[..j];
    } else {
      assert rs[..j] == rs;
    }
  }

  /** The de-duplicated hits `_search_duckduckgo` returns. The limit is checked after each
      hit, whether kept or not, so a limit of 0 or less still lets the first hit through. */
  function Deduplicated(rs: seq<SearchResult>, limit: int): (r: seq<SearchResult>)
    ensures limit >= 1 ==> |r| <= limit && r <= Unique(rs)
    ensures limit >= 1 && |Unique(rs)| <= limit ==> r == Unique(rs)
  {
    if limit <= 0 then (if rs != [] && rs[0].url != [] then [rs[0]] else [])
    else if |Unique(rs)| <= limit then Unique(rs)
    else Unique(rs)[..limit]
  }

  /** The quirk of a non-positive limit: a first hit with a URL is returned alone. */
  lemma NonPositiveLimitKeepsFirst(rs: seq<SearchResult>, limit: int)
    requires limit <= 0 && rs != [] && rs[0].url != []
    ensures Deduplicated(rs, limit) == [rs[0]] && |Deduplicated(rs, limit)| > limit
  {
  }

  /** The de-duplicated hits have non-empty, distinct URLs, each the first hit with its URL. */
  lemma DeduplicatedIsFirstOccurrences(rs: seq<SearchResult>, limit: int)
    ensures var r := Deduplicated(rs, limit);
      && (forall k :: 0 <= k < |r| ==> r[k].url != [])
      && (forall i, j :: 0 <= i < j < |r| ==> r[i].url != r[j].url)
      && (forall k :: 0 <= k < |r| ==> r[k].url in UrlsOf(rs) && r[k] == rs[FirstIndexOf(rs, r[k].url)])
  {
    UniqueKeepsFirstOccurrences(rs);
    var u := Unique(rs);
    forall k | 0 <= k < |u|
      ensures u[k].url in UrlsOf(rs)
    {
      assert u[k].url in UrlsOf(u);
    }
    if limit <= 0 && rs != [] && rs[0].url != [] {
      assert rs[0].url in UrlsOf(rs);
      FirstIndexUnique(rs, rs[0].url, 0);
    }
  }

  /** One more input hit adds at most one hit to the de-duplication. */
  lemma UniqueStep(rs: seq<SearchResult>, i: nat)
    requires i < |rs|
    ensures Unique(rs[..i + 1]) ==
      if rs[i].url != [] && rs[i].url !in UrlsOf(Unique(rs[..i])) then Unique(rs[..i]) + [rs[i]] else Unique(rs[..i])
  {
    assert rs[..i + 1][..i] == rs[..i];
    assert rs[..i + 1][i] == rs[i];
  }

  /** When the loop breaks after hit `i` with a positive limit, the limit is reached exactly
      and the answer is complete. */
  lemma BreakAtLimit(rs: seq<SearchResult>, i: nat, limit: int)
    requires limit >= 1 && i < |rs| && |Unique(rs[..i + 1])| >= limit
    requires i > 0 ==> |Unique(rs[..i])| < limit
    ensures Unique(rs[..i + 1]) == Deduplicated(rs, limit)
  {
    LimitReachedExactly(rs, i, limit);
    UniquePrefix(rs, i + 1);
    LimitPrefixIsAnswer(rs, Unique(rs[..i + 1]), limit);
  }

  /** The hit that reaches the limit makes the count equal to it. */
  lemma LimitReachedExactly(rs: seq<SearchResult>, i: nat, limit: int)
    requires limit >= 1 && i < |rs| && |Unique(rs[..i + 1])| >= limit
    requires i > 0 ==> |Unique(rs[..i])| < limit
    ensures |Unique(rs[..i + 1])| == limit
  {
    UniqueStep(rs, i);
    if i == 0 {
      assert rs[..0] == [];
    }
  }

  /** A prefix of the de-duplication that is exactly `limit` long is the answer. */
  lemma LimitPrefixIsAnswer(rs: seq<SearchResult>, p: seq<SearchResult>, limit: int)
    requires limit >= 1 && p <= Unique(rs) && |p| == limit
    ensures p == Deduplicated(rs, limit)
  {
    assert Unique(rs)[..limit] == p;
  }

  /** With a limit of 0 or less the loop breaks after the first hit. */
  lemma BreakAtFirst(rs: seq<SearchResult>, limit: int)
    requires limit <= 0 && rs != []
    ensures Unique(rs[..1]) == Deduplicated(rs, limit)
  {
    UniqueStep(rs, 0);
    assert rs[..0] == [];
  }

  /** The de-duplication loop of `_search_duckduckgo`. */
  method DeduplicateAndTrim(results: seq<SearchResult>, limit: int) returns (unique: seq<SearchResult>)
    ensures unique == Deduplicated(results, limit)
  {
    unique := [];
    var seen: set<string> := {};
    var i := 0;
    while i < |results|
      invariant 0 <= i <= |results|
      invariant unique == Unique(results[..i])
      invariant seen == UrlsOf(unique)
      invariant i > 0 ==> |unique| < limit
      decreases |results| - i
    {
      UniqueStep(results, i);
      var res := results[i];
      if res.url != [] && res.url !in seen {
        UrlsOfSnoc(unique, res);
        unique := unique + [res];
        seen := seen + {res.url};
      }
      if |unique| >= limit {
        if limit >= 1 {
          BreakAtLimit(results, i, limit);
        } else {
          BreakAtFirst(results, limit);
        }
        return;
      }
      i := i + 1;
    }
    assert results[..i] == results;
  }

  /** De-duplication only drops hits, so what holds of every input hit holds of every output hit. */
  lemma DeduplicatedKeepsWellFormed(rs: seq<SearchResult>, limit: int)
    requires forall k :: 0 <= k < |rs| ==> WellFormedHit(rs[k])
    ensures forall k :: 0 <= k < |Deduplicated(rs, limit)| ==> WellFormedHit(Deduplicated(rs, limit)[k])
  {
    DeduplicatedIsFirstOccurrences(rs, limit);
    var r := Deduplicated(rs, limit);
    forall k | 0 <= k < |r|
      ensures WellFormedHit(r[k])
    {
      assert r[k] == rs[FirstIndexOf(rs, r[k].url)];
    }
  }

  /** The abstract hit that opens the DuckDuckGo results, if the response has one. */
  function AbstractHit(data: map<string, Value>): (r: seq<SearchResult>)
    requires StringField(data, "AbstractText") && StringField(data, "AbstractURL") && StringField(data, "Heading")
    ensures |r| <= 1
    ensures r != [] <==> IsTruthy(Get(data, "AbstractText", PyNone)) && IsTruthy(Get(data, "AbstractURL", PyNone))
    ensures r != [] ==> WellFormedHit(r[0]) && r[0].url == data["AbstractURL"].s
  {
    var text := Get(data, "AbstractText", PyNone);
    var url := Get(data, "AbstractURL", PyNone);
    var heading := Get(data, "Heading", PyNone);
    if IsTruthy(text) && IsTruthy(url) then
      [SearchResult(Strip(if IsTruthy(heading) then heading.s else url.s), url.s, Strip(text.s), DuckDuckGo)]
    else []
  }

  /** `_search_duckduckgo` once the response `data` has arrived: the abstract, then the
      flattened related topics, de-duplicated and trimmed. */
  method SearchDuckDuckGo(data: map<string, Value>, limit: int) returns (r: Result<seq<SearchResult>>)
    requires StringField(data, "AbstractText") && StringField(data, "AbstractURL") && StringField(data, "Heading")
    requires TopicStrings(Get(data, "RelatedTopics", List([])), 0)
    ensures r.Raised? <==> TopicsOf(Get(data, "RelatedTopics", List([])), 0).Raised?
    ensures r.Ok? ==> r.value == Deduplicated(AbstractHit(data) + TopicsOf(Get(data, "RelatedTopics", List([])), 0).value, limit)
    ensures r.Ok? ==> forall k :: 0 <= k < |r.value| ==> WellFormedHit(r.value[k])
  {
    var topics := ExtractTopics(Get(data, "RelatedTopics", List([])), 0);
    if topics.Raised? {
      return topics;
    }
    var all := AbstractHit(data) + topics.value;
    WellFormedConcat(AbstractHit(data), topics.value);
    var unique := DeduplicateAndTrim(all, limit);
    DeduplicatedKeepsWellFormed(all, limit);
    return Ok(unique);
  }

  /** Joining two lists of well-formed hits gives a list of well-formed hits. */
  lemma WellFormedConcat(a: seq<SearchResult>, b: seq<SearchResult>)
    requires forall k :: 0 <= k < |a| ==> WellFormedHit(a[k])
    requires forall k :: 0 <= k < |b| ==> WellFormedHit(b[k])
    ensures forall k :: 0 <= k < |a + b| ==> WellFormedHit((a + b)[k])
  {
    forall k | 0 <= k < |a + b|
      ensures WellFormedHit((a + b)[k])
    {
      if k < |a| {
        assert (a + b)[k] == a[k];
      } else {
        assert (a + b)[k] == b[k - |a|];
      }
    }
  }

  /** `fetch_results`: the hits, unchanged, as a list. */
  function FetchResults(searchResults: seq<SearchResult>): (r: seq<SearchResult>)
    ensures |r| == |searchResults| && forall k :: 0 <= k < |r| ==> r[k] == searchResults[k]
  {
    searchResults
  }
}
