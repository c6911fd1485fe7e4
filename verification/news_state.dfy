/**
 * The news reader's state container (`NewsState`): the feed directory made of
 * the user's custom feeds and the bundled default groups, the multi-select list
 * of active feed URLs, and the article cache that fetched feeds merge into.
 * Fetching itself is network I/O and is not modelled; fetched articles arrive
 * as an input of `MergeArticles`.
 */
module NewsState {
  import opened Common
  import opened Strings
  import opened Seqs

  datatype Feed = Feed(name: string, url: string, custom: bool)

  datatype Article = Article(
    title: string,
    link: string,
    date: string,
    snippet: string,
    image: string,
    sourceName: string,
    sourceUrl: string)

  datatype FeedGroup = FeedGroup(name: string, feeds: seq<Feed>)

  /**
   * The fields the modelled operations read and write. `defaultGroups` is the
   * bundled feed directory, which never changes at run time.
   */
  datatype State = State(
    defaultGroups: seq<FeedGroup>,
    customFeeds: seq<Feed>,
    selectedFeeds: seq<string>,
    articles: seq<Article>)

  const CustomGroupName := "Custom Feeds"
  /** Only this many articles are written to the cache. */
  const MaxSavedArticles := 200
  /** With no saved selection, this many feeds start selected. */
  const DefaultSelectionSize := 5
  /** The date an article gets when its feed gives none; it sorts as "now". */
  const LatestDate := "LATEST"

  /* ---------- the feed directory ---------- */

  function GroupFeeds(groups: seq<FeedGroup>): (r: seq<seq<Feed>>)
    ensures |r| == |groups|
    ensures forall i :: 0 <= i < |groups| ==> r[i] == groups[i].feeds
  {
    seq(|groups|, i requires 0 <= i < |groups| => groups[i].feeds)
  }

  /** The feeds of the bundled groups, in order. */
  function DefaultFeeds(s: State): seq<Feed> {
    Flatten(GroupFeeds(s.defaultGroups))
  }

  /** `feedGroups`: a "Custom Feeds" group in front of the bundled groups, present only when there are custom feeds. */
  function FeedGroups(s: State): (r: seq<FeedGroup>)
    ensures |r| == |s.defaultGroups| + (if |s.customFeeds| > 0 then 1 else 0)
    ensures |s.customFeeds| > 0 ==> r[0] == FeedGroup(CustomGroupName, s.customFeeds)
    ensures r[|r| - |s.defaultGroups|..] == s.defaultGroups
  {
    (if |s.customFeeds| > 0 then [FeedGroup(CustomGroupName, s.customFeeds)] else [])
      + s.defaultGroups
  }

  /** `allFeeds`: every group's feeds, concatenated; that is, the custom feeds followed by the bundled ones. */
  function AllFeeds(s: State): (r: seq<Feed>)
    ensures r == s.customFeeds + DefaultFeeds(s)
  {
    var groups := FeedGroups(s);
    if |s.customFeeds| > 0 then
      var custom := FeedGroup(CustomGroupName, s.customFeeds);
      assert groups == [custom] + s.defaultGroups;
      FlattenGroupsCons(custom, s.defaultGroups);
      Flatten(GroupFeeds(groups))
    else
      assert groups == s.defaultGroups && s.customFeeds == [];
      Flatten(GroupFeeds(groups))
  }

  /** The directory of a leading group is its feeds followed by the rest. */
  lemma FlattenGroupsCons(g: FeedGroup, gs: seq<FeedGroup>)
    ensures Flatten(GroupFeeds([g] + gs)) == g.feeds + Flatten(GroupFeeds(gs))
  {
    var all := GroupFeeds([g] + gs);
    assert all[0] == g.feeds;
    assert all[1..] == GroupFeeds(gs);
  }

  /** `filteredArticles`: everything when no feed is selected, else the articles of the selected feeds in cache order. */
  function FilteredArticles(s: State): (r: seq<Article>)
    ensures |s.selectedFeeds| == 0 ==> r == s.articles
    ensures |s.selectedFeeds| > 0 ==>
      && IsSubseq(r, s.articles)
      && (forall i :: 0 <= i < |r| ==> r[i].sourceUrl in s.selectedFeeds)
      && (forall i :: 0 <= i < |s.articles| && s.articles[i].sourceUrl in s.selectedFeeds
            ==> s.articles[i] in r)
      && (forall a :: multiset(r)[a] == if a.sourceUrl in s.selectedFeeds then multiset(s.articles)[a] else 0)
  {
    if |s.selectedFeeds| == 0 then s.articles
    else
      var p := (a: Article) => a.sourceUrl in s.selectedFeeds;
      var r := Filter(s.articles, p);
      assert forall a :: multiset(r)[a] == if p(a) then multiset(s.articles)[a] else 0 by {
        forall a ensures multiset(r)[a] == if p(a) then multiset(s.articles)[a] else 0 {
          FilterCount(s.articles, p, a);
        }
      }
      r
  }

  /* ---------- selection ---------- */

  /** `url` is gone and every other entry keeps its place in order, each as often as before. */
  ghost predicate Without(r: seq<string>, s: seq<string>, url: string) {
    && url !in r
    && IsSubseq(r, s)
    && (forall i :: 0 <= i < |s| && s[i] != url ==> s[i] in r)
    && forall u :: u != url ==> multiset(r)[u] == multiset(s)[u]
  }

  function Drop(s: seq<string>, url: string): (r: seq<string>)
    ensures Without(r, s, url)
  {
    var p := (u: string) => u != url;
    var r := Filter(s, p);
    assert forall u :: u != url ==> multiset(r)[u] == multiset(s)[u] by {
      forall u | u != url ensures multiset(r)[u] == multiset(s)[u] {
        FilterCount(s, p, u);
      }
    }
    r
  }

  /** `toggleFeed`: a selected URL is removed everywhere in the list; an unselected one is appended. */
  function ToggleFeed(s: State, url: string): (r: State)
    ensures url in s.selectedFeeds ==> Without(r.selectedFeeds, s.selectedFeeds, url)
    ensures url !in s.selectedFeeds ==> r.selectedFeeds == s.selectedFeeds + [url]
    ensures r == s.(selectedFeeds := r.selectedFeeds)
  {
    if url in s.selectedFeeds then s.(selectedFeeds := Drop(s.selectedFeeds, url))
    else s.(selectedFeeds := s.selectedFeeds + [url])
  }

  /** Selecting a feed that no cached article comes from also starts a fetch of that feed. */
  predicate ToggleStartsFetch(s: State, url: string) {
    url !in s.selectedFeeds && forall i :: 0 <= i < |s.articles| ==> s.articles[i].sourceUrl != url
  }

  /**
   * A fetch starts exactly when the toggle selects a feed and the filtered
   * view it leads to shows nothing from that feed.
   */
  lemma ToggleFetchesWhenNothingShown(s: State, url: string)
    ensures ToggleStartsFetch(s, url) <==>
      && url in ToggleFeed(s, url).selectedFeeds
      && url !in s.selectedFeeds
      && forall i :: 0 <= i < |FilteredArticles(ToggleFeed(s, url))| ==> FilteredArticles(ToggleFeed(s, url))[i].sourceUrl != url
  {
    var t := ToggleFeed(s, url);
    if url !in s.selectedFeeds {
      assert t.selectedFeeds[|s.selectedFeeds|] == url;
      var r := FilteredArticles(t);
      if i :| 0 <= i < |s.articles| && s.articles[i].sourceUrl == url {
        assert s.articles[i] in r;
        var j :| 0 <= j < |r| && r[j] == s.articles[i];
        assert r[j].sourceUrl == url;
      }
    }
  }

  /** Toggling an unselected URL twice gives back the original state. */
  lemma ToggleTwiceRestores(s: State, url: string)
    requires url !in s.selectedFeeds
    ensures ToggleFeed(ToggleFeed(s, url), url) == s
  {
    var once := ToggleFeed(s, url);
    FilterAppend(s.selectedFeeds, [url], (u: string) => u != url);
    FilterKeepsAll(s.selectedFeeds, (u: string) => u != url);
  }

  /** `selectAll`: every directory URL in directory order, or nothing. */
  function SelectAll(s: State, select: bool): (r: State)
    ensures select ==> |r.selectedFeeds| == |AllFeeds(s)|
    ensures select ==> forall i :: 0 <= i < |r.selectedFeeds| ==> r.selectedFeeds[i] == AllFeeds(s)[i].url
    ensures !select ==> r.selectedFeeds == []
    ensures r == s.(selectedFeeds := r.selectedFeeds)
  {
    var all := AllFeeds(s);
    if select then s.(selectedFeeds := seq(|all|, i requires 0 <= i < |all| => all[i].url))
    else s.(selectedFeeds := [])
  }

  /** After selecting all, every feed of the directory counts as selected. */
  lemma SelectAllCoversDirectory(s: State, f: Feed)
    requires f in AllFeeds(s)
    ensures f.url in SelectAll(s, true).selectedFeeds
  {
    var i :| 0 <= i < |AllFeeds(s)| && AllFeeds(s)[i] == f;
    assert SelectAll(s, true).selectedFeeds[i] == f.url;
  }

  /** The first `DefaultSelectionSize` directory URLs, used when no selection was saved. */
  function DefaultSelection(s: State): (r: seq<string>)
    ensures |r| <= DefaultSelectionSize && |r| <= |AllFeeds(s)|
    ensures |r| == DefaultSelectionSize || |r| == |AllFeeds(s)|
    ensures forall i :: 0 <= i < |r| ==> r[i] == AllFeeds(s)[i].url
  {
    var all := AllFeeds(s);
    var n := if |all| < DefaultSelectionSize then |all| else DefaultSelectionSize;
    seq(n, i requires 0 <= i < n => all[i].url)
  }

  /** The selection on load: the saved one when there is one, otherwise the default. */
  function InitialSelection(s: State, saved: Option<seq<string>>): (r: seq<string>)
    ensures saved.Some? ==> r == saved.value
    ensures saved.None? ==> r == DefaultSelection(s)
  {
    match saved
    case Some(v) => v
    case None => DefaultSelection(s)
  }

  /* ---------- custom feeds ---------- */

  datatype AddResult = AddResult(state: State, success: bool, message: string)

  /**
   * `addFeed`: `isValidUrl` stands for the `new URL(url)` check. A valid URL
   * appends a custom feed and selects it (once); an invalid one changes nothing.
   */
  function AddFeed(s: State, name: string, url: string, isValidUrl: string -> bool): (r: AddResult)
    ensures !isValidUrl(url) ==> r == AddResult(s, false, "Invalid URL format")
    ensures isValidUrl(url) ==> r.success && r.message == "Feed '" + name + "' added successfully."
    ensures isValidUrl(url) ==> r.state.customFeeds == s.customFeeds + [Feed(name, url, true)]
    ensures isValidUrl(url) ==> url in r.state.selectedFeeds
    ensures isValidUrl(url) && url in s.selectedFeeds ==> r.state.selectedFeeds == s.selectedFeeds
    ensures isValidUrl(url) && url !in s.selectedFeeds ==> r.state.selectedFeeds == s.selectedFeeds + [url]
    ensures r.state.articles == s.articles && r.state.defaultGroups == s.defaultGroups
  {
    if !isValidUrl(url) then AddResult(s, false, "Invalid URL format")
    else
      var withFeed := s.(customFeeds := s.customFeeds + [Feed(name, url, true)]);
      var selected := if url in s.selectedFeeds then s.selectedFeeds else s.selectedFeeds + [url];
      AddResult(withFeed.(selectedFeeds := selected), true, "Feed '" + name + "' added successfully.")
  }

  /** `removeFeed`: the URL disappears from the custom feeds, the article cache and the selection; the rest keeps its order. */
  function RemoveFeed(s: State, url: string): (r: State)
    ensures forall i :: 0 <= i < |r.customFeeds| ==> r.customFeeds[i].url != url
    ensures forall i :: 0 <= i < |r.articles| ==> r.articles[i].sourceUrl != url
    ensures Without(r.selectedFeeds, s.selectedFeeds, url)
    ensures IsSubseq(r.customFeeds, s.customFeeds) && IsSubseq(r.articles, s.articles)
    ensures forall i :: 0 <= i < |s.customFeeds| && s.customFeeds[i].url != url ==> s.customFeeds[i] in r.customFeeds
    ensures forall i :: 0 <= i < |s.articles| && s.articles[i].sourceUrl != url ==> s.articles[i] in r.articles
    ensures forall f :: multiset(r.customFeeds)[f] == if f.url != url then multiset(s.customFeeds)[f] else 0
    ensures forall a :: multiset(r.articles)[a] == if a.sourceUrl != url then multiset(s.articles)[a] else 0
    ensures r.defaultGroups == s.defaultGroups
  {
    var keepFeed := (f: Feed) => f.url != url;
    var keepArticle := (a: Article) => a.sourceUrl != url;
    var feeds := Filter(s.customFeeds, keepFeed);
    var articles := Filter(s.articles, keepArticle);
    assert forall f :: multiset(feeds)[f] == if keepFeed(f) then multiset(s.customFeeds)[f] else 0 by {
      forall f ensures multiset(feeds)[f] == if keepFeed(f) then multiset(s.customFeeds)[f] else 0 {
        FilterCount(s.customFeeds, keepFeed, f);
      }
    }
    assert forall a :: multiset(articles)[a] == if keepArticle(a) then multiset(s.articles)[a] else 0 by {
      forall a ensures multiset(articles)[a] == if keepArticle(a) then multiset(s.articles)[a] else 0 {
        FilterCount(s.articles, keepArticle, a);
      }
    }
    State(s.defaultGroups, feeds, Drop(s.selectedFeeds, url), articles)
  }

  /* ---------- lookup ---------- */

  /** The match rule shared by `setSelectedFeed` and the delete action: exact URL, or case-insensitive name substring. */
  predicate FeedMatches(f: Feed, query: string) {
    f.url == query || Contains(ToLower(f.name), ToLower(query))
  }

  /** `allFeeds.find(...)` with the match rule above: the index of the first matching feed. */
  function FindFeed(s: State, query: string): (r: Option<nat>)
    ensures r.Some? ==> r.value < |AllFeeds(s)| && FeedMatches(AllFeeds(s)[r.value], query)
    ensures r.Some? ==> forall j :: 0 <= j < r.value ==> !FeedMatches(AllFeeds(s)[j], query)
    ensures r.None? ==> forall j :: 0 <= j < |AllFeeds(s)| ==> !FeedMatches(AllFeeds(s)[j], query)
  {
    FindIndex(AllFeeds(s), (f: Feed) => FeedMatches(f, query))
  }

  datatype SelectResult = SelectResult(state: State, found: Option<string>)

  /**
   * `setSelectedFeed`: selects the first matching feed unless it already is
   * selected (so it never deselects) and reports the feed's name.
   */
  function SetSelectedFeed(s: State, query: string): (r: SelectResult)
    ensures FindFeed(s, query).None? ==> r == SelectResult(s, None)
    ensures FindFeed(s, query).Some? ==>
      var f := AllFeeds(s)[FindFeed(s, query).value];
      && r.found == Some(f.name)
      && f.url in r.state.selectedFeeds
      && r.state.selectedFeeds == if f.url in s.selectedFeeds then s.selectedFeeds else s.selectedFeeds + [f.url]
    ensures forall u :: u in s.selectedFeeds ==> u in r.state.selectedFeeds
    ensures r.state == s.(selectedFeeds := r.state.selectedFeeds)
  {
    match FindFeed(s, query)
    case None => SelectResult(s, None)
    case Some(i) =>
      var f := AllFeeds(s)[i];
      var next := if f.url !in s.selectedFeeds then ToggleFeed(s, f.url) else s;
      SelectResult(next, Some(f.name))
  }

  /* ---------- the article cache ---------- */

  /** The sort key of an article: its parsed date, or `now` for `LATEST`. */
  function DateKey(now: int, parseDate: string -> int): Article -> int {
    (a: Article) => if a.date == LatestDate then now else parseDate(a.date)
  }

  function Links(articles: seq<Article>): set<string> {
    set a | a in articles :: a.link
  }

  /** The incoming articles whose link is not cached yet (duplicates among them are kept). */
  function FreshArticles(cached: seq<Article>, incoming: seq<Article>): (r: seq<Article>)
    ensures forall i :: 0 <= i < |r| ==> r[i].link !in Links(cached)
    ensures IsSubseq(r, incoming)
    ensures forall i :: 0 <= i < |incoming| && incoming[i].link !in Links(cached) ==> incoming[i] in r
    ensures forall a :: multiset(r)[a] == if a.link !in Links(cached) then multiset(incoming)[a] else 0
  {
    var known := Links(cached);
    var p := (a: Article) => a.link !in known;
    var r := Filter(incoming, p);
    assert forall a :: multiset(r)[a] == if p(a) then multiset(incoming)[a] else 0 by {
      forall a ensures multiset(r)[a] == if p(a) then multiset(incoming)[a] else 0 {
        FilterCount(incoming, p, a);
      }
    }
    r
  }

  /**
   * `mergeArticles`: the fresh articles join the cache, and the cache is
   * re-sorted newest first; with nothing fresh the cache is left alone.
   */
  function MergeArticles(s: State, incoming: seq<Article>, now: int, parseDate: string -> int): (r: State)
    ensures (forall i :: 0 <= i < |incoming| ==> incoming[i].link in Links(s.articles)) ==> r == s
    ensures |r.articles| == |s.articles| + |FreshArticles(s.articles, incoming)|
    ensures |FreshArticles(s.articles, incoming)| > 0 ==>
      && multiset(r.articles) == multiset(FreshArticles(s.articles, incoming) + s.articles)
      && SortedDesc(r.articles, DateKey(now, parseDate))
    ensures r == s.(articles := r.articles)
  {
    var unseen := FreshArticles(s.articles, incoming);
    if |unseen| > 0 then s.(articles := SortDesc(unseen + s.articles, DateKey(now, parseDate)))
    else s
  }

  /**
   * An article dated `LATEST` sorts as the current time: after a merge,
   * everything listed before it is dated no earlier than now, and everything
   * after it no later.
   */
  lemma LatestSortsAsNow(s: State, incoming: seq<Article>, now: int, parseDate: string -> int, i: nat, j: nat)
    requires |FreshArticles(s.articles, incoming)| > 0
    requires i < j < |MergeArticles(s, incoming, now, parseDate).articles|
    ensures var r := MergeArticles(s, incoming, now, parseDate).articles;
      r[j].date == LatestDate ==> (r[i].date == LatestDate || parseDate(r[i].date) >= now)
    ensures var r := MergeArticles(s, incoming, now, parseDate).articles;
      r[i].date == LatestDate ==> (r[j].date == LatestDate || parseDate(r[j].date) <= now)
  {
    var r := MergeArticles(s, incoming, now, parseDate).articles;
    var key := DateKey(now, parseDate);
    assert key(r[i]) >= key(r[j]);
  }

  /** `saveArticles`: only the first `MaxSavedArticles` cached articles are written. */
  function SavedArticles(s: State): (r: seq<Article>)
    ensures |r| <= MaxSavedArticles
    ensures |r| == if |s.articles| <= MaxSavedArticles then |s.articles| else MaxSavedArticles
    ensures r <= s.articles
    ensures |s.articles| <= MaxSavedArticles ==> r == s.articles
  {
    if |s.articles| <= MaxSavedArticles then s.articles else s.articles[..MaxSavedArticles]
  }
}
