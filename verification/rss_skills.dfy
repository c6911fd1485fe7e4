/**
 * The `rss_skills` tool: the assistant's actions on the news reader. Every
 * action except `list_feeds` first asks the host to open the news tab; errors
 * raised inside an action come back as "News Skill Error: ..." replies.
 */
module RssSkills {
  import opened Common
  import opened Strings
  import opened NewsState

  datatype Action =
    | SwitchFeed | FetchHeadlines | Refresh | AddFeedAction | ListFeeds | DeleteFeed
    | MarkAllRead | FilterUnread | FilterAll
    | Unknown(name: string)

  datatype Args = Args(action: Action, source: Option<string>, name: Option<string>)

  /** The outcome of the proxy fetch of a feed: its item titles (absent when the payload has no `items`), or an error. */
  datatype FeedResponse = Fetched(titles: Option<seq<string>>) | FetchFailed(error: string)

  const DefaultFeedName := "Neural Source"
  const HeadlineCount := 5
  const ErrorPrefix := "News Skill Error: "
  const Ignored := "Action ignored."
  /** What the runtime reports for reading `.url` of the missing first feed. */
  const NoFeedMessage := "Cannot read properties of undefined (reading 'url')"

  /** The tab request: the news tab, for every action but `list_feeds`, when the host offers `setTab`. */
  function TabFor(hasSetTab: bool, action: Action): (r: Option<string>)
    ensures r.Some? <==> hasSetTab && action != ListFeeds
    ensures r.Some? ==> r.value == "news"
  {
    if hasSetTab && action != ListFeeds then Some("news") else None
  }

  function FeedNames(feeds: seq<Feed>): (r: seq<string>)
    ensures |r| == |feeds| && forall i :: 0 <= i < |feeds| ==> r[i] == feeds[i].name
  {
    seq(|feeds|, i requires 0 <= i < |feeds| => feeds[i].name)
  }

  /** `list_feeds`: every directory name, and the number of active feeds, or "All" when none is selected. */
  function ListFeedsReply(s: State): (r: string)
    ensures |s.selectedFeeds| == 0 ==>
      r == "Available Sources: " + Join(FeedNames(AllFeeds(s)), ", ") + ". currently active: All"
    ensures |s.selectedFeeds| > 0 ==>
      r == "Available Sources: " + Join(FeedNames(AllFeeds(s)), ", ") + ". currently active: "
           + NatToString(|s.selectedFeeds|)
  {
    var count := if |s.selectedFeeds| == 0 then "All" else NatToString(|s.selectedFeeds|);
    "Available Sources: " + Join(FeedNames(AllFeeds(s)), ", ") + ". currently active: " + count
  }

  /** `switch_feed`: needs a source; otherwise selects the first matching feed. */
  function SwitchFeedAction(s: State, source: Option<string>): (r: (State, string))
    ensures !Truthy(source) ==> r == (s, "Error: source name required to toggle source.")
    ensures Truthy(source) ==> r.0 == SetSelectedFeed(s, source.value).state
    ensures Truthy(source) && FindFeed(s, source.value).None? ==>
      r == (s, "News source \"" + source.value + "\" not found in system directory.")
    ensures Truthy(source) && FindFeed(s, source.value).Some? ==>
      r.1 == "Toggled news source: " + AllFeeds(s)[FindFeed(s, source.value).value].name
  {
    if !Truthy(source) then (s, "Error: source name required to toggle source.")
    else
      var res := SetSelectedFeed(s, source.value);
      match res.found
      case Some(name) => (res.state, "Toggled news source: " + name)
      case None => (res.state, "News source \"" + source.value + "\" not found in system directory.")
  }

  /**
   * `add_feed`: refuses a missing source or one not starting with "http"; the
   * success reply does not depend on whether `addFeed` accepted the URL.
   */
  function AddFeedReply(s: State, source: Option<string>, name: Option<string>, isValidUrl: string -> bool): (r: (State, string))
    ensures !Truthy(source) || !("http" <= source.value) ==>
      r == (s, "Error: Valid RSS URL required to add source.")
    ensures Truthy(source) && "http" <= source.value ==>
      && r.0 == AddFeed(s, OrElse(name, DefaultFeedName), source.value, isValidUrl).state
      && r.1 == "Source '" + OrElse(name, DefaultFeedName) + "' connected to neural stream."
  {
    if !Truthy(source) || !("http" <= source.value) then (s, "Error: Valid RSS URL required to add source.")
    else
      var feedName := OrElse(name, DefaultFeedName);
      (AddFeed(s, feedName, source.value, isValidUrl).state, "Source '" + feedName + "' connected to neural stream.")
  }

  /** `delete_feed`: finds the first matching feed; only custom feeds may be removed. */
  function DeleteFeedAction(s: State, source: Option<string>): (r: (State, string))
    ensures !Truthy(source) ==> r == (s, "Error: source required to delete.")
    ensures Truthy(source) && FindFeed(s, source.value).None? ==>
      r == (s, "Error: Could not find source matching \"" + source.value + "\" to delete.")
    ensures Truthy(source) && FindFeed(s, source.value).Some? ==>
      var f := AllFeeds(s)[FindFeed(s, source.value).value];
      && (!f.custom ==> r == (s, "Error: System sources cannot be deleted, only custom ones."))
      && (f.custom ==> r == (RemoveFeed(s, f.url), "Source '" + f.name + "' has been disconnected from your stream."))
  {
    if !Truthy(source) then (s, "Error: source required to delete.")
    else
      match FindFeed(s, source.value)
      case None => (s, "Error: Could not find source matching \"" + source.value + "\" to delete.")
      case Some(i) =>
        var f := AllFeeds(s)[i];
        if !f.custom then (s, "Error: System sources cannot be deleted, only custom ones.")
        else (RemoveFeed(s, f.url), "Source '" + f.name + "' has been disconnected from your stream.")
  }

  /** The URL `fetch_headlines` reads: the given source, else the first selected URL, else the first directory feed. */
  function HeadlinesTarget(s: State, source: Option<string>): (r: Option<string>)
    ensures Truthy(source) ==> r == Some(source.value)
    ensures !Truthy(source) && |s.selectedFeeds| > 0 ==> r == Some(s.selectedFeeds[0])
    ensures !Truthy(source) && |s.selectedFeeds| == 0 && |AllFeeds(s)| > 0 ==> r == Some(AllFeeds(s)[0].url)
    ensures r.None? <==> !Truthy(source) && |s.selectedFeeds| == 0 && |AllFeeds(s)| == 0
  {
    if Truthy(source) then Some(source.value)
    else if |s.selectedFeeds| > 0 then Some(s.selectedFeeds[0])
    else if |AllFeeds(s)| > 0 then Some(AllFeeds(s)[0].url)
    else None
  }

  function Take(titles: seq<string>, n: nat): (r: seq<string>)
    ensures |r| == (if |titles| <= n then |titles| else n)
    ensures r == titles[..|r|]
  {
    if |titles| <= n then titles else titles[..n]
  }

  /** `fetch_headlines`: at most five titles of the target feed, or the fetch error. */
  function HeadlinesReply(s: State, source: Option<string>, fetch: string -> FeedResponse): (r: string)
    ensures HeadlinesTarget(s, source).None? ==> r == ErrorPrefix + NoFeedMessage
    ensures HeadlinesTarget(s, source).Some? && fetch(HeadlinesTarget(s, source).value).FetchFailed? ==>
      r == "RSS Fetch failed: " + fetch(HeadlinesTarget(s, source).value).error
    ensures HeadlinesTarget(s, source).Some? && fetch(HeadlinesTarget(s, source).value).Fetched? ==>
      var titles := fetch(HeadlinesTarget(s, source).value).titles;
      r == "Latest Headlines from " + OrElse(source, "primary source") + ": "
           + (if titles.None? then "undefined"
              else Join(titles.value[..if |titles.value| <= HeadlineCount then |titles.value| else HeadlineCount], " | "))
  {
    match HeadlinesTarget(s, source)
    case None => ErrorPrefix + NoFeedMessage
    case Some(url) =>
      match fetch(url)
      case FetchFailed(e) => "RSS Fetch failed: " + e
      case Fetched(titles) =>
        var items := match titles
          case None => "undefined"
          case Some(ts) => Join(Take(ts, HeadlineCount), " | ");
        "Latest Headlines from " + OrElse(source, "primary source") + ": " + items
  }

  /**
   * The handler. `isValidUrl` stands for the `new URL(...)` check inside
   * `addFeed`; `fetch` for the proxy request of `fetch_headlines`. The actions
   * `mark_all_read`, `filter_unread` and `filter_all` call methods that the news
   * state does not define, so they end in the error reply.
   */
  function Handle(hasSetTab: bool, s: State, args: Args, isValidUrl: string -> bool, fetch: string -> FeedResponse): (r: Reply<State>)
    ensures r.tab == TabFor(hasSetTab, args.action)
    ensures args.action == ListFeeds ==> r.state == s && r.text == ListFeedsReply(s)
    ensures args.action == SwitchFeed ==> (r.state, r.text) == SwitchFeedAction(s, args.source)
    ensures args.action == AddFeedAction ==> (r.state, r.text) == AddFeedReply(s, args.source, args.name, isValidUrl)
    ensures args.action == DeleteFeed ==> (r.state, r.text) == DeleteFeedAction(s, args.source)
    ensures args.action == FetchHeadlines ==> r.state == s && r.text == HeadlinesReply(s, args.source, fetch)
    ensures args.action == Refresh ==> r.state == s && r.text == "Refreshing news stream from active sources..."
    ensures args.action in {MarkAllRead, FilterUnread, FilterAll} ==> r.state == s && ErrorPrefix <= r.text
    ensures args.action.Unknown? ==> r.state == s && r.text == Ignored
  {
    var tab := TabFor(hasSetTab, args.action);
    match args.action
    case ListFeeds => Reply(s, ListFeedsReply(s), tab)
    case SwitchFeed =>
      var (s', text) := SwitchFeedAction(s, args.source);
      Reply(s', text, tab)
    case AddFeedAction =>
      var (s', text) := AddFeedReply(s, args.source, args.name, isValidUrl);
      Reply(s', text, tab)
    case DeleteFeed =>
      var (s', text) := DeleteFeedAction(s, args.source);
      Reply(s', text, tab)
    case Refresh => Reply(s, "Refreshing news stream from active sources...", tab)
    case MarkAllRead => Reply(s, ErrorPrefix + "newsState.markAllAsRead is not a function", tab)
    case FilterUnread => Reply(s, ErrorPrefix + "newsState.setFilterMode is not a function", tab)
    case FilterAll => Reply(s, ErrorPrefix + "newsState.setFilterMode is not a function", tab)
    case FetchHeadlines => Reply(s, HeadlinesReply(s, args.source, fetch), tab)
    case Unknown(_) => Reply(s, Ignored, tab)
  }

  /**
   * `delete_feed` never touches the bundled directory, and when it changes
   * anything it was a custom feed that matched, whose URL is then gone from
   * the custom feeds and from the selection.
   */
  lemma DeleteOnlyCustom(s: State, source: Option<string>)
    ensures DefaultFeeds(DeleteFeedAction(s, source).0) == DefaultFeeds(s)
    ensures var t := DeleteFeedAction(s, source).0;
      t != s ==>
        && Truthy(source) && FindFeed(s, source.value).Some?
        && var f := AllFeeds(s)[FindFeed(s, source.value).value];
        && f.custom
        && (forall i :: 0 <= i < |t.customFeeds| ==> t.customFeeds[i].url != f.url)
        && f.url !in t.selectedFeeds
  {
    var t := DeleteFeedAction(s, source).0;
    if Truthy(source) && FindFeed(s, source.value).Some? {
      var f := AllFeeds(s)[FindFeed(s, source.value).value];
      if f.custom {
        assert t == RemoveFeed(s, f.url);
      }
    }
  }
}
