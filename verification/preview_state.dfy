/**
 * The link-preview panel's state (`PreviewState`): which platform previews are
 * shown, and the metadata fetch for the URL the user typed. The fetch itself
 * is an input: its outcome, and the host name `new URL(...)` would parse.
 */
module PreviewState {
  import opened Common
  import opened Strings
  import opened Seqs

  /** The metadata shown after a successful fetch, defaults filled in. */
  datatype Metadata = Metadata(title: string, description: string, image: string, siteName: string)

  datatype State = State(
    inputUrl: string,
    metadata: Option<Metadata>,
    loading: bool,
    error: string,
    visiblePreviews: seq<string>)

  function Initial(): (r: State)
    ensures r.visiblePreviews == ["WhatsApp"] && r.metadata.None? && !r.loading && r.error == ""
  {
    State("", None, false, "", ["WhatsApp"])
  }

  /** Names are compared without regard to case. */
  predicate SameName(a: string, b: string) {
    ToLower(a) == ToLower(b)
  }

  /** `togglePreview`: drop the first entry naming the same platform, or append the name when there is none. */
  function TogglePreview(s: State, name: string): (r: State)
    ensures r == s.(visiblePreviews := r.visiblePreviews)
    ensures var v := s.visiblePreviews;
      match FindIndex(v, (p: string) => SameName(p, name))
      case Some(i) => r.visiblePreviews == v[..i] + v[i + 1..]
      case None => r.visiblePreviews == v + [name]
  {
    var v := s.visiblePreviews;
    match FindIndex(v, (p: string) => SameName(p, name))
    case Some(i) => s.(visiblePreviews := v[..i] + v[i + 1..])
    case None => s.(visiblePreviews := v + [name])
  }

  /** Only the first match goes: entries before it stay, and a later entry with the same name stays too. */
  lemma ToggleRemovesFirstOnly(s: State, name: string, i: nat)
    requires i < |s.visiblePreviews| && SameName(s.visiblePreviews[i], name)
    requires forall j :: 0 <= j < i ==> !SameName(s.visiblePreviews[j], name)
    ensures TogglePreview(s, name).visiblePreviews == s.visiblePreviews[..i] + s.visiblePreviews[i + 1..]
  {
    var p := (q: string) => SameName(q, name);
    var k := FindIndex(s.visiblePreviews, p);
    assert p(s.visiblePreviews[i]);
    assert k.Some?;
    assert k.value == i;
  }

  /** Toggling a platform that is not shown, twice, gives back the list it started from. */
  lemma ToggleTwiceRestores(s: State, name: string)
    requires forall j :: 0 <= j < |s.visiblePreviews| ==> !SameName(s.visiblePreviews[j], name)
    ensures TogglePreview(TogglePreview(s, name), name) == s
  {
    var v := s.visiblePreviews;
    var once := TogglePreview(s, name);
    assert once.visiblePreviews == v + [name];
    ToggleRemovesFirstOnly(once, name, |v|);
    assert (v + [name])[..|v|] == v;
  }

  /** `inputUrl.startsWith('http') ? inputUrl : 'https://' + inputUrl`. */
  function NormalizeUrl(url: string): (r: string)
    ensures "http" <= r
    ensures "http" <= url ==> r == url
    ensures !("http" <= url) ==> r == "https://" + url
  {
    if "http" <= url then url else "https://" + url
  }

  lemma NormalizeUrlIdempotent(url: string)
    ensures NormalizeUrl(NormalizeUrl(url)) == NormalizeUrl(url)
  {
  }

  /** The fields a page's metadata may carry; None or "" count as missing. */
  datatype RawMetadata = RawMetadata(title: Option<string>, description: Option<string>, image: Option<string>,
                                     siteName: Option<string>)

  /** What the fetch gave back: data, a reported failure, or an exception with its message. */
  datatype FetchOutcome = Fetched(data: RawMetadata) | Failed(error: Option<string>) | Thrown(message: string)

  /** What `new URL(inputUrl).hostname` gives: a host name, or the message of the exception it throws. */
  datatype HostName = Host(name: string) | BadUrl(message: string)

  /** The state as the request goes out: the URL normalised, loading, error and metadata cleared. None when the input is empty. */
  function BeginFetch(s: State): (r: Option<State>)
    ensures r.None? <==> s.inputUrl == ""
    ensures r.Some? ==> r.value == s.(inputUrl := NormalizeUrl(s.inputUrl), loading := true, error := "", metadata := None)
  {
    if s.inputUrl == "" then None
    else Some(s.(inputUrl := NormalizeUrl(s.inputUrl), loading := true, error := "", metadata := None))
  }

  /** The metadata record built from a successful fetch, each missing field replaced by its default. */
  function FillDefaults(data: RawMetadata, host: string): (r: Metadata)
    ensures r.title == (if Truthy(data.title) then data.title.value else "No Title Detected")
    ensures r.description == (if Truthy(data.description) then data.description.value else "No description found for this protocol.")
    ensures r.image == (if Truthy(data.image) then data.image.value else "")
    ensures r.siteName == (if Truthy(data.siteName) then data.siteName.value else host)
    ensures r.title != "" && r.description != ""
  {
    Metadata(OrElse(data.title, "No Title Detected"), OrElse(data.description, "No description found for this protocol."),
             OrElse(data.image, ""), OrElse(data.siteName, host))
  }

  /** The state once the request has settled; `loading` is cleared on every path. */
  function FinishFetch(s: State, outcome: FetchOutcome, host: HostName): (r: State)
    ensures !r.loading
    ensures r.inputUrl == s.inputUrl && r.visiblePreviews == s.visiblePreviews
    ensures r.metadata.Some? && s.metadata.None? ==> outcome.Fetched? && (Truthy(outcome.data.siteName) || host.Host?)
    ensures outcome.Fetched? && (Truthy(outcome.data.siteName) || host.Host?) ==>
      r.metadata == Some(FillDefaults(outcome.data, if host.Host? then host.name else "")) && r.error == s.error
    ensures outcome.Fetched? && !Truthy(outcome.data.siteName) && host.BadUrl? ==>
      r.metadata == s.metadata && r.error == host.message
    ensures outcome.Failed? ==> r.metadata == s.metadata && r.error == OrElse(outcome.error, "Failed to fetch metadata")
    ensures outcome.Thrown? ==> r.metadata == s.metadata && r.error == outcome.message
  {
    var t := s.(loading := false);
    match outcome
    case Fetched(data) =>
      if Truthy(data.siteName) then t.(metadata := Some(FillDefaults(data, "")))
      else
        (match host
         case Host(name) => t.(metadata := Some(FillDefaults(data, name)))
         case BadUrl(message) => t.(error := message))
    case Failed(e) => t.(error := OrElse(e, "Failed to fetch metadata"))
    case Thrown(message) => t.(error := message)
  }

  /** `fetch` from start to finish; an empty input leaves the state as it was. */
  function Fetch(s: State, outcome: FetchOutcome, host: HostName): (r: State)
    ensures s.inputUrl == "" ==> r == s
    ensures s.inputUrl != "" ==> "http" <= r.inputUrl && !r.loading
    ensures s.inputUrl != "" && r.metadata.Some? ==> r.error == ""
    ensures s.inputUrl != "" && r.error != "" ==> r.metadata.None?
  {
    match BeginFetch(s)
    case None => s
    case Some(t) => FinishFetch(t, outcome, host)
  }

  /** A successful fetch of a page without metadata shows the defaults and the host name. */
  lemma EmptyPageDefaults(s: State, host: string)
    requires s.inputUrl != ""
    ensures Fetch(s, Fetched(RawMetadata(None, None, None, None)), Host(host)).metadata
      == Some(Metadata("No Title Detected", "No description found for this protocol.", "", host))
  {
  }
}
