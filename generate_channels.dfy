/** generate_channels.py: the synchronous scraper. Beyond the shared channel rules it has its own
    stream resolution (four patterns, the capture stripped before joining, and a fallback to the
    response's final URL) and a main loop that resolves the channels one after another. */
module GenerateChannels {
  import opened Wrappers
  import opened Seqs
  import Text
  import M3U
  import Cascade
  import opened Channels

  const BaseUrl := "http://redforce.live/"

  /** A player page after `raise_for_status()`: its body `r.text` and its final URL `r.url`. */
  datatype Response = Response(text: string, url: string)

  /** `session.get(url)`: `None` when it raises a `RequestException` or the status is an error. */
  type Fetch = string -> Option<Response>

  function SiteOf(join: UrlJoin): Site {
    Site(BaseUrl, join, JoinIfSrc)
  }

  /** `urljoin(BASE_URL, f"player.php?stream={stream_id}")`. */
  function PlayerUrl(join: UrlJoin, streamId: string): string {
    join(BaseUrl, "player.php?stream=" + streamId)
  }

  /** What `resolve_stream_url` returns once the player page has been fetched (or not). */
  function StreamUrlOf(join: UrlJoin, patterns: seq<Cascade.Matcher>, playerUrl: string, resp: Option<Response>): Option<string> {
    match resp
    case None => None
    case Some(r) =>
      match Cascade.FirstHit(patterns, r.text)
      case Some(m) => Some(join(playerUrl, Text.Strip(m)))
      case None => if Text.Contains(r.url, ".m3u8") then Some(r.url) else None
  }

  /** A failed fetch resolves to nothing; otherwise the first matching pattern wins, its capture
      stripped and joined with the player URL; when no pattern matches, the final URL is the
      answer exactly when it contains ".m3u8". */
  lemma StreamUrlCases(join: UrlJoin, patterns: seq<Cascade.Matcher>, playerUrl: string, resp: Option<Response>)
    ensures resp.None? ==> StreamUrlOf(join, patterns, playerUrl, resp).None?
    ensures resp.Some? ==> forall k ::
      (0 <= k < |patterns| && patterns[k](resp.value.text).Some?
       && (forall j :: 0 <= j < k ==> patterns[j](resp.value.text).None?))
      ==> StreamUrlOf(join, patterns, playerUrl, resp)
          == Some(join(playerUrl, Text.Strip(patterns[k](resp.value.text).value)))
    ensures resp.Some? && (forall k :: 0 <= k < |patterns| ==> patterns[k](resp.value.text).None?) ==>
      StreamUrlOf(join, patterns, playerUrl, resp) ==
        if Text.Contains(resp.value.url, ".m3u8") then Some(resp.value.url) else None
  {
    if resp.Some? {
      var text := resp.value.text;
      Cascade.FirstHitSpec(patterns, text);
      forall k | 0 <= k < |patterns| && patterns[k](text).Some?
        && (forall j :: 0 <= j < k ==> patterns[j](text).None?)
        ensures Cascade.FirstHit(patterns, text) == patterns[k](text)
      {
        Cascade.FirstHitIsFirst(patterns, text, k);
      }
    }
  }

  /** `resolve_stream_url(session, stream_id)`. */
  method ResolveStreamUrl(join: UrlJoin, patterns: seq<Cascade.Matcher>, fetch: Fetch, streamId: string)
    returns (url: Option<string>)
    ensures url == StreamUrlOf(join, patterns, PlayerUrl(join, streamId), fetch(PlayerUrl(join, streamId)))
  {
    var playerUrl := PlayerUrl(join, streamId);
    var resp := fetch(playerUrl);
    if resp.None? {
      return None;
    }
    var m := Cascade.FirstMatch(patterns, resp.value.text);
    if m.Some? {
      return Some(join(playerUrl, Text.Strip(m.value)));
    }
    if Text.Contains(resp.value.url, ".m3u8") {
      return Some(resp.value.url);
    }
    return None;
  }

  /** One channel of the main loop: kept, with its stream URL, when the URL is truthy (non-empty). */
  function ResolvedOf(join: UrlJoin, patterns: seq<Cascade.Matcher>, fetch: Fetch, ch: Listing): Option<Resolved> {
    var playerUrl := PlayerUrl(join, ch.streamId);
    match StreamUrlOf(join, patterns, playerUrl, fetch(playerUrl))
    case Some(u) => if u != "" then Some(Resolved(ch, u)) else None
    case None => None
  }

  function Resolver(join: UrlJoin, patterns: seq<Cascade.Matcher>, fetch: Fetch): Listing -> Option<Resolved> {
    ch => ResolvedOf(join, patterns, fetch, ch)
  }

  /** The channels extracted from the listing page (none when the page could not be fetched). */
  function ListedChannels(join: UrlJoin, page: Option<seq<Item>>): seq<Listing> {
    match page
    case None => []
    case Some(items) => FilterMap(items, Extractor(SiteOf(join)))
  }

  /** `resolved` as `main` builds it. */
  function ResolvedChannels(join: UrlJoin, patterns: seq<Cascade.Matcher>, fetch: Fetch, page: Option<seq<Item>>): seq<Resolved> {
    FilterMap(ListedChannels(join, page), Resolver(join, patterns, fetch))
  }

  /** `resolved` keeps, in listing order, exactly the channels whose resolution gave a non-empty
      URL, each with that URL and with its listing unchanged. */
  lemma ResolvedInOrder(join: UrlJoin, patterns: seq<Cascade.Matcher>, fetch: Fetch, page: Option<seq<Item>>)
    ensures var chs, rs := ListedChannels(join, page), ResolvedChannels(join, patterns, fetch, page);
      var idx := Kept(chs, Resolver(join, patterns, fetch));
      |idx| == |rs| && Increasing(idx)
      && (forall k :: 0 <= k < |idx| ==>
            (idx[k] < |chs| && rs[k].listing == chs[idx[k]] && rs[k].streamUrl != ""
             && Some(rs[k].streamUrl) == StreamUrlOf(join, patterns, PlayerUrl(join, chs[idx[k]].streamId),
                                                     fetch(PlayerUrl(join, chs[idx[k]].streamId)))))
      && (forall j :: 0 <= j < |chs| ==>
            (j in idx <==> var u := StreamUrlOf(join, patterns, PlayerUrl(join, chs[j].streamId),
                                                fetch(PlayerUrl(join, chs[j].streamId)));
                           u.Some? && u.value != ""))
  {
    var chs := ListedChannels(join, page);
    FilterMapKeeps(chs, Resolver(join, patterns, fetch));
  }

  /** The loop of `main`: resolve the channels one after another, sleeping `REQUEST_DELAY` after
      each, and keep those whose stream URL is truthy. */
  method ResolveAll(join: UrlJoin, patterns: seq<Cascade.Matcher>, fetch: Fetch, channels: seq<Listing>)
    returns (resolved: seq<Resolved>, sleeps: nat)
    ensures resolved == FilterMap(channels, Resolver(join, patterns, fetch))
    ensures sleeps == |channels|
  {
    resolved, sleeps := [], 0;
    var i := 0;
    while i < |channels|
      invariant 0 <= i <= |channels|
      invariant sleeps == i
      invariant resolved == FilterMap(channels[..i], Resolver(join, patterns, fetch))
    {
      var ch := channels[i];
      var url := ResolveStreamUrl(join, patterns, fetch, ch.streamId);
      sleeps := sleeps + 1;
      assert channels[..i + 1][..i] == channels[..i];
      assert Resolver(join, patterns, fetch)(ch)
        == if url.Some? && url.value != "" then Some(Resolved(ch, url.value)) else None;
      if url.Some? && url.value != "" {
        resolved := resolved + [Resolved(ch, url.value)];
      }
      i := i + 1;
    }
    assert channels[..i] == channels;
  }

  /** `main`: fetch the listing page (`None` when `get_page` raises), extract the channels,
      resolve them one by one, and write the playlist only when at least one channel resolved.
      `output` is the text written to channels.m3u, if any. */
  method Run(join: UrlJoin, patterns: seq<Cascade.Matcher>, fetch: Fetch, page: Option<seq<Item>>)
    returns (output: Option<string>, counts: seq<(string, nat)>, sleeps: nat)
    ensures var resolved := ResolvedChannels(join, patterns, fetch, page);
      && (output.Some? <==> resolved != [])
      && (output.Some? ==> output.value == M3U.Render(Map(resolved, EntryOf))
                           && counts == CategoryCounts(resolved))
      && (output.None? ==> counts == [])
    ensures sleeps == |ListedChannels(join, page)|
  {
    output, counts, sleeps := None, [], 0;
    if page.None? {
      return;
    }
    var rawChannels := ExtractChannels(SiteOf(join), page.value);
    if rawChannels == [] {
      return;
    }
    var resolved;
    resolved, sleeps := ResolveAll(join, patterns, fetch, rawChannels);
    if resolved != [] {
      var text := BuildM3U(resolved);
      output := Some(text);
      counts := CategoryCounts(resolved);
    }
  }
}
