/** generate_channels-rforce.py: the asynchronous scraper. Its own parts are the bounded retry loop
    `fetch_text`, a three-pattern resolution with no final-URL fallback, and a `main` that resolves
    every channel as a task and keeps the successful results in channel order. */
module GenerateChannelsRforce {
  import opened Wrappers
  import opened Seqs
  import Text
  import M3U
  import Cascade
  import opened Channels

  const BaseUrl := "http://redforce.live/"
  const MaxRetries := 3

  /** The outcome of one `session.get` attempt: the body of a successful response, or a
      `ClientError`/`TimeoutError` (an error status counts as one, through `raise_for_status`). */
  datatype Attempt = Body(text: string) | Failed

  /** The outcome of each numbered attempt (1, 2, ...) of one fetch. */
  type Attempts = nat -> Attempt

  /** The body of the first successful attempt among attempts `from` to `retries`. */
  function FirstBody(outcome: Attempts, from: nat, retries: int): Option<string>
    decreases retries - from
  {
    if from > retries then None
    else match outcome(from)
      case Body(t) => Some(t)
      case Failed => FirstBody(outcome, from + 1, retries)
  }

  /** What `fetch_text(session, url, retries)` returns. */
  function FetchResult(outcome: Attempts, retries: int): Option<string> {
    FirstBody(outcome, 1, retries)
  }

  /** `fetch_text`: tries at most `retries` times, stops at the first success, and sleeps
      `RETRY_BACKOFF ** attempt` after every failed attempt but the last. `attempts` counts the
      attempts made and `backoffs` lists the exponents of the sleeps in order. */
  method FetchText(outcome: Attempts, retries: int) returns (body: Option<string>, attempts: nat, backoffs: seq<nat>)
    ensures body == FetchResult(outcome, retries)
    ensures attempts <= (if retries > 0 then retries else 0)
    ensures forall k :: 1 <= k < attempts ==> outcome(k).Failed?
    ensures body.Some? ==> attempts >= 1 && outcome(attempts) == Body(body.value)
    ensures body.None? ==> attempts == (if retries > 0 then retries else 0)
                           && (attempts >= 1 ==> outcome(attempts).Failed?)
    ensures |backoffs| == (if attempts == 0 then 0 else attempts - 1)
    ensures forall i :: 0 <= i < |backoffs| ==> backoffs[i] == i + 1
  {
    body, attempts, backoffs := None, 0, [];
    var attempt: nat := 1;
    while attempt <= retries
      invariant 1 <= attempt && (attempt == 1 || attempt <= retries)
      invariant attempts == attempt - 1
      invariant forall k :: 1 <= k < attempt ==> outcome(k).Failed?
      invariant FetchResult(outcome, retries) == FirstBody(outcome, attempt, retries)
      invariant |backoffs| == attempt - 1
      invariant forall i :: 0 <= i < |backoffs| ==> backoffs[i] == i + 1
    {
      attempts := attempt;
      match outcome(attempt)
      case Body(t) => {
        return Some(t), attempts, backoffs;
      }
      case Failed => {
        if attempt == retries {
          return None, attempts, backoffs;
        }
        backoffs := backoffs + [attempt];
        attempt := attempt + 1;
      }
    }
    return None, attempts, backoffs;
  }

  /** `fetch_text` with its default bound gives up exactly when all three attempts fail. */
  lemma DefaultBound(outcome: Attempts)
    ensures FetchResult(outcome, MaxRetries).None? <==>
      outcome(1).Failed? && outcome(2).Failed? && outcome(3).Failed?
  {
  }

  /** `session.get` attempts against each URL: `net(url, k)` is the outcome of attempt `k`. */
  type Network = (string, nat) -> Attempt

  function AttemptsAt(net: Network, url: string): Attempts {
    (k: nat) => net(url, k)
  }

  function SiteOf(join: UrlJoin): Site {
    Site(BaseUrl, join, AlwaysJoin)
  }

  /** `urljoin(BASE_URL, f"player.php?stream={stream_id}")`. */
  function PlayerUrl(join: UrlJoin, streamId: string): string {
    join(BaseUrl, "player.php?stream=" + streamId)
  }

  /** What `resolve_stream` returns for a channel: nothing when the page fetch gives no body or an
      empty one, otherwise the channel with the join of the first pattern capture, if any. */
  function StreamOf(join: UrlJoin, patterns: seq<Cascade.Matcher>, net: Network, ch: Listing): Option<Resolved> {
    var playerUrl := PlayerUrl(join, ch.streamId);
    match FetchResult(AttemptsAt(net, playerUrl), MaxRetries)
    case None => None
    case Some(html) =>
      if html == "" then None
      else match Cascade.FirstHit(patterns, html)
        case Some(m) => Some(Resolved(ch, join(playerUrl, m)))
        case None => None
  }

  /** A fetch that gives no body or an empty one resolves to nothing. Otherwise the channel comes
      back unchanged with the join of the first matching pattern's capture; when
      no pattern matches there is no result (no fallback to the final URL). */
  lemma StreamOfCases(join: UrlJoin, patterns: seq<Cascade.Matcher>, net: Network, ch: Listing)
    ensures var html := FetchResult(AttemptsAt(net, PlayerUrl(join, ch.streamId)), MaxRetries);
      (html.None? || html.value == "") ==> StreamOf(join, patterns, net, ch).None?
    ensures StreamOf(join, patterns, net, ch).Some? ==> StreamOf(join, patterns, net, ch).value.listing == ch
    ensures var html := FetchResult(AttemptsAt(net, PlayerUrl(join, ch.streamId)), MaxRetries);
      html.Some? && html.value != "" ==>
        && (forall k :: 0 <= k < |patterns| ==> patterns[k](html.value).None?) == StreamOf(join, patterns, net, ch).None?
        && forall k ::
             (0 <= k < |patterns| && patterns[k](html.value).Some?
              && (forall j :: 0 <= j < k ==> patterns[j](html.value).None?))
             ==> StreamOf(join, patterns, net, ch)
                 == Some(Resolved(ch, join(PlayerUrl(join, ch.streamId), patterns[k](html.value).value)))
  {
    var html := FetchResult(AttemptsAt(net, PlayerUrl(join, ch.streamId)), MaxRetries);
    if html.Some? && html.value != "" {
      Cascade.FirstHitSpec(patterns, html.value);
      forall k | 0 <= k < |patterns| && patterns[k](html.value).Some?
        && (forall j :: 0 <= j < k ==> patterns[j](html.value).None?)
        ensures Cascade.FirstHit(patterns, html.value) == patterns[k](html.value)
      {
        Cascade.FirstHitIsFirst(patterns, html.value, k);
      }
    }
  }

  /** `resolve_stream(sem, session, channel)`. */
  method ResolveStream(join: UrlJoin, patterns: seq<Cascade.Matcher>, net: Network, ch: Listing)
    returns (r: Option<Resolved>)
    ensures r == StreamOf(join, patterns, net, ch)
  {
    var playerUrl := PlayerUrl(join, ch.streamId);
    var html, _, _ := FetchText(AttemptsAt(net, playerUrl), MaxRetries);
    if html.None? || html.value == "" {
      return None;
    }
    var m := Cascade.FirstMatch(patterns, html.value);
    if m.Some? {
      return Some(Resolved(ch, join(playerUrl, m.value)));
    }
    return None;
  }

  /** `BASE_URL.rstrip("/") + "/"`. */
  function MainUrl(): string {
    Text.TrimEndChar(BaseUrl, '/') + "/"
  }

  /** The items of the main page; `None` when `get_main_page` raises because the fetch gave no body
      or an empty one. */
  function MainPage(net: Network, parse: string -> seq<Item>): Option<seq<Item>> {
    match FetchResult(AttemptsAt(net, MainUrl()), MaxRetries)
    case None => None
    case Some(html) => if html == "" then None else Some(parse(html))
  }

  function ListedChannels(join: UrlJoin, net: Network, parse: string -> seq<Item>): seq<Listing> {
    match MainPage(net, parse)
    case None => []
    case Some(items) => FilterMap(items, Extractor(SiteOf(join)))
  }

  function Task(join: UrlJoin, patterns: seq<Cascade.Matcher>, net: Network): Listing -> Option<Resolved> {
    ch => StreamOf(join, patterns, net, ch)
  }

  /** The filter of `[r for r in results if r]`: a result tuple is always truthy. */
  function Present(r: Option<Resolved>): Option<Resolved> {
    r
  }

  /** `resolved`: the gathered task results, in channel order, without the failures. */
  function ResolvedChannels(join: UrlJoin, patterns: seq<Cascade.Matcher>, net: Network, parse: string -> seq<Item>): seq<Resolved> {
    FilterMap(Map(ListedChannels(join, net, parse), Task(join, patterns, net)), Present)
  }

  /** `resolved` keeps, in channel order, exactly the channels whose task succeeded, each unchanged
      apart from its stream URL. */
  lemma ResolvedInOrder(join: UrlJoin, patterns: seq<Cascade.Matcher>, net: Network, parse: string -> seq<Item>)
    ensures var chs := ListedChannels(join, net, parse);
      var results := Map(chs, Task(join, patterns, net));
      var rs, idx := ResolvedChannels(join, patterns, net, parse), Kept(results, Present);
      |idx| == |rs| && Increasing(idx)
      && (forall k :: 0 <= k < |idx| ==>
            (idx[k] < |chs| && StreamOf(join, patterns, net, chs[idx[k]]) == Some(rs[k])
             && rs[k].listing == chs[idx[k]]))
      && (forall j :: 0 <= j < |chs| ==> (j in idx <==> StreamOf(join, patterns, net, chs[j]).Some?))
  {
    var chs := ListedChannels(join, net, parse);
    var results := Map(chs, Task(join, patterns, net));
    FilterMapKeeps(results, Present);
    forall j | 0 <= j < |chs| {
      StreamOfCases(join, patterns, net, chs[j]);
    }
  }

  /** `main`: fetch the main page, extract the channels, resolve all of them as tasks, and, when at
      least one resolved, write the playlist and count the categories. `output` is the text written
      to channels-rforce.m3u, if any. */
  method Run(join: UrlJoin, patterns: seq<Cascade.Matcher>, net: Network, parse: string -> seq<Item>)
    returns (output: Option<string>, counts: seq<(string, nat)>)
    ensures var resolved := ResolvedChannels(join, patterns, net, parse);
      && (output.Some? <==> resolved != [])
      && (output.Some? ==> output.value == M3U.Render(Map(resolved, EntryOf))
                           && counts == CategoryCounts(resolved))
      && (output.None? ==> counts == [])
  {
    output, counts := None, [];
    var html, _, _ := FetchText(AttemptsAt(net, MainUrl()), MaxRetries);
    if html.None? || html.value == "" {
      return;
    }
    var channels := ExtractChannels(SiteOf(join), parse(html.value));
    if channels == [] {
      return;
    }
    var results := [];
    var i := 0;
    while i < |channels|
      invariant 0 <= i <= |channels|
      invariant results == Map(channels[..i], Task(join, patterns, net))
    {
      var r := ResolveStream(join, patterns, net, channels[i]);
      assert channels[..i + 1][..i] == channels[..i];
      results := results + [r];
      i := i + 1;
    }
    assert channels[..i] == channels;
    var resolved := FilterMap(results, Present);
    if resolved == [] {
      return;
    }
    var text := BuildM3U(resolved);
    output := Some(text);
    counts := CategoryCounts(resolved);
  }
}
