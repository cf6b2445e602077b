/** generate_m3u.py: a playlist built from JSON channel records, each channel's stream URL carrying
    an access token read off the final URL that the channel's own URL redirects to. The HTTP request
    is not modelled: `finalUrl(url)` is where `requests.get(url)` ends up, or `None` when it raises
    or the status is an error. */
module GenerateM3U {
  import opened Wrappers
  import opened Seqs
  import Scan
  import M3U
  import Text

  /** One record of the JSON input: its "URL", "tvg-logo", "channel-name" and "group-title". */
  datatype JsonChannel = JsonChannel(url: string, logo: string, name: string, group: string)

  /** The character class `[a-f0-9\-]`: lower-case hex digits and the hyphen, no case folding. */
  predicate IsTokenChar(c: char) {
    ('a' <= c <= 'f') || ('0' <= c <= '9') || c == '-'
  }

  const TokenKey := "token="

  /** `extract_token(url)`: the capture of `re.search(r'token=([a-f0-9\-]+)', url)`. */
  function ExtractToken(url: string): (token: Option<string>)
    ensures token.None? <==> forall p: nat :: !Scan.MatchesAt(url, TokenKey, IsTokenChar, p)
    ensures token.Some? ==> |token.value| > 0
    ensures token.Some? ==> forall k :: 0 <= k < |token.value| ==> IsTokenChar(token.value[k])
    ensures token.Some? ==> exists p: nat ::
      Scan.LeftmostAt(url, TokenKey, IsTokenChar, p) && Scan.CapturedAt(url, TokenKey, IsTokenChar, p, token.value)
  {
    Scan.Search(url, TokenKey, IsTokenChar)
  }

  /** `get_token_from_url(url)`. */
  function TokenFor(finalUrl: string -> Option<string>, url: string): Option<string> {
    match finalUrl(url)
    case None => None
    case Some(u) =>
      match ExtractToken(u)
      case Some(t) => if t != "" then Some(t) else None
      case None => None
  }

  /** A failed request gives no token; otherwise the token is what `extract_token` reads off the
      final URL (which is never empty). */
  lemma TokenForCases(finalUrl: string -> Option<string>, url: string)
    ensures finalUrl(url).None? ==> TokenFor(finalUrl, url).None?
    ensures finalUrl(url).Some? ==> TokenFor(finalUrl, url) == ExtractToken(finalUrl(url).value)
    ensures TokenFor(finalUrl, url).Some? ==> |TokenFor(finalUrl, url).value| > 0
  {
  }

  const StreamBase := "http://10.99.99.99:8080/roarzone/bk/"

  /** `f"http://10.99.99.99:8080/roarzone/bk/{name}/index.m3u8?token={token}"`. */
  function StreamUrl(name: string, token: string): string {
    StreamBase + name + "/index.m3u8?" + TokenKey + token
  }

  /** `f'#EXTINF:-1 group-title="{group}" tvg-logo="{logo}",{name}'`. */
  function ExtInf(ch: JsonChannel): string {
    "#EXTINF:-1 group-title=\"" + ch.group + "\" tvg-logo=\"" + ch.logo + "\"," + ch.name
  }

  /** The entry a channel contributes, if its token lookup succeeds. */
  function EntryFor(finalUrl: string -> Option<string>, ch: JsonChannel): Option<M3U.Entry> {
    match TokenFor(finalUrl, ch.url)
    case Some(token) => Some(M3U.Entry(ExtInf(ch), StreamUrl(ch.name, token)))
    case None => None
  }

  function Emitter(finalUrl: string -> Option<string>): JsonChannel -> Option<M3U.Entry> {
    ch => EntryFor(finalUrl, ch)
  }

  lemma LinesAppend(finalUrl: string -> Option<string>, json: seq<JsonChannel>, i: nat)
    requires i < |json|
    ensures M3U.Lines(FilterMap(json[..i + 1], Emitter(finalUrl))) ==
      M3U.Lines(FilterMap(json[..i], Emitter(finalUrl)))
      + (match EntryFor(finalUrl, json[i]) case Some(e) => M3U.Block(e) case None => [])
  {
    var es := FilterMap(json[..i], Emitter(finalUrl));
    assert json[..i + 1][..i] == json[..i];
    match EntryFor(finalUrl, json[i])
    case Some(e) =>
      assert (es + [e])[..|es|] == es;
    case None =>
  }

  /** `generate_m3u_content(json_data)`: `["#EXTM3U"]`, then three lines for each channel whose
      token lookup succeeds, joined with "\n". */
  method GenerateM3UContent(json: seq<JsonChannel>, finalUrl: string -> Option<string>) returns (content: string)
    ensures content == M3U.Render(FilterMap(json, Emitter(finalUrl)))
  {
    var lines := [M3U.Header];
    var i := 0;
    while i < |json|
      invariant 0 <= i <= |json|
      invariant lines == M3U.Lines(FilterMap(json[..i], Emitter(finalUrl)))
    {
      var ch := json[i];
      var token := TokenFor(finalUrl, ch.url);
      LinesAppend(finalUrl, json, i);
      if token.Some? {
        var streamUrl := StreamUrl(ch.name, token.value);
        lines := lines + [ExtInf(ch), streamUrl, ""];
      }
      i := i + 1;
    }
    assert json[..i] == json;
    content := Text.Join(lines);
  }

  /** The text is the header and then, in input order, one three-line entry for exactly the channels
      whose token lookup succeeds: the `#EXTINF` line, the stream URL carrying that token, and an
      empty line. Read back line by line when no field holds a line break. */
  lemma ContentShape(json: seq<JsonChannel>, finalUrl: string -> Option<string>)
    requires forall k :: 0 <= k < |json| ==>
      '\n' !in json[k].name && '\n' !in json[k].group && '\n' !in json[k].logo
    ensures var es, idx := FilterMap(json, Emitter(finalUrl)), Kept(json, Emitter(finalUrl));
      var ls := Text.Split(M3U.Render(es));
      && |idx| == |es| && Increasing(idx)
      && |ls| == 1 + 3 * |idx| && ls[0] == M3U.Header
      && (forall j :: 0 <= j < |json| ==> (j in idx <==> TokenFor(finalUrl, json[j].url).Some?))
      && (forall k :: 0 <= k < |idx| ==>
            (idx[k] < |json|
             && ls[1 + 3 * k] == ExtInf(json[idx[k]])
             && ls[2 + 3 * k] == StreamUrl(json[idx[k]].name, TokenFor(finalUrl, json[idx[k]].url).value)
             && ls[3 + 3 * k] == ""))
  {
    var es := FilterMap(json, Emitter(finalUrl));
    FilterMapKeeps(json, Emitter(finalUrl));
    EntriesSingleLine(json, finalUrl);
    M3U.RenderLines(es);
  }

  lemma StreamUrlSingleLine(name: string, token: string)
    requires '\n' !in name && '\n' !in token
    ensures '\n' !in StreamUrl(name, token)
  {
    assert '\n' !in StreamBase;
    assert '\n' !in "/index.m3u8?";
    assert '\n' !in TokenKey;
  }

  lemma ExtInfSingleLine(ch: JsonChannel)
    requires '\n' !in ch.name && '\n' !in ch.group && '\n' !in ch.logo
    ensures '\n' !in ExtInf(ch)
  {
    assert '\n' !in "#EXTINF:-1 group-title=\"";
    assert '\n' !in "\" tvg-logo=\"";
    assert '\n' !in "\",";
  }

  lemma TokenSingleLine(finalUrl: string -> Option<string>, url: string)
    requires TokenFor(finalUrl, url).Some?
    ensures '\n' !in TokenFor(finalUrl, url).value
  {
    var t := TokenFor(finalUrl, url).value;
    assert ExtractToken(finalUrl(url).value) == Some(t);
    assert forall i :: 0 <= i < |t| ==> IsTokenChar(t[i]);
  }

  lemma EntrySingleLine(finalUrl: string -> Option<string>, ch: JsonChannel)
    requires '\n' !in ch.name && '\n' !in ch.group && '\n' !in ch.logo
    requires EntryFor(finalUrl, ch).Some?
    ensures M3U.SingleLine(EntryFor(finalUrl, ch).value)
  {
    TokenSingleLine(finalUrl, ch.url);
    StreamUrlSingleLine(ch.name, TokenFor(finalUrl, ch.url).value);
    ExtInfSingleLine(ch);
  }

  lemma EntriesSingleLine(json: seq<JsonChannel>, finalUrl: string -> Option<string>)
    requires forall k :: 0 <= k < |json| ==>
      '\n' !in json[k].name && '\n' !in json[k].group && '\n' !in json[k].logo
    ensures forall k :: 0 <= k < |FilterMap(json, Emitter(finalUrl))| ==>
      M3U.SingleLine(FilterMap(json, Emitter(finalUrl))[k])
  {
    var es := FilterMap(json, Emitter(finalUrl));
    FilterMapKeeps(json, Emitter(finalUrl));
    var idx := Kept(json, Emitter(finalUrl));
    forall k | 0 <= k < |es| ensures M3U.SingleLine(es[k]) {
      var j := idx[k];
      assert Emitter(finalUrl)(json[j]) == Some(es[k]);
      EntrySingleLine(finalUrl, json[j]);
    }
  }

  lemma NoEqualsBeforeKey(name: string, token: string, q: nat)
    requires '=' !in name
    requires q + |TokenKey| <= |StreamUrl(name, token)|
    requires q < |StreamBase + name + "/index.m3u8?"|
    ensures !(TokenKey <= StreamUrl(name, token)[q..])
  {
    var s := StreamUrl(name, token);
    var before := StreamBase + name + "/index.m3u8?";
    assert s == before + TokenKey + token;
    var i := q + 5;
    assert s[q..][5] == s[i];
    if i < |StreamBase| {
      assert '=' !in StreamBase;
      assert s[i] == StreamBase[i];
    } else if i < |StreamBase| + |name| {
      assert s[i] == name[i - |StreamBase|];
    } else if i < |before| {
      assert '=' !in "/index.m3u8?";
      assert s[i] == "/index.m3u8?"[i - |StreamBase| - |name|];
    } else {
      assert '=' !in TokenKey[..5];
      assert s[i] == TokenKey[..5][i - |before|];
    }
    assert s[i] != '=';
  }

  /** In a stream URL built from a name without '=', the key matches first where the token starts. */
  lemma TokenKeyFirstAt(name: string, token: string, p: nat)
    requires '=' !in name && |token| > 0 && IsTokenChar(token[0])
    requires Scan.LeftmostAt(StreamUrl(name, token), TokenKey, IsTokenChar, p)
    ensures p == |StreamBase + name + "/index.m3u8?"|
    ensures StreamUrl(name, token)[p..] == TokenKey + token
  {
    var s := StreamUrl(name, token);
    var at := |StreamBase + name + "/index.m3u8?"|;
    assert s[at..] == TokenKey + token by {
      assert s == (StreamBase + name + "/index.m3u8?") + (TokenKey + token);
    }
    assert Scan.MatchesAt(s, TokenKey, IsTokenChar, at);
    if p < at {
      NoEqualsBeforeKey(name, token, p);
    }
  }

  /** The token that goes into a stream URL is the one `extract_token` reads back from it, as long
      as the channel name holds no '='. */
  lemma StreamUrlToken(name: string, token: string)
    requires '=' !in name
    requires |token| > 0 && forall k :: 0 <= k < |token| ==> IsTokenChar(token[k])
    ensures ExtractToken(StreamUrl(name, token)) == Some(token)
  {
    var s := StreamUrl(name, token);
    var at := |StreamBase + name + "/index.m3u8?"|;
    assert s[at..] == TokenKey + token by {
      assert s == (StreamBase + name + "/index.m3u8?") + (TokenKey + token);
    }
    assert Scan.MatchesAt(s, TokenKey, IsTokenChar, at);
    var t := ExtractToken(s).value;
    var p: nat :| Scan.LeftmostAt(s, TokenKey, IsTokenChar, p) && Scan.CapturedAt(s, TokenKey, IsTokenChar, p, t);
    TokenKeyFirstAt(name, token, p);
    Scan.CapturedToEnd(s, TokenKey, IsTokenChar, p, t, token);
  }
}
