/** What generate_channels.py and generate_channels-rforce.py share: the rules that turn a parsed
    list item of `ul#vidlink` into a channel listing, the `#EXTINF` line of a resolved channel, the
    playlist builder and the per-category count. HTML parsing and `urljoin` are not modelled: a list
    item arrives as an `Item` value and `urljoin` is a parameter. */
module Channels {
  import opened Wrappers
  import opened Seqs
  import Text
  import Scan
  import M3U

  /** An `img` inside the anchor, with its `alt` and `src` attributes when present. */
  datatype Img = Img(alt: Option<string>, src: Option<string>)

  /** The first `a` of the item that carries an `onclick` attribute, and the `img` inside it. */
  datatype Anchor = Anchor(onclick: string, img: Option<Img>)

  /** One `li` of `ul#vidlink`: its class list and its first anchor with an `onclick`, if any. */
  datatype Item = Item(classes: seq<string>, anchor: Option<Anchor>)

  /** The tuple `(name, categories, stream_id, logo_url)`. */
  datatype Listing = Listing(name: string, categories: seq<string>, streamId: string, logoUrl: string)

  /** The tuple `(name, categories, stream_id, logo_url, m3u_url)`. */
  datatype Resolved = Resolved(listing: Listing, streamUrl: string)

  /** `urljoin(base, url)`, left opaque. */
  type UrlJoin = (string, string) -> string

  /** How the logo URL is formed: generate_channels.py joins `src` only when it is present and
      non-empty (else ""); generate_channels-rforce.py always joins `src`, defaulting to "". */
  datatype LogoRule = JoinIfSrc | AlwaysJoin

  datatype Site = Site(base: string, join: UrlJoin, logo: LogoRule)

  /** `re.search(r"stream=(\d+)", onclick).group(1)`. */
  function StreamId(onclick: string): Option<string> {
    Scan.Search(onclick, "stream=", Scan.IsDigit)
  }

  /** The class filter of the comprehension `[c for c in classes if c and c != "All"]`. */
  function KeepClass(c: string): Option<string> {
    if c != "" && c != "All" then Some(c) else None
  }

  /** The categories of an item: its classes without "All" and without empty strings. */
  function Categories(classes: seq<string>): (cats: seq<string>)
    ensures forall k :: 0 <= k < |cats| ==> cats[k] != "" && cats[k] != "All"
  {
    FilterMapKeeps(classes, KeepClass);
    FilterMap(classes, KeepClass)
  }

  /** The categories are the classes other than "" and "All", each kept, in their original order. */
  lemma CategoriesInOrder(classes: seq<string>)
    ensures var cats, idx := Categories(classes), Kept(classes, KeepClass);
      |idx| == |cats| && Increasing(idx)
      && (forall k :: 0 <= k < |idx| ==> idx[k] < |classes| && classes[idx[k]] == cats[k])
      && (forall j :: 0 <= j < |classes| ==> (classes[j] != "" && classes[j] != "All" <==> j in idx))
  {
    FilterMapKeeps(classes, KeepClass);
  }

  function LogoUrl(site: Site, src: Option<string>): string {
    match site.logo
    case JoinIfSrc => if src.Some? && src.value != "" then site.join(site.base, src.value) else ""
    case AlwaysJoin => site.join(site.base, src.GetOr(""))
  }

  /** `img.get("alt", f"Channel {stream_id}").strip()`: a missing alt gives "Channel <id>". */
  function ChannelName(alt: Option<string>, streamId: string): (name: string)
    ensures alt.None? && streamId != [] && Scan.IsDigit(streamId[|streamId| - 1]) ==>
      name == "Channel " + streamId
  {
    var fallback := "Channel " + streamId;
    if alt.None? && streamId != [] && Scan.IsDigit(streamId[|streamId| - 1]) then
      assert fallback[|fallback| - 1] == streamId[|streamId| - 1];
      Text.StripTrimmed(fallback);
      Text.Strip(alt.GetOr(fallback))
    else
      Text.Strip(alt.GetOr(fallback))
  }

  /** The loop body of `extract_channels`: `None` when the item is skipped. */
  function ListingOf(site: Site, item: Item): (r: Option<Listing>)
    ensures r.None? <==>
      item.anchor.None? || StreamId(item.anchor.value.onclick).None? || item.anchor.value.img.None?
    ensures r.Some? ==>
      var a := item.anchor.value;
      var img := a.img.value;
      && Some(r.value.streamId) == StreamId(a.onclick)
      && |r.value.streamId| > 0
      && (forall k :: 0 <= k < |r.value.streamId| ==> Scan.IsDigit(r.value.streamId[k]))
      && (img.alt.None? ==> r.value.name == "Channel " + r.value.streamId)
      && (img.alt.Some? ==> r.value.name == Text.Strip(img.alt.value))
      && r.value.categories == Categories(item.classes)
      && r.value.logoUrl == LogoUrl(site, img.src)
  {
    match item.anchor
    case None => None
    case Some(a) =>
      match StreamId(a.onclick)
      case None => None
      case Some(id) =>
        match a.img
        case None => None
        case Some(img) =>
          Some(Listing(ChannelName(img.alt, id), Categories(item.classes), id, LogoUrl(site, img.src)))
  }

  function Extractor(site: Site): Item -> Option<Listing> {
    item => ListingOf(site, item)
  }

  /** `extract_channels`: the listings of the usable items, in page order. */
  method ExtractChannels(site: Site, items: seq<Item>) returns (channels: seq<Listing>)
    ensures channels == FilterMap(items, Extractor(site))
  {
    channels := [];
    var i := 0;
    while i < |items|
      invariant 0 <= i <= |items|
      invariant channels == FilterMap(items[..i], Extractor(site))
    {
      assert items[..i + 1][..i] == items[..i];
      var r := ListingOf(site, items[i]);
      if r.Some? {
        channels := channels + [r.value];
      }
      i := i + 1;
    }
    assert items[..i] == items;
  }

  /** An item yields a listing exactly when it has an anchor whose onclick holds `stream=<digits>`
      and an image; the listings keep the page order of their items. */
  lemma ExtractedInOrder(site: Site, items: seq<Item>)
    ensures var ls, idx := FilterMap(items, Extractor(site)), Kept(items, Extractor(site));
      |idx| == |ls| && Increasing(idx)
      && (forall k :: 0 <= k < |idx| ==> idx[k] < |items| && ListingOf(site, items[idx[k]]) == Some(ls[k]))
      && (forall j :: 0 <= j < |items| ==>
            (j in idx <==> items[j].anchor.Some? && StreamId(items[j].anchor.value.onclick).Some?
                           && items[j].anchor.value.img.Some?))
  {
    FilterMapKeeps(items, Extractor(site));
  }

  /** `cats[0] if cats else "Uncategorized"`. */
  function GroupTitle(cats: seq<string>): string {
    if cats != [] then cats[0] else "Uncategorized"
  }

  /** `name.replace('"', "'").replace(",", " ")`. */
  function CleanName(name: string): (clean: string)
    ensures |clean| == |name|
    ensures '"' !in clean && ',' !in clean
    ensures forall i :: 0 <= i < |name| ==>
      && (name[i] == '"' ==> clean[i] == '\'')
      && (name[i] == ',' ==> clean[i] == ' ')
      && (name[i] != '"' && name[i] != ',' ==> clean[i] == name[i])
  {
    Text.ReplaceChar(Text.ReplaceChar(name, '"', '\''), ',', ' ')
  }

  const ExtInfStart := "#EXTINF:-1 tvg-name=\""
  const LogoKey := " tvg-logo=\""
  const GroupKey := " group-title=\""

  function LogoPart(logoUrl: string): string {
    if logoUrl != "" then LogoKey + logoUrl + "\"" else ""
  }

  /** `#EXTINF:-1 tvg-name="<clean>"[ tvg-logo="<logo>"] group-title="<group>",<clean>`. */
  function ExtInf(l: Listing): string {
    var clean := CleanName(l.name);
    ExtInfStart + clean + "\"" + LogoPart(l.logoUrl) + GroupKey + GroupTitle(l.categories) + "\"," + clean
  }

  function EntryOf(r: Resolved): M3U.Entry {
    M3U.Entry(ExtInf(r.listing), r.streamUrl)
  }

  /** The attribute values of an `#EXTINF` line as a player reads them. */
  datatype ExtInfFields = ExtInfFields(tvgName: string, tvgLogo: Option<string>, groupTitle: string, title: string)

  /** Splits at the first double quote: the text before it and the text after it. */
  function Quoted(s: string): (r: Option<(string, string)>)
    ensures r.Some? ==> '"' !in r.value.0 && s == r.value.0 + "\"" + r.value.1
  {
    if s == [] then None
    else if s[0] == '"' then Some(([], s[1..]))
    else match Quoted(s[1..])
      case None => None
      case Some((a, b)) => Some(([s[0]] + a, b))
  }

  lemma {:induction false} QuotedSplit(x: string, y: string)
    requires '"' !in x
    ensures Quoted(x + "\"" + y) == Some((x, y))
  {
    if x != [] {
      QuotedSplit(x[1..], y);
      assert (x + "\"" + y)[1..] == x[1..] + "\"" + y;
      assert [x[0]] + x[1..] == x;
    } else {
      assert (x + "\"" + y)[1..] == y;
    }
  }

  /** Reads `[ tvg-logo="<logo>"]` off the front: the logo, if any, and what follows. */
  function ParseLogo(s: string): Option<(Option<string>, string)> {
    if LogoKey <= s then
      match Quoted(s[|LogoKey|..])
      case None => None
      case Some((url, rest)) => Some((Some(url), rest))
    else Some((None, s))
  }

  /** Reads ` group-title="<group>",<title>`: the group and the title. */
  function ParseGroup(s: string): Option<(string, string)> {
    if !(GroupKey <= s) then None
    else match Quoted(s[|GroupKey|..])
      case None => None
      case Some((group, tail)) =>
        if tail != [] && tail[0] == ',' then Some((group, tail[1..])) else None
  }

  /** Reads the attributes back from an `#EXTINF` line of the form `ExtInf` writes. */
  function ParseExtInf(line: string): Option<ExtInfFields> {
    if !(ExtInfStart <= line) then None
    else match Quoted(line[|ExtInfStart|..])
      case None => None
      case Some((name, rest)) =>
        match ParseLogo(rest)
        case None => None
        case Some((tvgLogo, rest2)) =>
          match ParseGroup(rest2)
          case None => None
          case Some((group, title)) => Some(ExtInfFields(name, tvgLogo, group, title))
  }

  lemma ParseGroupOf(group: string, title: string)
    requires '"' !in group
    ensures ParseGroup(GroupKey + group + "\"," + title) == Some((group, title))
  {
    var s := GroupKey + group + "\"," + title;
    assert s[|GroupKey|..] == group + "\"" + ("," + title);
    QuotedSplit(group, "," + title);
    assert ("," + title)[1..] == title;
  }

  lemma ParseLogoOf(logoUrl: string, rest: string)
    requires '"' !in logoUrl && GroupKey <= rest
    ensures ParseLogo(LogoPart(logoUrl) + rest) == Some((if logoUrl != "" then Some(logoUrl) else None, rest))
  {
    if logoUrl != "" {
      assert LogoPart(logoUrl) + rest == LogoKey + logoUrl + "\"" + rest;
      ParseLogoPresent(logoUrl, rest);
    } else {
      assert LogoPart(logoUrl) + rest == rest;
      ParseLogoAbsent(rest);
    }
  }

  lemma ParseLogoPresent(logoUrl: string, rest: string)
    requires '"' !in logoUrl && logoUrl != ""
    ensures ParseLogo(LogoKey + logoUrl + "\"" + rest) == Some((Some(logoUrl), rest))
  {
    var s := LogoKey + logoUrl + "\"" + rest;
    assert s == LogoKey + (logoUrl + "\"" + rest);
    assert s[|LogoKey|..] == logoUrl + "\"" + rest;
    QuotedSplit(logoUrl, rest);
  }

  lemma ParseLogoAbsent(rest: string)
    requires GroupKey <= rest
    ensures ParseLogo(rest) == Some((None, rest))
  {
    assert rest[1] == GroupKey[1] != LogoKey[1];
  }

  /** The `#EXTINF` line carries the cleaned name as `tvg-name` and as title, the group, and a
      `tvg-logo` attribute exactly when the logo URL is non-empty. Logo and group are written
      unescaped, so this holds when neither contains a double quote. */
  lemma ExtInfRoundTrip(l: Listing)
    requires '"' !in l.logoUrl && '"' !in GroupTitle(l.categories)
    ensures ParseExtInf(ExtInf(l)) ==
      Some(ExtInfFields(CleanName(l.name), if l.logoUrl != "" then Some(l.logoUrl) else None,
                        GroupTitle(l.categories), CleanName(l.name)))
  {
    var clean := CleanName(l.name);
    var group := GroupTitle(l.categories);
    var tail := GroupKey + group + "\"," + clean;
    var rest := LogoPart(l.logoUrl) + tail;
    assert ExtInf(l) == ExtInfStart + (clean + "\"" + rest);
    assert ExtInf(l)[|ExtInfStart|..] == clean + "\"" + rest;
    QuotedSplit(clean, rest);
    ParseLogoOf(l.logoUrl, tail);
    ParseGroupOf(group, clean);
  }

  /** The `#EXTINF` line of a listing, with the name, the logo part and the group in their places. */
  function LogoLine(l: Listing, logoUrl: string): string {
    var c := CleanName(l.name);
    ExtInfStart + c + "\"" + LogoPart(logoUrl) + GroupKey + GroupTitle(l.categories) + "\"," + c
  }

  /** The logo rule as it reaches the `#EXTINF` line of a listing whose logo URL was built from the
      img's `src`, as `ListingOf` builds every kept item's. In generate_channels.py a missing or
      empty `src` leaves the line without a `tvg-logo` attribute, and a present one writes its join
      with the base. generate_channels-rforce.py always writes the join of `src` (of "" when it is
      missing), so a `tvg-logo` attribute is left out only when that join is empty. */
  lemma ListingLogo(site: Site, src: Option<string>, l: Listing)
    requires l.logoUrl == LogoUrl(site, src)
    ensures var c := CleanName(l.name);
      && (site.logo == JoinIfSrc && (src.None? || src.value == "") ==>
            ExtInf(l) == ExtInfStart + c + "\"" + GroupKey + GroupTitle(l.categories) + "\"," + c)
      && (site.logo == JoinIfSrc && src.Some? && src.value != "" ==>
            ExtInf(l) == LogoLine(l, site.join(site.base, src.value)))
      && (site.logo == AlwaysJoin ==> ExtInf(l) == LogoLine(l, site.join(site.base, src.GetOr(""))))
  {
    assert ExtInf(l) == LogoLine(l, l.logoUrl);
    if site.logo == JoinIfSrc && (src.None? || src.value == "") {
      assert LogoPart(l.logoUrl) == "";
      var c := CleanName(l.name);
      assert ExtInfStart + c + "\"" + "" == ExtInfStart + c + "\"";
    }
  }

  /** Read back by a player, such a line carries no logo in generate_channels.py when `src` is
      missing or empty, and carries the join of `src` in generate_channels-rforce.py whenever that
      join is non-empty, as long as neither the logo URL nor the group holds a double quote. */
  lemma ListingLogoRead(site: Site, src: Option<string>, l: Listing)
    requires l.logoUrl == LogoUrl(site, src)
    ensures '"' !in l.logoUrl && '"' !in GroupTitle(l.categories) ==>
      && (site.logo == JoinIfSrc && (src.None? || src.value == "") ==>
            ParseExtInf(ExtInf(l)).Some? && ParseExtInf(ExtInf(l)).value.tvgLogo.None?)
      && (site.logo == AlwaysJoin && site.join(site.base, src.GetOr("")) != "" ==>
            ParseExtInf(ExtInf(l)).Some?
            && ParseExtInf(ExtInf(l)).value.tvgLogo == Some(site.join(site.base, src.GetOr(""))))
  {
    if '"' !in l.logoUrl && '"' !in GroupTitle(l.categories) {
      ExtInfRoundTrip(l);
    }
  }

  lemma LinesAppend(channels: seq<Resolved>, i: nat)
    requires i < |channels|
    ensures M3U.Lines(Map(channels[..i + 1], EntryOf))
         == M3U.Lines(Map(channels[..i], EntryOf)) + M3U.Block(EntryOf(channels[i]))
  {
    var es := Map(channels[..i], EntryOf);
    var es' := Map(channels[..i + 1], EntryOf);
    assert channels[..i + 1][..i] == channels[..i];
    assert es'[..|es'| - 1] == es;
  }

  /** `build_m3u`: appends the three lines of each channel to `["#EXTM3U"]`, then joins with "\n". */
  method BuildM3U(channels: seq<Resolved>) returns (text: string)
    ensures text == M3U.Render(Map(channels, EntryOf))
  {
    var lines := [M3U.Header];
    var i := 0;
    while i < |channels|
      invariant 0 <= i <= |channels|
      invariant lines == M3U.Lines(Map(channels[..i], EntryOf))
    {
      var ch := channels[i];
      var extinf := ExtInf(ch.listing);
      LinesAppend(channels, i);
      lines := lines + [extinf, ch.streamUrl, ""];
      i := i + 1;
    }
    assert channels[..i] == channels;
    text := Text.Join(lines);
  }

  /** The playlist holds one entry per channel, in channel order: the header, then for the k-th
      channel its `#EXTINF` line, its stream URL and an empty line; with no channel it is the bare
      header, otherwise it ends with a line break. */
  lemma PlaylistShape(channels: seq<Resolved>)
    requires forall k :: 0 <= k < |channels| ==> M3U.SingleLine(EntryOf(channels[k]))
    ensures var text := M3U.Render(Map(channels, EntryOf));
      var ls := Text.Split(text);
      && |ls| == 1 + 3 * |channels|
      && ls[0] == M3U.Header
      && (forall k :: 0 <= k < |channels| ==>
            ls[1 + 3 * k] == ExtInf(channels[k].listing) && ls[2 + 3 * k] == channels[k].streamUrl
            && ls[3 + 3 * k] == "")
      && (channels == [] ==> text == M3U.Header)
      && (channels != [] ==> text[|text| - 1] == '\n')
  {
    var es := Map(channels, EntryOf);
    M3U.RenderLines(es);
  }

  // ---------------------------------------------------------------------------------------------
  // `Counter(group for each resolved channel)`: a dictionary in first-appearance order.

  /** Counts one more occurrence of `key`: increments its entry, or appends `(key, 1)`. */
  function Bump(t: seq<(string, nat)>, key: string): (r: seq<(string, nat)>)
    ensures |t| <= |r| <= |t| + 1
    ensures forall i :: 0 <= i < |t| ==> r[i].0 == t[i].0
    ensures |r| == |t| + 1 <==> forall i :: 0 <= i < |t| ==> t[i].0 != key
    ensures |r| == |t| + 1 ==> r[|t|] == (key, 1)
  {
    if t == [] then [(key, 1)]
    else if t[0].0 == key then [(key, t[0].1 + 1)] + t[1..]
    else [t[0]] + Bump(t[1..], key)
  }

  /** The count recorded for `key` (0 when absent). */
  function Count(t: seq<(string, nat)>, key: string): nat {
    if t == [] then 0 else if t[0].0 == key then t[0].1 else Count(t[1..], key)
  }

  /** The sum of all counts. */
  function Total(t: seq<(string, nat)>): nat {
    if t == [] then 0 else t[0].1 + Total(t[1..])
  }

  ghost predicate DistinctKeys(t: seq<(string, nat)>) {
    forall i, j :: 0 <= i < j < |t| ==> t[i].0 != t[j].0
  }

  lemma {:induction false} BumpCounts(t: seq<(string, nat)>, key: string)
    ensures forall k :: Count(Bump(t, key), k) == Count(t, k) + (if k == key then 1 else 0)
    ensures Total(Bump(t, key)) == Total(t) + 1
    ensures (forall i :: 0 <= i < |t| ==> t[i].1 > 0) ==>
      forall i :: 0 <= i < |Bump(t, key)| ==> Bump(t, key)[i].1 > 0
  {
    if t != [] && t[0].0 != key {
      BumpCounts(t[1..], key);
      assert Bump(t, key)[1..] == Bump(t[1..], key);
    }
  }

  /** `Counter(keys)`. */
  function Tally(keys: seq<string>): seq<(string, nat)> {
    if keys == [] then [] else Bump(Tally(keys[..|keys| - 1]), keys[|keys| - 1])
  }

  lemma {:induction false} TallyDistinct(keys: seq<string>)
    ensures DistinctKeys(Tally(keys))
  {
    if keys != [] {
      var t := Tally(keys[..|keys| - 1]);
      TallyDistinct(keys[..|keys| - 1]);
      var b := Bump(t, keys[|keys| - 1]);
      forall i, j | 0 <= i < j < |b| ensures b[i].0 != b[j].0 {
        if j == |t| {
          assert b[i].0 == t[i].0;
        }
      }
    }
  }

  lemma {:induction false} TallyCounts(keys: seq<string>)
    ensures forall i :: 0 <= i < |Tally(keys)| ==> Tally(keys)[i].1 > 0
    ensures forall k :: Count(Tally(keys), k) == multiset(keys)[k]
    ensures Total(Tally(keys)) == |keys|
  {
    if keys != [] {
      var front, last := keys[..|keys| - 1], keys[|keys| - 1];
      TallyCounts(front);
      BumpCounts(Tally(front), last);
      assert keys == front + [last];
      assert multiset(keys) == multiset(front) + multiset{last};
    }
  }

  function GroupOf(r: Resolved): string {
    GroupTitle(r.listing.categories)
  }

  /** The category breakdown: resolved channels counted by first category or "Uncategorized". */
  function CategoryCounts(resolved: seq<Resolved>): (counts: seq<(string, nat)>)
    ensures Total(counts) == |resolved|
    ensures DistinctKeys(counts)
    ensures forall g :: Count(counts, g) == multiset(Map(resolved, GroupOf))[g]
    ensures forall i :: 0 <= i < |counts| ==> counts[i].1 > 0
  {
    TallyDistinct(Map(resolved, GroupOf));
    TallyCounts(Map(resolved, GroupOf));
    Tally(Map(resolved, GroupOf))
  }
}
