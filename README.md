# IPTV channel scrapers: a verified model of their playlist core

The repository is a set of scripts that scrape IPTV listing sites and write an `#EXTM3U` playlist.
This project models the sequential logic inside three of them and proves what it promises:

- **generate_channels.py** (synchronous scraper):
  - the item rules of `extract_channels`: the skips, the `"Channel <id>"` name fallback, the category filter and the logo rule;
  - the four-pattern cascade of `resolve_stream_url`, whose capture is stripped and joined, with the fallback to a final URL containing `.m3u8`;
  - the `main` loop that keeps the channels whose stream URL is truthy;
  - `build_m3u`;
  - the category `Counter`.
- **generate_channels-rforce.py** (asynchronous scraper):
  - the bounded retry loop `fetch_text`;
  - its own item rules: `src` is always joined;
  - the three-pattern cascade of `resolve_stream`, which has no fallback;
  - the success filter over the gathered results;
  - `build_m3u` and the `Counter`.
- **generate_m3u.py**:
  - `extract_token`, the leftmost `token=` followed by a maximal non-empty run of `[a-f0-9-]`;
  - `generate_m3u_content`, with the token lookup passed in as a function.

Modules:

- `Wrappers`: `Option`.
- `Seqs`: `Map` and an order-preserving `FilterMap`, characterised by the index list `Kept`.
- `Text`: Python's `"\n".join`, `split("\n")`, `strip`, `rstrip(c)`, `replace` and `in`.
- `Scan`: the key-plus-character-class search.
- `M3U`: the playlist layout. The `#EXTM3U` header is the tag of section 4.3.1.1 of RFC 8216. The `tvg-*` and `group-title` attributes are a de facto IPTV extension.
- `Cascade`: first match wins.
- `Channels`: what the two scrapers share.
- `GenerateChannels`, `GenerateChannelsRforce` and `GenerateM3U`: one module per script.

Each loop of the scripts is a `method` with loop invariants. It is proved equal to a specification function, and the lemmas state the properties of that function.

The two scrapers differ, and the model follows each one's code:

- generate_channels.py tries four patterns, not three, and strips the capture before joining.
- The two scrapers build the logo URL differently. generate_channels.py gives `""` when `src` is missing or empty. generate_channels-rforce.py always joins `src`, defaulting to `""`.
- generate_channels.py keeps a channel only when its URL is non-empty. generate_channels-rforce.py keeps every result tuple.

## Model

| member | source | states |
|---|---|---|
| Text.SplitJoin | generate_channels.py:122 | splitting `"\n".join(lines)` on newlines gives the lines back when no line holds a newline |
| Text.JoinSplit | generate_channels.py:122 | joining the pieces of `split("\n")` with newlines gives back any text |
| Text.StripSpec | generate_channels.py:61 | `strip()` drops exactly the leading and trailing whitespace: what it keeps is a contiguous slice of the text, everything outside the slice is whitespace, and the result neither starts nor ends with whitespace |
| Text.StripTrimmed | generate_channels.py:61 | text that neither starts nor ends with whitespace is its own `strip()` |
| Text.ReplaceChar | generate_channels.py:112 | `replace(a, b)` keeps the length, puts `b` exactly where `a` was and leaves every other character alone |
| Text.TrimEndChar | generate_channels-rforce.py:64 | `rstrip(c)` yields a prefix that does not end in `c`, and everything dropped is `c` |
| Scan.Search | generate_channels.py:52 | the pattern search fails exactly when the key followed by a class character occurs nowhere; otherwise the capture is non-empty, made of class characters, taken at the leftmost match, and greedy |
| M3U.Lines | generate_channels.py:107-120 | the line list is the header and then, for the k-th entry, its `#EXTINF` line, its URL and an empty line at 1+3k, 2+3k and 3+3k: 1+3n lines in all |
| M3U.Render | generate_channels.py:122 | the text starts with `#EXTM3U`; with no entry it is exactly the header, otherwise it ends with a newline |
| M3U.RenderLines | generate_channels.py:106-122 | split back into lines, the text is exactly the line list (1+3n lines) when no field holds a newline |
| Cascade.FirstHitSpec | generate_channels.py:93-97 | the cascade gives nothing exactly when no pattern matches; otherwise its result is the capture of a pattern all of whose predecessors failed |
| Cascade.FirstHitIsFirst | generate_channels-rforce.py:123-127 | when pattern k matches and every earlier one fails, the result is pattern k's capture |
| Cascade.FirstMatch | generate_channels.py:93-97 | the loop with its early return computes the first-match cascade |
| Channels.Categories | generate_channels.py:65-66 | no category is `""` or `"All"` |
| Channels.CategoriesInOrder | generate_channels-rforce.py:95-96 | the categories are the classes other than `""` and `"All"`, each one kept, in class-list order |
| Channels.ChannelName | generate_channels.py:61 | a missing `alt` gives the name `"Channel <id>"` for a digit id, unchanged by `strip()` |
| Channels.ListingLogo | generate_channels.py:62-63 | for a listing whose logo URL comes from the img's `src` (as `ListingOf` builds it), generate_channels.py writes an `#EXTINF` line with no `tvg-logo` attribute when `src` is missing or empty, and the join of `src` otherwise (line 115); generate_channels-rforce.py (lines 92-93, 141) always writes the join of `src`, or of `""` when missing |
| Channels.ListingLogoRead | generate_channels-rforce.py:92-93 | without double quotes in logo and group, a player reads no logo back from a generate_channels.py line whose `src` was missing or empty, and reads the join of `src` from a generate_channels-rforce.py line whenever that join is non-empty |
| Channels.ListingOf | generate_channels.py:46-68 | an item is skipped exactly when it has no anchor, no `stream=<digits>` id or no img; otherwise the listing carries that all-digit id, the stripped alt or `"Channel <id>"`, the filtered categories and the site's logo URL |
| Channels.ExtractChannels | generate_channels-rforce.py:72-101 | the loop builds exactly the listings of the usable items, in page order |
| Channels.ExtractedInOrder | generate_channels.py:40-71 | the k-th listing comes from the k-th usable item, the item positions increase, and an item is used exactly when it has an anchor, an id and an img |
| Channels.CleanName | generate_channels.py:112 | the cleaned name has the same length and no `"` or `,`; `"` became `'`, `,` became a space, and every other character is unchanged |
| Channels.ExtInfRoundTrip | generate_channels.py:111-117 | reading the `#EXTINF` line back gives the cleaned name as `tvg-name` and as title, the group (first category or `"Uncategorized"`), and a `tvg-logo` exactly when the logo URL is non-empty |
| Channels.BuildM3U | generate_channels.py:106-122 | `build_m3u` returns the rendered playlist of the channels' entries, in order |
| Channels.PlaylistShape | generate_channels-rforce.py:135-149 | when no name, logo, group or stream URL holds a line break, the playlist has 1+3n lines: the header, then each channel's `#EXTINF` line, its stream URL and an empty line, in channel order; a bare header with no channel, otherwise a trailing newline |
| Channels.Bump | generate_channels.py:162 | counting a key keeps every existing key in place and appends `(key, 1)` exactly when the key is new |
| Channels.BumpCounts | generate_channels.py:162 | counting a key raises its count by one, leaves every other count alone and raises the total by one |
| Channels.TallyDistinct | generate_channels.py:162 | the `Counter` has no duplicate key |
| Channels.TallyCounts | generate_channels-rforce.py:189 | each key of the `Counter` counts its occurrences, every recorded count is positive, and the counts sum to the number of keys |
| Channels.CategoryCounts | generate_channels-rforce.py:189 | the category breakdown counts each group (first category or `"Uncategorized"`) as often as it occurs among the resolved channels, with distinct keys, every count positive (only groups that occur are keys), summing to `len(resolved)` |
| GenerateChannels.StreamUrlCases | generate_channels.py:74-103 | a failed fetch gives None; the first matching pattern wins, its capture stripped and joined with the player URL; with no match, the final URL is returned exactly when it contains `.m3u8` |
| GenerateChannels.ResolveStreamUrl | generate_channels.py:74-103 | `resolve_stream_url` computes that cascade for the fetched player page |
| GenerateChannels.ResolvedInOrder | generate_channels.py:142-149 | `resolved` keeps, in listing order and unchanged, exactly the channels whose resolved URL is present and non-empty, each with that URL |
| GenerateChannels.ResolveAll | generate_channels.py:142-149 | the loop builds that list and sleeps once per listed channel |
| GenerateChannels.Run | generate_channels.py:125-167 | the playlist is written exactly when `resolved` is non-empty; it is `build_m3u(resolved)`, and the category counts are those of `resolved`; the number of sleeps is the number of listed channels |
| GenerateChannelsRforce.FetchText | generate_channels-rforce.py:38-58 | at most `max(retries, 0)` attempts; the first success is returned at once and every earlier attempt failed; None only after `retries` failures (none with `retries <= 0`); one backoff sleep with exponent k after each failed attempt k except the last |
| GenerateChannelsRforce.DefaultBound | generate_channels-rforce.py:30 | with the default `MAX_RETRIES` the fetch fails exactly when attempts 1, 2 and 3 all fail |
| GenerateChannelsRforce.StreamOfCases | generate_channels-rforce.py:104-130 | a missing or empty page body gives None; otherwise a task returns the channel unchanged with the join of the first matching pattern's raw capture; with no match it returns None, with no fallback |
| GenerateChannelsRforce.ResolveStream | generate_channels-rforce.py:104-130 | `resolve_stream` computes that result from the retried page fetch, treating a missing or empty body as failure |
| GenerateChannelsRforce.ResolvedInOrder | generate_channels-rforce.py:165-175 | `resolved` is the gathered results in channel order with the failures dropped: exactly the channels whose task succeeded, each with its own result |
| GenerateChannelsRforce.Run | generate_channels-rforce.py:154-192 | the playlist is written exactly when `resolved` is non-empty; it is `build_m3u(resolved)`, and the category counts are those of `resolved` |
| GenerateM3U.ExtractToken | generate_m3u.py:16-20 | None exactly when `token=` is nowhere followed by a `[a-f0-9-]` character; otherwise a non-empty run of those characters, taken at the leftmost match and maximal |
| GenerateM3U.TokenForCases | generate_m3u.py:5-14 | a failed request gives None; otherwise the token is `extract_token` of the final URL, and a token returned is never empty |
| GenerateM3U.StreamUrlToken | generate_m3u.py:37 | the token is read back from the stream URL built with it, when the name holds no `=` |
| GenerateM3U.GenerateM3UContent | generate_m3u.py:22-44 | the loop renders exactly the entries of the channels whose token lookup succeeds, in input order |
| GenerateM3U.ContentShape | generate_m3u.py:24-42 | when no name, group or logo holds a line break, the content is the header plus three lines for exactly the channels with a token, in input order: `#EXTINF:-1 group-title="…" tvg-logo="…",name`, the `…/roarzone/bk/<name>/index.m3u8?token=<token>` URL and an empty line |

## Left out

- HTTP (`requests`, `aiohttp`, `raise_for_status`, timeouts, headers) is not modelled. A fetch is a parameter: `Fetch` and `finalUrl` give the response or None, and `Network` gives the outcome of each numbered attempt.
- HTML parsing and the `ul#vidlink li` selector are not modelled. A list item arrives as an `Item` value, and the rforce main page is turned into items by a `parse` parameter.
- The regular-expression engine for the player-page patterns is not modelled. Each pattern is an opaque matcher that returns its first capture.
- `urljoin` is an opaque `UrlJoin` parameter.
- Concurrency is not modelled: the semaphore, the `gather` scheduling and the tqdm progress bars. Only `gather`'s input-order result is.
- Sleeping is not modelled. The floating-point values `REQUEST_DELAY` and `RETRY_BACKOFF ** attempt` are left out. The model counts the sleeps and records the backoff exponents instead.
- File writes, all printing and the sorted print-out of the `Counter` are not modelled. The model gives the text written and the counts.
- generate_m3u.py's `__main__` is left out: the JSON fixture, `json.loads`, and the `KeyError` for a record missing a key. A record is a `JsonChannel` value.
- generate_channels.py's catch-all `except Exception` is not modelled. A failed listing page is a `None` page, after which nothing is written.
- generate_channels-rzone.py is not part of this model. It is HTTP calls and a thread pool whose results are written in completion order.
- The duplicate `build_m3u` of generate_channels-rforce.py differs from generate_channels.py's only in form: variable names, a type annotation, comments and a temporary. Both compute the same text and are modelled by `Channels.BuildM3U`.
- Scan.Search: `\d` is modelled as the ASCII digits. Python's `\d` on `str` also matches other Unicode decimal digits.
- Channels.ExtInfRoundTrip: it holds only when the logo URL and the group contain no double quote. The script writes them unescaped, so a quote in either makes the line ambiguous.
- Channels.ChannelName: the fallback name is stated for a digit id, the only kind `stream=(\d+)` yields.
- GenerateM3U.StreamUrlToken: it requires a name without `=`. The name is written unescaped, so a name holding `token=` followed by a hex digit would be read first.
- Channels.PlaylistShape: the line-by-line reading holds only when no name, logo, group or stream URL holds a line break. `strip()` removes only the ends of the name, so an inner newline splits an entry over more lines.
- GenerateM3U.ContentShape: the line-by-line reading holds only when no name, group or logo holds a line break. These fields are written raw.
- Exceptions other than `ClientError` and `TimeoutError` are not modelled, for example a decode error from `resp.text()`. In generate_channels-rforce.py such an exception escapes `gather` and ends `main` with nothing written. An `Attempt` is only a body or a caught failure.
