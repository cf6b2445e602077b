/** The playlist text every script writes: the `#EXTM3U` header line (section 4.3.1.1 of RFC 8216)
    followed, per channel, by an `#EXTINF` line, the stream URL line and an empty separator line,
    all joined with "\n". */
module M3U {
  import Text

  const Header := "#EXTM3U"

  /** One playlist entry: its `#EXTINF` line and its URL line. */
  datatype Entry = Entry(extinf: string, url: string)

  /** The three lines one entry contributes. */
  function Block(e: Entry): seq<string> {
    [e.extinf, e.url, ""]
  }

  /** The list of lines: the header, then the blocks of the entries in order. */
  function Lines(es: seq<Entry>): (ls: seq<string>)
    ensures |ls| == 1 + 3 * |es|
    ensures ls[0] == Header
    ensures forall k :: 0 <= k < |es| ==>
      ls[1 + 3 * k] == es[k].extinf && ls[2 + 3 * k] == es[k].url && ls[3 + 3 * k] == ""
  {
    if es == [] then [Header] else Lines(es[..|es| - 1]) + Block(es[|es| - 1])
  }

  /** The playlist text, `"\n".join(lines)`. */
  function Render(es: seq<Entry>): (text: string)
    ensures Header <= text
    ensures es == [] ==> text == Header
    ensures es != [] ==> |text| > 0 && text[|text| - 1] == '\n'
  {
    var ls := Lines(es);
    Text.JoinStartsWithFirst(ls);
    if es != [] then
      Text.JoinEndsWithNewline(ls);
      Text.Join(ls)
    else
      Text.Join(ls)
  }

  /** Neither line of the entry holds a line break of its own. */
  predicate SingleLine(e: Entry) {
    '\n' !in e.extinf && '\n' !in e.url
  }

  /** Read back line by line, the text is the header plus exactly three lines per entry, in order. */
  lemma RenderLines(es: seq<Entry>)
    requires forall k :: 0 <= k < |es| ==> SingleLine(es[k])
    ensures Text.Split(Render(es)) == Lines(es)
    ensures |Text.Split(Render(es))| == 1 + 3 * |es|
  {
    var ls := Lines(es);
    forall i | 0 <= i < |ls| ensures '\n' !in ls[i] {
      if i > 0 {
        var k := (i - 1) / 3;
        assert 0 <= k < |es| && SingleLine(es[k]);
        assert i == 1 + 3 * k || i == 2 + 3 * k || i == 3 + 3 * k;
      }
    }
    Text.SplitJoin(ls);
  }
}
