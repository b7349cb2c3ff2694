/** The M3U playlist that internal/service/publisher.go prints, read back by the parser. */
module Playlist {
  import opened Common
  import opened Dedup
  import opened Model
  import opened Text
  import opened M3u
  import opened Channels

  function AttrChar(c: char): char {
    if c == '"' then '\'' else if c == '\n' || c == '\r' then ' ' else c
  }

  function Attr(s: string): (r: string)
    ensures |r| == |s| && '"' !in r && '\n' !in r && '\r' !in r
  {
    seq(|s|, i requires 0 <= i < |s| => AttrChar(s[i]))
  }

  function Quoted(key: string, value: string): string { key + "=\"" + value + "\"" }

  function Pairs(ps: seq<(string, string)>): string {
    if ps == [] then "" else " " + (Quoted(ps[0].0, ps[0].1) + Pairs(ps[1..]))
  }

  function Tags(c: Item): seq<(string, string)> {
    [("tvg-id", Attr(c.id)), ("tvg-logo", Attr(c.logo)), ("group-title", Attr(c.group))]
  }

  /** An EXTINF line up to the comma before the name. */
  function Head(c: Item): string { "#EXTINF:-1" + Pairs(Tags(c)) }

  function ExtinfLine(c: Item): string { Head(c) + ("," + Attr(c.name)) }

  function Entry(c: Item): string { ExtinfLine(c) + "\n" + c.url + "\n" }

  function Entries(xs: seq<Item>): string {
    if xs == [] then "" else Entries(xs[..|xs| - 1]) + Entry(xs[|xs| - 1])
  }

  function PlaylistBody(items: seq<Item>): string { "#EXTM3U\n" + Entries(FirstByUrl(items)) }

  const BASE := "__RELAY_" + "PUBLICATION_" + "BASE__"

  const GUIDE := "#EXTM3U" + (" url-tvg=\"" + (BASE + "/iptv/epg.xml\""))

  /** iptv/live.m3u: with a programme guide the first #EXTM3U is replaced by one that points to it. */
  function LiveM3u(channels: seq<Item>, guide: bool): string {
    if guide then GUIDE + PlaylistBody(channels)[7..] else PlaylistBody(channels)
  }

  // ---- the loop ----

  lemma Joined(p: string, q: string, r: string)
    ensures p + (q + r) == p + q + r
  {
  }

  lemma OneMoreEntry(items: seq<Item>, i: nat)
    requires i < |items|
    ensures Urls(items[..i + 1]) == Urls(items[..i]) + {items[i].url}
    ensures PlaylistBody(items[..i + 1])
         == if items[i].url in Urls(items[..i]) then PlaylistBody(items[..i])
         else PlaylistBody(items[..i]) + Entry(items[i])
  {
    var before, c := FirstByUrl(items[..i]), items[i];
    assert items[..i + 1] == items[..i] + [c];
    OneMore(UrlOf, items[..i], c);
    assert (before + [c])[..|before|] == before;
    Joined("#EXTM3U\n", Entries(before), Entry(c));
  }

  ghost predicate Written(items: seq<Item>, seen: set<string>, body: string) {
    seen == Urls(items) && body == PlaylistBody(items)
  }

  lemma WrittenNext(items: seq<Item>, i: nat, seen: set<string>, body: string)
    requires i < |items| && Written(items[..i], seen, body)
    ensures items[i].url in seen ==> Written(items[..i + 1], seen, body)
    ensures items[i].url !in seen ==> Written(items[..i + 1], seen + {items[i].url}, body + Entry(items[i]))
  {
    OneMoreEntry(items, i);
  }

  method WritePlaylist(items: seq<Item>) returns (body: string)
    ensures body == PlaylistBody(items)
  {
    body := "#EXTM3U\n";
    var seen: set<string> := {};
    assert Written(items[..0], seen, body);
    for i := 0 to |items|
      invariant Written(items[..i], seen, body)
    {
      WrittenNext(items, i, seen, body);
      if items[i].url in seen {
        continue;
      }
      seen := seen + {items[i].url};
      body := body + Entry(items[i]);
    }
    assert items[..|items|] == items;
  }

  // ---- reading an EXTINF line back ----

  lemma {:induction false} BareCommaPast(p: string, rest: string, quoted: bool)
    requires '"' !in p && (quoted || ',' !in p)
    ensures BareComma(p + rest, quoted) == |p| + BareComma(rest, quoted)
  {
    if p == [] {
      assert p + rest == rest;
    } else {
      assert p[0] in p && (p + rest)[1..] == p[1..] + rest;
      BareCommaPast(p[1..], rest, quoted);
    }
  }

  lemma BareCommaPastQuoted(key: string, value: string, rest: string)
    requires '"' !in key && ',' !in key && '"' !in value
    ensures BareComma(Quoted(key, value) + rest, false) == |Quoted(key, value)| + BareComma(rest, false)
  {
    var open, close := key + "=", "\"" + rest;
    var inside := value + close;
    var s := "\"" + inside;
    assert Quoted(key, value) + rest == open + s;
    BareCommaPast(open, s, false);
    assert s[1..] == inside && close[1..] == rest;
    BareCommaPast(value, close, true);
  }

  predicate AllWord(s: string) { forall c | c in s :: IsWord(c) }

  lemma {:induction false} WordRunOf(key: string, rest: string)
    requires AllWord(key) && (rest == [] || !IsWord(rest[0]))
    ensures WordRun(key + rest) == |key|
  {
    if key == [] {
      assert key + rest == rest;
    } else {
      assert key[0] in key && (key + rest)[1..] == key[1..] + rest;
      WordRunOf(key[1..], rest);
    }
  }

  lemma KeyParts(key: string, value: string, rest: string)
    ensures var s, k := Quoted(key, value) + rest, |key|;
            && s == key + ("=\"" + (value + ("\"" + rest))) && s[k + 2..] == value + ("\"" + rest)
            && |s| == k + 3 + |value| + |rest| && s[..k] == key && s[k] == '=' && s[k + 1] == '"'
            && s[k + 2..k + 2 + |value|] == value && s[k + 3 + |value|..] == rest
  {
  }

  lemma KeyFound(key: string, value: string, rest: string)
    requires AllWord(key) && '"' !in value
    ensures WordRun(Quoted(key, value) + rest) == |key|
    ensures Find((Quoted(key, value) + rest)[|key| + 2..], '"') == |value|
  {
    KeyParts(key, value, rest);
    WordRunOf(key, "=\"" + (value + ("\"" + rest)));
    FindPast(value, '"', "\"" + rest);
  }

  lemma KeyMatched(key: string, value: string, rest: string)
    requires key != [] && AllWord(key) && '"' !in value
    ensures MatchAt(Quoted(key, value) + rest) == Some(Match(key, value, rest))
  {
    KeyFound(key, value, rest);
    KeyParts(key, value, rest);
  }

  lemma AttributesTake(key: string, value: string, rest: string)
    requires key != [] && AllWord(key) && '"' !in value
    ensures Attributes(Quoted(key, value) + rest) == [(key, value)] + Attributes(rest)
  {
    KeyMatched(key, value, rest);
  }

  lemma {:induction false} AttributesSkip(p: string, rest: string)
    requires '=' !in p && (rest == [] || (!IsWord(rest[0]) && rest[0] != '='))
    ensures WordRun(p + rest) <= |p|
    ensures Attributes(p + rest) == Attributes(rest)
  {
    if p == [] {
      assert p + rest == rest;
    } else {
      assert (p + rest)[1..] == p[1..] + rest;
      AttributesSkip(p[1..], rest);
      var k := WordRun(p + rest);
      assert k < |p| ==> (p + rest)[k] == p[k] && p[k] in p;
      assert k == |p| && rest != [] ==> (p + rest)[k] == rest[0];
    }
  }

  predicate Printable(a: (string, string)) { a.0 != [] && AllWord(a.0) && '"' !in a.1 }

  lemma OnePair(key: string, value: string, more: string)
    requires key != [] && AllWord(key) && '"' !in value
    ensures Attributes(" " + (Quoted(key, value) + more)) == [(key, value)] + Attributes(more)
  {
    SpaceSkip(Quoted(key, value) + more);
    AttributesTake(key, value, more);
  }

  lemma {:induction false} PairsAttributes(ps: seq<(string, string)>)
    requires forall a | a in ps :: Printable(a)
    ensures Attributes(Pairs(ps)) == ps
  {
    if ps != [] {
      assert Printable(ps[0]);
      PairsAttributes(ps[1..]);
      OnePair(ps[0].0, ps[0].1, Pairs(ps[1..]));
      assert ps == [ps[0]] + ps[1..];
    }
  }

  lemma {:induction false} PairsComma(ps: seq<(string, string)>, rest: string)
    requires forall a | a in ps :: Printable(a)
    ensures BareComma(Pairs(ps) + rest, false) == |Pairs(ps)| + BareComma(rest, false)
  {
    if ps == [] {
      assert Pairs(ps) + rest == rest;
    } else {
      var a, more := ps[0], Pairs(ps[1..]);
      var q := Quoted(a.0, a.1);
      assert Printable(a);
      PairsComma(ps[1..], rest);
      WordsAreBare(a.0);
      BareCommaPastQuoted(a.0, a.1, more + rest);
      BareCommaPast(" ", q + (more + rest), false);
      PairJoined(q, more, rest);
    }
  }

  lemma PairJoined(q: string, more: string, rest: string)
    ensures " " + (q + more) + rest == " " + (q + (more + rest))
  {
  }

  lemma WordsAreBare(key: string)
    requires AllWord(key)
    ensures '"' !in key && ',' !in key
  {
  }

  lemma SpaceSkip(s: string)
    ensures Attributes(" " + s) == Attributes(s)
  {
    assert (" " + s)[1..] == s;
  }

  lemma TagsPrintable(c: Item)
    ensures forall a | a in Tags(c) :: Printable(a)
  {
  }

  lemma HeadAttributes(ps: seq<(string, string)>)
    requires forall a | a in ps :: Printable(a)
    ensures Attributes("#EXTINF:-1" + Pairs(ps)) == ps
  {
    PairsAttributes(ps);
    AttributesSkip("#EXTINF:-1", Pairs(ps));
  }

  lemma HeadComma(ps: seq<(string, string)>, name: string)
    requires forall a | a in ps :: Printable(a)
    ensures BareComma("#EXTINF:-1" + Pairs(ps) + ("," + name), false) == |"#EXTINF:-1" + Pairs(ps)|
  {
    var pairs, end := Pairs(ps), "," + name;
    PairsComma(ps, end);
    BareCommaPast("#EXTINF:-1", pairs + end, false);
    Joined("#EXTINF:-1", pairs, end);
  }

  /** An EXTINF line is read back as what was printed. */
  lemma HeadRead(c: Item, name: string)
    ensures BareComma(Head(c) + ("," + name), false) == |Head(c)|
    ensures Attributes(Head(c)) == Tags(c)
  {
    TagsPrintable(c);
    HeadAttributes(Tags(c));
    HeadComma(Tags(c), name);
  }

  // ---- the whole playlist ----

  /** A URL that the parser reads as it stands. Every URL that SafeURL admits is on one line
      and starts with its scheme. */
  predicate PlainUrl(u: string) { u != "" && OneLine(u) && Trim(u) == u && u[0] != '#' }

  predicate Playable(safe: string -> bool, c: Item) {
    PlainUrl(c.url) && safe(c.url) && (c.logo == "" || safe(Attr(c.logo)))
  }

  /** What a channel looks like after printing and parsing. */
  function Presented(c: Item): Item { Item(Attr(c.id), Trim(Attr(c.name)), c.url, Attr(c.group), Attr(c.logo), "", "") }

  /** What printing does to a text: quotes become apostrophes, line breaks become spaces, and nothing else changes. */
  lemma AttrAt(s: string, i: nat)
    requires i < |s|
    ensures var c := Attr(s)[i];
            if s[i] == '"' then c == '\'' else if s[i] == '\n' || s[i] == '\r' then c == ' ' else c == s[i]
  {
  }

  lemma {:induction false} PresentedMeans(c: Item)
    ensures var x := Presented(c);
            && x.url == c.url && |x.id| == |c.id| && |x.group| == |c.group| && |x.logo| == |c.logo|
            && x.language == x.region == ""
            && (OneLine(c.id) && '"' !in c.id ==> x.id == c.id)
            && (OneLine(c.group) && '"' !in c.group ==> x.group == c.group)
            && (OneLine(c.logo) && '"' !in c.logo ==> x.logo == c.logo)
            && (OneLine(c.name) && '"' !in c.name && Trim(c.name) == c.name ==> x.name == c.name)
  {
    PlainIsKept(c.id);
    PlainIsKept(c.group);
    PlainIsKept(c.logo);
    PlainIsKept(c.name);
  }

  lemma PlainIsKept(s: string)
    ensures OneLine(s) && '"' !in s ==> Attr(s) == s
  {
    if OneLine(s) && '"' !in s {
      forall i | 0 <= i < |s| ensures Attr(s)[i] == s[i] {
        assert s[i] in s;
      }
    }
  }

  function EntryLines(c: Item): seq<string> { [ExtinfLine(c), c.url] }

  lemma ExtinfTrimmed(c: Item)
    ensures Trim(ExtinfLine(c)) == Head(c) + ("," + TrimRight(Attr(c.name)))
  {
    var start := Head(c) + ",";
    assert ExtinfLine(c) == start + Attr(c.name) && ExtinfLine(c)[0] == '#';
    TrimRightStops(start, Attr(c.name));
    assert start + TrimRight(Attr(c.name)) == Head(c) + ("," + TrimRight(Attr(c.name)));
  }

  lemma ExtinfFrom(resolve: string -> string, head: string, name: string, tags: seq<(string, string)>, group: string)
    requires BareComma(head + ("," + name), false) == |head| && Attributes(head) == tags
    ensures Extinf(resolve, head + ("," + name), group)
         == Some(AllAttributed(resolve, Item("", Trim(name), "", group, "", "", ""), tags))
  {
    NameParts(head, name);
  }

  lemma NameParts(head: string, name: string)
    ensures var line := head + ("," + name); |line| > |head| && line[..|head|] == head && line[|head| + 1..] == name
  {
  }

  lemma ExtinfRead(resolve: string -> string, c: Item, group: string)
    requires forall u :: resolve(u) == u
    ensures Extinf(resolve, Trim(ExtinfLine(c)), group) == Some(Presented(c).(url := ""))
  {
    var name := TrimRight(Attr(c.name));
    ExtinfTrimmed(c);
    HeadRead(c, name);
    ExtinfFrom(resolve, Head(c), name, Tags(c), group);
    TrimOfTrimRight(Attr(c.name));
    TagsApplied(resolve, c, Item("", Trim(name), "", group, "", "", ""));
  }

  lemma TagsApplied(resolve: string -> string, c: Item, x: Item)
    requires forall u :: resolve(u) == u
    ensures AllAttributed(resolve, x, Tags(c)) == x.(id := Attr(c.id), logo := Attr(c.logo), group := Attr(c.group))
  {
    var ts := Tags(c);
    assert ts[1..][1..] == [ts[2]] && ts[1..] == [ts[1], ts[2]];
    var y := Attributed(resolve, x, ts[0]);
    var z := Attributed(resolve, y, ts[1]);
    assert AllAttributed(resolve, z, [ts[2]]) == Attributed(resolve, z, ts[2]);
    assert AllAttributed(resolve, y, ts[1..]) == AllAttributed(resolve, z, [ts[2]]);
  }

  lemma ExtinfPending(resolve: string -> string, st: State, raw: string, item: Item)
    requires StartsWith(Trim(raw), "#EXTINF:") && Extinf(resolve, Trim(raw), st.group) == Some(item)
    ensures ReadLine(resolve, st, raw) == Ok(st.(pending := Some(item)))
  {
  }

  lemma ExtinfStarts(c: Item)
    ensures StartsWith(Trim(ExtinfLine(c)), "#EXTINF:")
  {
    ExtinfTrimmed(c);
    assert Trim(ExtinfLine(c))[..8] == "#EXTINF:";
  }

  lemma ExtinfLineRead(resolve: string -> string, st: State, c: Item)
    requires forall u :: resolve(u) == u
    ensures ReadLine(resolve, st, ExtinfLine(c)) == Ok(st.(pending := Some(Presented(c).(url := ""))))
  {
    ExtinfStarts(c);
    ExtinfRead(resolve, c, st.group);
    ExtinfPending(resolve, st, ExtinfLine(c), Presented(c).(url := ""));
  }

  lemma UrlLineRead(resolve: string -> string, st: State, url: string)
    requires (forall u :: resolve(u) == u) && PlainUrl(url) && st.pending.Some?
    ensures ReadLine(resolve, st, url) == Ok(st.(pending := None, items := st.items + [st.pending.value.(url := url)]))
  {
  }

  lemma EntryRead(resolve: string -> string, st: State, c: Item)
    requires (forall u :: resolve(u) == u) && PlainUrl(c.url)
    ensures Fold(Reader(resolve), st, EntryLines(c)) == Ok(st.(pending := None, items := st.items + [Presented(c)]))
  {
    var mid := st.(pending := Some(Presented(c).(url := "")));
    ExtinfLineRead(resolve, st, c);
    UrlLineRead(resolve, mid, c.url);
    TwoSteps(Reader(resolve), st, ExtinfLine(c), c.url, mid);
  }

  lemma TwoSteps(read: (State, string) -> Result<State, Failure>, st: State, a: string, b: string, mid: State)
    requires read(st, a) == Ok(mid)
    ensures Fold(read, st, [a, b]) == read(mid, b)
  {
    assert [a, b][1..] == [b] && [b][1..] == [];
    assert Fold(read, mid, [b]) == read(mid, b);
  }

  /** Reading the lines of x adds the item that x stands for, and leaves nothing pending. */
  ghost predicate Adds<X(!new)>(read: (State, string) -> Result<State, Failure>, lines: X -> seq<string>,
                                item: X -> Item, x: X) {
    forall st: State | st.pending.None? :: Fold(read, st, lines(x)) == Ok(st.(items := st.items + [item(x)]))
  }

  lemma {:induction false} AllAdd<X(!new)>(read: (State, string) -> Result<State, Failure>, lines: X -> seq<string>,
                                           item: X -> Item, st: State, xs: seq<X>)
    requires st.pending.None? && forall x | x in xs :: Adds(read, lines, item, x)
    ensures Fold(read, st, FlatMap(lines, xs)) == Ok(st.(items := st.items + Map(item, xs)))
  {
    if xs == [] {
      assert st.items + [] == st.items;
    } else {
      var n := |xs| - 1;
      AllAdd(read, lines, item, st, xs[..n]);
      FoldAppended(read, st, FlatMap(lines, xs[..n]), lines(xs[n]));
      var before, last := Map(item, xs[..n]), [item(xs[n])];
      var mid := st.(items := st.items + before);
      assert Adds(read, lines, item, xs[n]);
      assert Fold(read, mid, lines(xs[n])) == Ok(mid.(items := mid.items + last));
      assert st.items + before + last == st.items + (before + last);
    }
  }

  // ---- the text as lines ----

  lemma {:induction false} LinesTake(line: string, rest: string)
    requires '\n' !in line
    ensures Lines(line + ("\n" + rest)) == [line] + Lines(rest)
  {
    var s := line + ("\n" + rest);
    FindPast(line, '\n', "\n" + rest);
    assert s[..|line|] == line && s[|line| + 1..] == rest;
  }

  predicate AllOneLine(ls: seq<string>) { forall l | l in ls :: OneLine(l) }

  lemma {:induction false} LinesOfUnlines(ls: seq<string>)
    requires AllOneLine(ls)
    ensures Lines(Unlines(ls)) == ls + [""]
  {
    if ls != [] {
      assert ls[0] in ls;
      LinesOfUnlines(ls[1..]);
      LinesTake(ls[0], Unlines(ls[1..]));
      assert [ls[0]] + (ls[1..] + [""]) == ls + [""];
    }
  }

  lemma {:induction false} UnlinesHasNoReturn(ls: seq<string>)
    requires AllOneLine(ls)
    ensures '\r' !in Unlines(ls)
  {
    if ls != [] {
      assert ls[0] in ls;
      UnlinesHasNoReturn(ls[1..]);
    }
  }

  lemma {:induction false} UnixKeeps(s: string)
    requires '\r' !in s
    ensures Unix(s) == s
  {
    if s != [] {
      assert s[0] in s;
      UnixKeeps(s[1..]);
      assert [s[0]] + s[1..] == s;
    }
  }

  /** The parser sees the very lines that were written, and an empty one at the end. */
  lemma WrittenLines(ls: seq<string>)
    requires AllOneLine(ls)
    ensures Lines(Unix(Unlines(ls))) == ls + [""]
  {
    UnlinesHasNoReturn(ls);
    UnixKeeps(Unlines(ls));
    LinesOfUnlines(ls);
  }

  lemma EntryIsLines(c: Item)
    ensures Entry(c) == Unlines(EntryLines(c))
  {
    var ls := EntryLines(c);
    assert ls[1..] == [c.url] && ls[1..][1..] == [];
    assert Unlines(ls[1..]) == c.url + ("\n" + "");
  }

  lemma {:induction false} EntriesAreLines(xs: seq<Item>)
    ensures Entries(xs) == Unlines(FlatMap(EntryLines, xs))
  {
    if xs != [] {
      var n := |xs| - 1;
      EntriesAreLines(xs[..n]);
      EntryIsLines(xs[n]);
      UnlinesAppended(FlatMap(EntryLines, xs[..n]), EntryLines(xs[n]));
    }
  }

  function Header(guide: bool): string { if guide then GUIDE else "#EXTM3U" }

  lemma HeaderReplaced(guide: bool, entries: string)
    ensures var plain := "#EXTM3U\n" + entries;
            (if guide then GUIDE + plain[7..] else plain) == Header(guide) + ("\n" + entries)
  {
    assert "#EXTM3U\n" == "#EXTM3U" + "\n";
    assert ("#EXTM3U\n" + entries)[7..] == "\n" + entries;
  }

  lemma LiveIsLines(channels: seq<Item>, guide: bool)
    ensures LiveM3u(channels, guide) == Unlines([Header(guide)] + FlatMap(EntryLines, FirstByUrl(channels)))
  {
    var ls := FlatMap(EntryLines, FirstByUrl(channels));
    EntriesAreLines(FirstByUrl(channels));
    HeaderReplaced(guide, Unlines(ls));
    assert ([Header(guide)] + ls)[1..] == ls;
  }

  lemma PrefixHas(s: string, sub: string, c: char)
    requires c in sub && StartsWith(s, sub)
    ensures c in s
  {
  }

  lemma {:induction false} ContainsNeeds(s: string, sub: string, c: char)
    requires c in sub && Contains(s, sub)
    ensures c in s
  {
    if StartsWith(s, sub) {
      PrefixHas(s, sub, c);
    } else {
      ContainsNeeds(s[1..], sub, c);
    }
  }

  lemma {:induction false} LowerWithout(s: string, c: char, upper: char)
    requires 'a' <= c <= 'z' && upper as int == c as int - 'a' as int + 'A' as int
    requires c !in s && upper !in s
    ensures c !in Lower(s)
  {
    if s != [] {
      LowerWithout(s[..|s| - 1], c, upper);
      assert s[|s| - 1] in s;
    }
  }

  predicate Harmless(c: char) { c != 'z' && c != 'Z' && c != 'k' && c != 'K' && c != '\n' && c != '\r' }

  lemma BaseIsHarmless()
    ensures forall c | c in BASE :: Harmless(c)
  {
  }

  lemma HeaderIsHarmless(guide: bool)
    ensures forall c | c in Header(guide) :: Harmless(c)
  {
    BaseIsHarmless();
    assert forall c | c in " url-tvg=\"" :: Harmless(c);
    assert forall c | c in "/iptv/epg.xml\"" :: Harmless(c);
  }

  /** A line that the parser skips. */
  predicate Comment(h: string) {
    Trim(h) == h && OneLine(h) && h != [] && h[0] == '#' && !StartsWith(h, "#EXTINF:") && !MentionsCredentials(h)
  }

  lemma MentionsNothing(h: string)
    requires forall c | c in h :: Harmless(c)
    ensures !MentionsCredentials(h)
  {
    LowerWithout(h, 'z', 'Z');
    LowerWithout(h, 'k', 'K');
    assert "authorization"[7] == 'z' && "http-cookie"[8] == 'k';
    if Contains(Lower(h), "authorization") {
      ContainsNeeds(Lower(h), "authorization", 'z');
    }
    if Contains(Lower(h), "http-cookie") {
      ContainsNeeds(Lower(h), "http-cookie", 'k');
    }
  }

  lemma AlreadyTrim(s: string)
    requires s != [] && !IsSpace(s[0]) && !IsSpace(s[|s| - 1])
    ensures Trim(s) == s
  {
  }

  lemma HeaderEnds(guide: bool)
    ensures var h := Header(guide); |h| > 4 && h[0] == '#' && h[4] == 'M' && (h[|h| - 1] == '"' || h[|h| - 1] == 'U')
  {
  }

  lemma NotExtinf(h: string)
    requires |h| > 4 && h[4] == 'M'
    ensures !StartsWith(h, "#EXTINF:")
  {
    assert "#EXTINF:"[4] == 'I';
  }

  lemma HeaderIsComment(guide: bool)
    ensures Comment(Header(guide))
  {
    HeaderIsHarmless(guide);
    HeaderEnds(guide);
    MentionsNothing(Header(guide));
    AlreadyTrim(Header(guide));
    NotExtinf(Header(guide));
  }

  lemma CommentRead(resolve: string -> string, st: State, h: string)
    requires Comment(h)
    ensures Reader(resolve)(st, h) == Ok(st)
  {
  }

  lemma EmptyRead(resolve: string -> string, st: State)
    ensures Reader(resolve)(st, "") == Ok(st)
  {
  }

  // ---- the round trip ----

  predicate Screens(safe: string -> bool, x: Item) { x.url != "" && safe(x.url) && (x.logo == "" || safe(x.logo)) }

  lemma {:induction false} AllSafeKept(safe: string -> bool, xs: seq<Item>)
    requires forall x | x in xs :: Screens(safe, x)
    ensures AllScreened(safe, xs) == Parsed(xs, [])
  {
    if xs != [] {
      var n := |xs| - 1;
      AllSafeKept(safe, xs[..n]);
      assert Screens(safe, xs[n]) && xs == xs[..n] + [xs[n]];
    }
  }

  lemma PlayableScreens(safe: string -> bool, xs: seq<Item>, y: Item)
    requires (forall c | c in xs :: Playable(safe, c)) && y in Map(Presented, xs)
    ensures Screens(safe, y)
  {
    var c := MapIn(Presented, xs, y);
    assert Playable(safe, c);
    assert c.logo == "" ==> Attr(c.logo) == "";
  }

  lemma ReadsEntry(resolve: string -> string, c: Item)
    requires (forall u :: resolve(u) == u) && PlainUrl(c.url)
    ensures Adds(Reader(resolve), EntryLines, Presented, c)
  {
    forall st: State | st.pending.None?
      ensures Fold(Reader(resolve), st, EntryLines(c)) == Ok(st.(items := st.items + [Presented(c)]))
    {
      EntryRead(resolve, st, c);
    }
  }

  /** Reading a comment line, then the lines of the items, then the empty line at the end. */
  lemma BodyRead<X(!new)>(read: (State, string) -> Result<State, Failure>, h: string, lines: X -> seq<string>,
                          item: X -> Item, xs: seq<X>)
    requires read(START, h) == Ok(START) && (forall st: State :: read(st, "") == Ok(st))
    requires forall x | x in xs :: Adds(read, lines, item, x)
    ensures Fold(read, START, [h] + FlatMap(lines, xs) + [""]) == Ok(START.(items := Map(item, xs)))
  {
    var ls, end := FlatMap(lines, xs), START.(items := [] + Map(item, xs));
    AllAdd(read, lines, item, START, xs);
    FoldAppended(read, START, ls, [""]);
    assert Fold(read, end, [""]) == Ok(end);
    assert [h] + ls + [""] == [h] + (ls + [""]) && ([h] + (ls + [""]))[1..] == ls + [""];
    assert end == START.(items := Map(item, xs));
  }

  lemma EntriesOneLine(xs: seq<Item>, l: string)
    requires (forall c | c in xs :: PlainUrl(c.url)) && l in FlatMap(EntryLines, xs)
    ensures OneLine(l)
  {
    var c := FlatMapIn(EntryLines, xs, l);
    ExtinfOneLine(c);
  }

  lemma {:induction false} PairsOneLine(ps: seq<(string, string)>)
    requires forall a | a in ps :: OneLine(a.0) && OneLine(a.1)
    ensures OneLine(Pairs(ps))
  {
    if ps != [] {
      assert ps[0] in ps;
      PairsOneLine(ps[1..]);
    }
  }

  lemma TagsOneLine(c: Item)
    ensures forall a | a in Tags(c) :: OneLine(a.0) && OneLine(a.1)
  {
  }

  lemma ExtinfOneLine(c: Item)
    ensures OneLine(ExtinfLine(c))
  {
    TagsOneLine(c);
    PairsOneLine(Tags(c));
    assert OneLine("#EXTINF:-1");
  }

  /**
   * The round trip of the compiled playlist, with or without a programme guide: parsing with an empty base yields,
   * without a warning, one channel per URL in order, as Presented shows it.
   */
  lemma PlaylistRoundTrip(resolve: string -> string, safe: string -> bool, channels: seq<Item>, guide: bool)
    requires channels != [] && (forall u :: resolve(u) == u) && forall c | c in channels :: Playable(safe, c)
    ensures Parse(resolve, safe, LiveM3u(channels, guide)) == Ok(Parsed(Map(Presented, FirstByUrl(channels)), []))
  {
    var xs := FirstByUrl(channels);
    FirstBySubset(UrlOf, channels);
    HeaderIsComment(guide);
    LiveIsLines(channels, guide);
    PlaylistRead(resolve, safe, Header(guide), xs);
  }

  lemma ParseFinishes(resolve: string -> string, safe: string -> bool, body: string, end: State)
    requires Fold(Reader(resolve), START, Lines(Unix(body))) == Ok(end)
    ensures Parse(resolve, safe, body) == Finish(safe, end)
  {
  }

  lemma AllFinished(safe: string -> bool, end: State)
    requires end.pending.None? && end.warnings == [] && end.items != [] && forall y | y in end.items :: Screens(safe, y)
    ensures Finish(safe, end) == Ok(Parsed(end.items, []))
  {
    AllSafeKept(safe, end.items);
  }

  /** From the lines to the whole parse. */
  lemma ParsedFrom(resolve: string -> string, safe: string -> bool, ls: seq<string>, end: State)
    requires AllOneLine(ls) && Fold(Reader(resolve), START, ls + [""]) == Ok(end)
    requires end.pending.None? && end.warnings == [] && end.items != [] && forall y | y in end.items :: Screens(safe, y)
    ensures Parse(resolve, safe, Unlines(ls)) == Ok(Parsed(end.items, []))
  {
    WrittenLines(ls);
    ParseFinishes(resolve, safe, Unlines(ls), end);
    AllFinished(safe, end);
  }

  lemma PlaylistRead(resolve: string -> string, safe: string -> bool, h: string, xs: seq<Item>)
    requires Comment(h) && xs != [] && (forall u :: resolve(u) == u) && forall c | c in xs :: Playable(safe, c)
    ensures Parse(resolve, safe, Unlines([h] + FlatMap(EntryLines, xs))) == Ok(Parsed(Map(Presented, xs), []))
  {
    var ls := [h] + FlatMap(EntryLines, xs);
    forall l | l in ls ensures OneLine(l) {
      if l != h {
        EntriesOneLine(xs, l);
      }
    }
    CommentRead(resolve, START, h);
    forall st: State ensures Reader(resolve)(st, "") == Ok(st) {
      EmptyRead(resolve, st);
    }
    forall x | x in xs ensures Adds(Reader(resolve), EntryLines, Presented, x) {
      ReadsEntry(resolve, x);
    }
    BodyRead(Reader(resolve), h, EntryLines, Presented, xs);
    forall y | y in Map(Presented, xs) ensures Screens(safe, y) {
      PlayableScreens(safe, xs, y);
    }
    ParsedFrom(resolve, safe, ls, START.(items := Map(Presented, xs)));
  }

  /** The playlist that Compile publishes for its members holds exactly one channel for each URL they contribute. */
  lemma CompiledRoundTrip(resolve: string -> string, safe: string -> bool, rules: seq<ChannelRule>, feeds: seq<Feed>,
                          guide: bool)
    requires var xs := FirstByUrl(Contributions(rules, feeds)); xs != [] && forall c | c in xs :: Playable(safe, c)
    requires forall u :: resolve(u) == u
    ensures var xs := FirstByUrl(Contributions(rules, feeds));
            && Parse(resolve, safe, LiveM3u(xs, guide)) == Ok(Parsed(Map(Presented, xs), []))
            && DistinctBy(UrlOf, xs) && Urls(xs) == Urls(Contributions(rules, feeds))
  {
    var all := Contributions(rules, feeds);
    FirstByKeepsKeys(UrlOf, all);
    FirstByTwice(UrlOf, FirstByUrl(all));
    PlaylistRoundTrip(resolve, safe, FirstByUrl(all), guide);
  }

  lemma AttrKeeps(s: string)
    requires '"' !in s && OneLine(s)
    ensures Attr(s) == s
  {
    forall i | 0 <= i < |s| ensures Attr(s)[i] == s[i] {
      assert s[i] in s;
    }
  }

  lemma TrimShape(s: string)
    ensures forall c | c in Trim(s) :: c in s
    ensures Trim(Trim(s)) == Trim(s)
  {
    TrimLeftShape(s);
    TrimRightShape(TrimLeft(s));
    TrimRightTwice(TrimLeft(s));
  }

  /** One round trip settles everything: another one changes nothing more. */
  lemma PresentedTwice(c: Item)
    ensures Presented(Presented(c)) == Presented(c)
  {
    TrimShape(Attr(c.name));
    AttrKeeps(Attr(c.id));
    AttrKeeps(Attr(c.group));
    AttrKeeps(Attr(c.logo));
    AttrKeeps(Trim(Attr(c.name)));
  }
}
