/** iptv/live.txt of internal/service/exports.go: channels under their groups, read back by the playlist parser. */
module TxtList {
  import opened Common
  import opened Model
  import opened Text
  import opened M3u
  import opened Playlist
  import opened GroupBy

  const WIDE_COMMA := '\U{ff0c}'
  const UNGROUPED := ['\U{672a}', '\U{5206}', '\U{7ec4}']

  function CommaChar(c: char): char { if c == ',' then WIDE_COMMA else c }

  function GroupChar(c: char): char { if c == ',' then WIDE_COMMA else if c == '\n' || c == '\r' then ' ' else c }

  function TxtName(name: string): (r: string)
    ensures |r| == |name| && ',' !in r
  {
    seq(|name|, i requires 0 <= i < |name| => CommaChar(name[i]))
  }

  function TxtGroup(group: string): (r: string)
    ensures r != [] && ',' !in r && '\n' !in r && '\r' !in r
  {
    if group == "" then UNGROUPED else seq(|group|, i requires 0 <= i < |group| => GroupChar(group[i]))
  }

  /** What printing does to a name and a group: commas become wide ones, and in a group line breaks become spaces; a
      channel without a group gets the group of those that have none. */
  lemma TxtNameAt(name: string, i: nat)
    requires i < |name|
    ensures |TxtName(name)| == |name|
    ensures TxtName(name)[i] == if name[i] == ',' then '\U{ff0c}' else name[i]
  {
  }

  lemma TxtGroupAt(group: string, i: nat)
    ensures group == "" ==> TxtGroup(group) == UNGROUPED
    ensures i < |group| ==>
              && |TxtGroup(group)| == |group|
              && TxtGroup(group)[i] == if group[i] == ',' then '\U{ff0c}'
                                       else if group[i] == '\n' || group[i] == '\r' then ' ' else group[i]
  {
  }

  function Genre(x: Item): string { TxtGroup(x.group) }

  function GenreLine(g: string): string { g + ("," + "#genre#") }

  function ItemLine(x: Item): string { TxtName(x.name) + ("," + x.url) }

  function SectionLines(xs: seq<Item>, g: string): seq<string> { [GenreLine(g)] + Map(ItemLine, InGroup(Genre, g, xs)) }

  function LinesOf(xs: seq<Item>): string -> seq<string> { (g: string) => SectionLines(xs, g) }

  function AllLines(xs: seq<Item>): seq<string> { FlatMap(LinesOf(xs), Groups(Genre, xs)) }

  function TxtBody(xs: seq<Item>): string { Unlines(AllLines(xs)) }

  // ---- reading it back ----

  /** What a channel looks like after printing and parsing: id and logo are gone. */
  function Relisted(x: Item): Item { Item("", TrimLeft(TxtName(x.name)), x.url, TrimLeft(Genre(x)), "", "", "") }

  predicate Hashed(s: string) { s != [] && s[0] == '#' }

  predicate Listable(safe: string -> bool, x: Item) {
    PlainUrl(x.url) && safe(x.url) && OneLine(x.name) && !Hashed(TrimLeft(TxtName(x.name)))
      && !Hashed(TrimLeft(Genre(x)))
  }

  lemma CommaJoined(left: string, right: string)
    ensures left + "," + right == left + ("," + right)
  {
  }

  lemma RightTrimmed(start: string, right: string)
    requires start != [] && !IsSpace(start[|start| - 1]) && Trim(right) == right
    ensures TrimRight(start + right) == start + right
  {
    TrimKeeps(right);
    TrimRightStops(start, right);
  }

  lemma CommaRightTrimmed(left: string, right: string)
    requires Trim(right) == right
    ensures TrimRight(left + ("," + right)) == left + ("," + right)
  {
    CommaJoined(left, right);
    RightTrimmed(left + ",", right);
  }

  lemma TrimmedBothSides(raw: string, line: string)
    requires TrimLeft(raw) == line && TrimRight(line) == line
    ensures Trim(raw) == line
  {
  }

  lemma TxtLineTrimmed(left: string, right: string, raw: string, line: string)
    requires Trim(right) == right && raw == left + ("," + right) && line == TrimLeft(left) + ("," + right)
    ensures Trim(raw) == line
  {
    TrimLeftStops(left, "," + right);
    CommaRightTrimmed(TrimLeft(left), right);
    TrimmedBothSides(raw, line);
  }

  lemma TrimKeeps(s: string)
    requires Trim(s) == s
    ensures TrimRight(s) == s
  {
    TrimRightTwice(TrimLeft(s));
  }

  lemma CommaFound(left: string, right: string)
    requires ',' !in left
    ensures var line := left + ("," + right);
            Find(line, ',') == |left| < |line| && line[..|left|] == left && line[|left| + 1..] == right
  {
    FindPast(left, ',', "," + right);
  }

  lemma SameStart(s: string, p: string)
    requires StartsWith(s, p) && p != []
    ensures s != [] && s[0] == p[0]
  {
  }

  function AfterTxt(resolve: string -> string, st: State, left: string, right: string): State {
    if right == "#genre#" then st.(group := left)
    else st.(items := st.items + [Item("", left, resolve(right), st.group, "", "", "")])
  }

  /** The line is left, a comma and right, and no comment. */
  predicate Splits(line: string, left: string, right: string) {
    && line != [] && line[0] != '#' && Trim(right) == right
    && Find(line, ',') == |left| < |line| && line[..|left|] == left && line[|left| + 1..] == right
  }

  lemma SplitTxt(resolve: string -> string, st: State, line: string, left: string, right: string)
    requires Splits(line, left, right)
    ensures ReadTxt(resolve, st, line) == AfterTxt(resolve, st, left, right)
  {
    assert Trim(line[|left| + 1..]) == right;
  }

  lemma BareLineRead(resolve: string -> string, st: State, raw: string)
    requires st.pending.None? && Trim(raw) != [] && Trim(raw)[0] != '#'
    ensures ReadLine(resolve, st, raw) == Ok(ReadTxt(resolve, st, Trim(raw)))
  {
    if StartsWith(Trim(raw), "#EXTINF:") {
      SameStart(Trim(raw), "#EXTINF:");
    }
  }

  lemma SplitRead(resolve: string -> string, st: State, raw: string, left: string, right: string)
    requires st.pending.None? && Splits(Trim(raw), left, right)
    ensures ReadLine(resolve, st, raw) == Ok(AfterTxt(resolve, st, left, right))
  {
    BareLineRead(resolve, st, raw);
    SplitTxt(resolve, st, Trim(raw), left, right);
  }

  lemma Resplit(left: string, right: string)
    requires Trim(right) == right && ',' !in left && !Hashed(left)
    ensures Splits(left + ("," + right), left, right)
  {
    CommaFound(left, right);
  }

  lemma TrimmedLacks(s: string, c: char)
    requires c !in s
    ensures c !in TrimLeft(s)
  {
    TrimLeftShape(s);
  }

  lemma TxtLineSplits(left: string, right: string)
    requires Trim(right) == right && ',' !in left && !Hashed(TrimLeft(left))
    ensures Splits(Trim(left + ("," + right)), TrimLeft(left), right)
  {
    var line := TrimLeft(left) + ("," + right);
    TrimmedLacks(left, ',');
    Resplit(TrimLeft(left), right);
    TxtLineTrimmed(left, right, left + ("," + right), line);
  }

  lemma GenreRead(resolve: string -> string, st: State, g: string, mark: string)
    requires st.pending.None? && ',' !in g && !Hashed(TrimLeft(g)) && mark == "#genre#"
    ensures ReadLine(resolve, st, g + ("," + mark)) == Ok(st.(group := TrimLeft(g)))
  {
    AlreadyTrim(mark);
    TxtLineSplits(g, mark);
    SplitRead(resolve, st, g + ("," + mark), TrimLeft(g), mark);
  }

  lemma UrlIsNoMark(url: string)
    requires PlainUrl(url)
    ensures url != "#genre#"
  {
    assert "#genre#"[0] == '#';
  }

  lemma ItemLineRead(resolve: string -> string, safe: string -> bool, st: State, x: Item)
    requires (forall u :: resolve(u) == u) && st.pending.None? && Listable(safe, x) && st.group == TrimLeft(Genre(x))
    ensures ReadLine(resolve, st, ItemLine(x)) == Ok(st.(items := st.items + [Relisted(x)]))
  {
    var name := TxtName(x.name);
    UrlIsNoMark(x.url);
    TxtLineSplits(name, x.url);
    SplitRead(resolve, st, ItemLine(x), TrimLeft(name), x.url);
    assert AfterTxt(resolve, st, TrimLeft(name), x.url) == st.(items := st.items + [Relisted(x)]);
  }

  /** Reading the line of x in its group adds x as it is shown. */
  ghost predicate AddsIn<X(!new)>(read: (State, string) -> Result<State, Failure>, group: string, line: X -> string,
                                  item: X -> Item, x: X) {
    forall st: State | st.pending.None? && st.group == group ::
        read(st, line(x)) == Ok(st.(items := st.items + [item(x)]))
  }

  lemma OneStep(read: (State, string) -> Result<State, Failure>, st: State, l: string)
    ensures Fold(read, st, [l]) == read(st, l)
  {
    assert [l][1..] == [];
  }

  lemma {:induction false} AllAddIn<X(!new)>(read: (State, string) -> Result<State, Failure>, line: X -> string,
                                             item: X -> Item, st: State, ys: seq<X>)
    requires st.pending.None? && forall y | y in ys :: AddsIn(read, st.group, line, item, y)
    ensures Fold(read, st, Map(line, ys)) == Ok(st.(items := st.items + Map(item, ys)))
  {
    if ys == [] {
      assert st.items + [] == st.items;
    } else {
      var n := |ys| - 1;
      AllAddIn(read, line, item, st, ys[..n]);
      FoldAppended(read, st, Map(line, ys[..n]), [line(ys[n])]);
      var before, last := Map(item, ys[..n]), [item(ys[n])];
      var mid := st.(items := st.items + before);
      OneStep(read, mid, line(ys[n]));
      assert AddsIn(read, st.group, line, item, ys[n]);
      assert read(mid, line(ys[n])) == Ok(mid.(items := mid.items + last));
      assert st.items + before + last == st.items + (before + last);
    }
  }

  /** A section reads as its channels, whatever group was in force before. */
  ghost predicate SectionReads<K(!new)>(read: (State, string) -> Result<State, Failure>, lines: K -> seq<string>,
                                        group: K -> string, items: K -> seq<Item>, g: K) {
    forall st: State | st.pending.None? ::
        Fold(read, st, lines(g)) == Ok(st.(group := group(g), items := st.items + items(g)))
  }

  lemma SectionRead<X(!new)>(read: (State, string) -> Result<State, Failure>, st: State, head: string, group: string,
                             line: X -> string, item: X -> Item, ys: seq<X>)
    requires st.pending.None? && read(st, head) == Ok(st.(group := group))
    requires forall y | y in ys :: AddsIn(read, group, line, item, y)
    ensures Fold(read, st, [head] + Map(line, ys)) == Ok(st.(group := group, items := st.items + Map(item, ys)))
  {
    AllAddIn(read, line, item, st.(group := group), ys);
    assert ([head] + Map(line, ys))[1..] == Map(line, ys);
  }

  lemma {:induction false} SectionsRead<K(!new)>(read: (State, string) -> Result<State, Failure>, st: State,
                                                 lines: K -> seq<string>, group: K -> string,
                                                 items: K -> seq<Item>, gs: seq<K>)
    requires st.pending.None? && forall g | g in gs :: SectionReads(read, lines, group, items, g)
    ensures Fold(read, st, FlatMap(lines, gs))
         == Ok(st.(group := if gs == [] then st.group else group(gs[|gs| - 1]), items := st.items + FlatMap(items, gs)))
  {
    if gs == [] {
      assert st.items + [] == st.items;
    } else {
      var n := |gs| - 1;
      SectionsRead(read, st, lines, group, items, gs[..n]);
      var before, last := FlatMap(items, gs[..n]), items(gs[n]);
      var mid := st.(group := if n == 0 then st.group else group(gs[n - 1]), items := st.items + before);
      FoldAppended(read, st, FlatMap(lines, gs[..n]), lines(gs[n]));
      assert SectionReads(read, lines, group, items, gs[n]);
      assert Fold(read, mid, lines(gs[n])) == Ok(mid.(group := group(gs[n]), items := mid.items + last));
      assert st.items + before + last == st.items + (before + last);
    }
  }

  predicate AllListable(safe: string -> bool, xs: seq<Item>) { forall x | x in xs :: Listable(safe, x) }

  function ItemsOf(xs: seq<Item>): string -> seq<Item> { (g: string) => Map(Relisted, InGroup(Genre, g, xs)) }

  lemma {:induction false} InGroupFrom(g: string, xs: seq<Item>)
    ensures forall x | x in InGroup(Genre, g, xs) :: x in xs && Genre(x) == g
  {
    if xs != [] {
      InGroupFrom(g, xs[..|xs| - 1]);
    }
  }

  lemma GroupSectionReads(resolve: string -> string, safe: string -> bool, xs: seq<Item>, g: string)
    requires (forall u :: resolve(u) == u) && AllListable(safe, xs) && InGroup(Genre, g, xs) != []
    ensures SectionReads(Reader(resolve), LinesOf(xs), TrimLeft, ItemsOf(xs), g)
  {
    var ys := InGroup(Genre, g, xs);
    InGroupFrom(g, xs);
    assert Listable(safe, ys[0]) && Genre(ys[0]) == g;
    forall y | y in ys ensures AddsIn(Reader(resolve), TrimLeft(g), ItemLine, Relisted, y) {
      assert Listable(safe, y) && Genre(y) == g;
      forall st: State | st.pending.None? && st.group == TrimLeft(g)
        ensures Reader(resolve)(st, ItemLine(y)) == Ok(st.(items := st.items + [Relisted(y)]))
      {
        ItemLineRead(resolve, safe, st, y);
      }
    }
    forall st: State | st.pending.None?
      ensures Fold(Reader(resolve), st, LinesOf(xs)(g))
           == Ok(st.(group := TrimLeft(g), items := st.items + ItemsOf(xs)(g)))
    {
      GenreRead(resolve, st, g, "#genre#");
      SectionRead(Reader(resolve), st, GenreLine(g), TrimLeft(g), ItemLine, Relisted, ys);
    }
  }

  lemma {:induction false} ItemsOfSections(xs: seq<Item>, gs: seq<string>)
    ensures FlatMap(ItemsOf(xs), gs) == Map(Relisted, Sections(Genre, gs, xs))
  {
    if gs != [] {
      var n := |gs| - 1;
      ItemsOfSections(xs, gs[..n]);
      MapAppended(Relisted, Sections(Genre, gs[..n], xs), InGroup(Genre, gs[n], xs));
    }
  }

  lemma SectionIsOneLine(safe: string -> bool, g: string, xs: seq<Item>)
    requires AllListable(safe, xs) && OneLine(g)
    ensures AllOneLine(SectionLines(xs, g))
  {
    InGroupFrom(g, xs);
    forall l | l in SectionLines(xs, g) ensures OneLine(l) {
      if l != GenreLine(g) {
        var x := MapIn(ItemLine, InGroup(Genre, g, xs), l);
        assert Listable(safe, x);
        NameIsOneLine(x.name);
      } else {
        assert OneLine(",#genre#");
      }
    }
  }

  lemma NameIsOneLine(name: string)
    requires OneLine(name)
    ensures OneLine(TxtName(name))
  {
    forall i | 0 <= i < |name| ensures TxtName(name)[i] != '\n' && TxtName(name)[i] != '\r' {
      assert name[i] in name;
    }
  }

  lemma {:induction false} GroupsAreGenres(xs: seq<Item>)
    ensures forall g | g in Groups(Genre, xs) :: OneLine(g)
    ensures xs != [] ==> Groups(Genre, xs) != []
  {
    if xs != [] {
      GroupsAreGenres(xs[..|xs| - 1]);
    }
  }

  lemma LinesAreOneLine(safe: string -> bool, xs: seq<Item>)
    requires AllListable(safe, xs)
    ensures AllOneLine(AllLines(xs))
  {
    GroupsAreGenres(xs);
    forall l | l in AllLines(xs) ensures OneLine(l) {
      var g := FlatMapIn(LinesOf(xs), Groups(Genre, xs), l);
      SectionIsOneLine(safe, g, xs);
    }
  }

  lemma RelistedScreens(safe: string -> bool, xs: seq<Item>, y: Item)
    requires AllListable(safe, xs) && y in Map(Relisted, Grouped(Genre, xs))
    ensures Screens(safe, y)
  {
    GroupingIsAPermutation(Genre, xs);
    var x := MapIn(Relisted, Grouped(Genre, xs), y);
    assert x in multiset(xs);
    assert Listable(safe, x);
  }

  lemma {:induction false} MapLength<X, Y>(f: X -> Y, xs: seq<X>)
    ensures |Map(f, xs)| == |xs|
  {
    if xs != [] {
      MapLength(f, xs[..|xs| - 1]);
    }
  }

  function End(xs: seq<Item>): State
    requires Groups(Genre, xs) != []
  {
    var gs := Groups(Genre, xs);
    START.(group := TrimLeft(gs[|gs| - 1]), items := Map(Relisted, Grouped(Genre, xs)))
  }

  lemma TxtLinesRead(resolve: string -> string, safe: string -> bool, xs: seq<Item>)
    requires (forall u :: resolve(u) == u) && AllListable(safe, xs) && Groups(Genre, xs) != []
    ensures Fold(Reader(resolve), START, AllLines(xs)) == Ok(End(xs))
  {
    var gs := Groups(Genre, xs);
    GroupsFound(Genre, xs);
    forall g | g in gs ensures SectionReads(Reader(resolve), LinesOf(xs), TrimLeft, ItemsOf(xs), g) {
      GroupSectionReads(resolve, safe, xs, g);
    }
    SectionsRead(Reader(resolve), START, LinesOf(xs), TrimLeft, ItemsOf(xs), gs);
    ItemsOfSections(xs, gs);
    assert [] + Map(Relisted, Grouped(Genre, xs)) == Map(Relisted, Grouped(Genre, xs));
  }

  lemma EndRead(read: (State, string) -> Result<State, Failure>, ls: seq<string>, end: State)
    requires Fold(read, START, ls) == Ok(end) && read(end, "") == Ok(end)
    ensures Fold(read, START, ls + [""]) == Ok(end)
  {
    FoldAppended(read, START, ls, [""]);
    OneStep(read, end, "");
  }

  /**
   * The round trip of the TXT list: parsing with an empty base yields, without a warning, every channel exactly once,
   * grouped stably under the groups in the order of their first appearance, as Relisted shows it.
   */
  lemma TxtRoundTrip(resolve: string -> string, safe: string -> bool, xs: seq<Item>)
    requires xs != [] && (forall u :: resolve(u) == u) && AllListable(safe, xs)
    ensures Parse(resolve, safe, TxtBody(xs)) == Ok(Parsed(Map(Relisted, Grouped(Genre, xs)), []))
    ensures multiset(Grouped(Genre, xs)) == multiset(xs)
  {
    GroupsAreGenres(xs);
    LinesAreOneLine(safe, xs);
    TxtLinesRead(resolve, safe, xs);
    EmptyRead(resolve, End(xs));
    EndRead(Reader(resolve), AllLines(xs), End(xs));
    forall y | y in End(xs).items ensures Screens(safe, y) {
      RelistedScreens(safe, xs, y);
    }
    GroupingIsAPermutation(Genre, xs);
    MapLength(Relisted, Grouped(Genre, xs));
    assert |Grouped(Genre, xs)| == |multiset(xs)| == |xs|;
    ParsedFrom(resolve, safe, AllLines(xs), End(xs));
  }

  // ---- the loops ----

  /** What the first loop has collected: the groups so far, and each group's items. */
  ghost predicate Collected(xs: seq<Item>, groups: seq<string>, byGroup: map<string, seq<Item>>) {
    && groups == Groups(Genre, xs)
    && (forall g :: g in byGroup <==> g in groups)
    && forall g | g in byGroup :: byGroup[g] == InGroup(Genre, g, xs)
  }

  lemma CollectedNext(xs: seq<Item>, i: nat, groups: seq<string>, byGroup: map<string, seq<Item>>)
    requires i < |xs| && Collected(xs[..i], groups, byGroup)
    ensures var g := Genre(xs[i]);
            if g in byGroup then Collected(xs[..i + 1], groups, byGroup[g := byGroup[g] + [xs[i]]])
            else Collected(xs[..i + 1], groups + [g], byGroup[g := [xs[i]]])
  {
    var g := Genre(xs[i]);
    assert xs[..i + 1][..i] == xs[..i];
    GroupsFound(Genre, xs[..i]);
    if g !in groups {
      NoneInGroup(Genre, g, xs[..i]);
    }
  }

  method CollectGroups(xs: seq<Item>) returns (groups: seq<string>, byGroup: map<string, seq<Item>>)
    ensures Collected(xs, groups, byGroup)
  {
    groups, byGroup := [], map[];
    for i := 0 to |xs|
      invariant Collected(xs[..i], groups, byGroup)
    {
      CollectedNext(xs, i, groups, byGroup);
      var group := TxtGroup(xs[i].group);
      if group !in byGroup {
        groups := groups + [group];
        byGroup := byGroup[group := []];
      }
      byGroup := byGroup[group := byGroup[group] + [xs[i]]];
    }
    assert xs[..|xs|] == xs;
  }

  // What the second loop has written: the sections of the first groups, and within a section its first items.

  lemma SectionNext(ys: seq<Item>, k: nat)
    requires k < |ys|
    ensures Unlines(Map(ItemLine, ys[..k + 1])) == Unlines(Map(ItemLine, ys[..k])) + (ItemLine(ys[k]) + ("\n" + ""))
  {
    assert ys[..k + 1][..k] == ys[..k];
    UnlinesAppended(Map(ItemLine, ys[..k]), [ItemLine(ys[k])]);
    OneUnline(ItemLine(ys[k]));
  }

  lemma OneUnline(l: string)
    ensures Unlines([l]) == l + ("\n" + "")
  {
    assert [l][1..] == [];
  }

  ghost predicate SectionWritten(ys: seq<Item>, out: string) { out == Unlines(Map(ItemLine, ys)) }

  method WriteSection(ys: seq<Item>) returns (out: string)
    ensures SectionWritten(ys, out)
  {
    out := "";
    assert SectionWritten(ys[..0], out);
    for k := 0 to |ys|
      invariant SectionWritten(ys[..k], out)
    {
      SectionNext(ys, k);
      var line := ItemLine(ys[k]) + ("\n" + "");
      out := out + line;
      assert SectionWritten(ys[..k + 1], out);
    }
    assert ys[..|ys|] == ys;
  }

  ghost predicate GroupsWritten(xs: seq<Item>, gs: seq<string>, out: string) {
    out == Unlines(FlatMap(LinesOf(xs), gs))
  }

  lemma GroupsNext(xs: seq<Item>, gs: seq<string>, i: nat, out: string, section: string)
    requires i < |gs| && GroupsWritten(xs, gs[..i], out) && SectionWritten(InGroup(Genre, gs[i], xs), section)
    ensures GroupsWritten(xs, gs[..i + 1], out + (GenreLine(gs[i]) + ("\n" + section)))
  {
    var head, body := GenreLine(gs[i]), Map(ItemLine, InGroup(Genre, gs[i], xs));
    assert gs[..i + 1][..i] == gs[..i];
    UnlinesAppended(FlatMap(LinesOf(xs), gs[..i]), SectionLines(xs, gs[i]));
    assert ([head] + body)[1..] == body;
    assert Unlines([head] + body) == head + ("\n" + Unlines(body));
  }

  method WriteTxt(xs: seq<Item>) returns (body: string)
    ensures body == TxtBody(xs)
  {
    var groups, byGroup := CollectGroups(xs);
    body := "";
    assert GroupsWritten(xs, groups[..0], body);
    for i := 0 to |groups|
      invariant GroupsWritten(xs, groups[..i], body)
    {
      var section := WriteSection(byGroup[groups[i]]);
      GroupsNext(xs, groups, i, body, section);
      body := body + (GenreLine(groups[i]) + ("\n" + section));
    }
    assert groups[..|groups|] == groups;
  }
}
