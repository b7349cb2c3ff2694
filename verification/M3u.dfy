/** parseM3U of internal/adapter/adapter.go: channels from an M3U or TXT playlist. */
module M3u {
  import opened Common
  import opened Model
  import opened Text

  datatype Warning =
    Nameless | TrailingExtinf | EmptyUrl(name: string) | UnsafeUrl(name: string) | UnsafeLogo(name: string)

  datatype Failure = NoName | EmbeddedCredentials | NoChannels

  datatype Parsed = Parsed(items: seq<Item>, warnings: seq<Warning>)

  /** The line reader: the EXTINF waiting for its URL, and the TXT group in force. */
  datatype State = State(pending: Option<Item>, group: string, items: seq<Item>, warnings: seq<Warning>)

  const START := State(None, "", [], [])

  // ---- strings ----

  /** strings.ReplaceAll(s, "\r\n", "\n") */
  function Unix(s: string): string {
    if s == [] then []
    else if s[0] == '\r' && |s| > 1 && s[1] == '\n' then ['\n'] + Unix(s[2..])
    else [s[0]] + Unix(s[1..])
  }

  /** strings.Split(s, "\n") */
  function Lines(s: string): (ls: seq<string>)
    decreases |s|
  {
    var k := Find(s, '\n');
    if k == |s| then [s] else [s[..k]] + Lines(s[k + 1..])
  }

  // ---- one EXTINF line ----

  /** The offset of the first comma outside double quotes, |s| when there is none. */
  function BareComma(s: string, quoted: bool): (k: nat)
    ensures k <= |s|
  {
    if s == [] then 0
    else if s[0] == '"' then 1 + BareComma(s[1..], !quoted)
    else if s[0] == ',' && !quoted then 0
    else 1 + BareComma(s[1..], quoted)
  }

  /** \w or a dash, as attrRE has it */
  predicate IsWord(c: char) { '0' <= c <= '9' || 'A' <= c <= 'Z' || 'a' <= c <= 'z' || c == '_' || c == '-' }

  function WordRun(s: string): (k: nat)
    ensures k <= |s|
  {
    if s == [] || !IsWord(s[0]) then 0 else 1 + WordRun(s[1..])
  }

  datatype Match = Match(key: string, value: string, rest: string)

  /** attrRE at the start of s: the longest key, ="..." behind it, and what follows the closing quote. */
  function MatchAt(s: string): (m: Option<Match>)
    ensures m.Some? ==> |m.value.rest| < |s|
  {
    var k := WordRun(s);
    if 0 < k && k + 1 < |s| && s[k] == '=' && s[k + 1] == '"' then
      var v := Find(s[k + 2..], '"');
      if v == |s| - k - 2 then None else Some(Match(s[..k], s[k + 2..k + 2 + v], s[k + 3 + v..]))
    else None
  }

  /** The matches of attrRE, leftmost first. */
  function Attributes(s: string): seq<(string, string)>
    decreases |s|
  {
    if s == [] then []
    else
      var m := MatchAt(s);
      if m.None? then Attributes(s[1..]) else [(m.value.key, m.value.value)] + Attributes(m.value.rest)
  }

  function Attributed(resolve: string -> string, item: Item, a: (string, string)): Item {
    match a.0
    case "tvg-id" => item.(id := a.1)
    case "tvg-logo" => item.(logo := resolve(a.1))
    case "group-title" => item.(group := a.1)
    case "tvg-language" => item.(language := a.1)
    case "tvg-country" => item.(region := a.1)
    case _ => item
  }

  /** Later attributes win. */
  function AllAttributed(resolve: string -> string, item: Item, attrs: seq<(string, string)>): Item
    decreases |attrs|
  {
    if attrs == [] then item else AllAttributed(resolve, Attributed(resolve, item, attrs[0]), attrs[1..])
  }

  function Extinf(resolve: string -> string, line: string, group: string): Option<Item> {
    var k := BareComma(line, false);
    if k == |line| then None
    else Some(AllAttributed(resolve, Item("", Trim(line[k + 1..]), "", group, "", "", ""), Attributes(line[..k])))
  }

  // ---- the lines ----

  predicate MentionsCredentials(line: string) {
    Contains(Lower(line), "http-cookie") || Contains(Lower(line), "authorization")
  }

  /** A line of the TXT format: a group heading, a channel, or nothing known. */
  function ReadTxt(resolve: string -> string, st: State, line: string): State {
    var k := Find(line, ',');
    if k == |line| then st.(warnings := st.warnings + [Nameless])
    else if Trim(line[k + 1..]) == "#genre#" then st.(group := line[..k])
    else st.(items := st.items + [Item("", line[..k], resolve(Trim(line[k + 1..])), st.group, "", "", "")])
  }

  function ReadLine(resolve: string -> string, st: State, raw: string): Result<State, Failure> {
    var line := Trim(raw);
    if line == "" then Ok(st)
    else if StartsWith(line, "#EXTINF:") then
      var item := Extinf(resolve, line, st.group);
      if item.None? then Err(NoName) else Ok(st.(pending := item))
    else if line[0] == '#' then
      if MentionsCredentials(line) then Err(EmbeddedCredentials) else Ok(st)
    else if st.pending.Some? then
      Ok(st.(pending := None, items := st.items + [st.pending.value.(url := resolve(line))]))
    else Ok(ReadTxt(resolve, st, line))
  }

  function Reader(resolve: string -> string): (State, string) -> Result<State, Failure> {
    (st: State, raw: string) => ReadLine(resolve, st, raw)
  }

  // ---- the screening at the end ----

  function Screened(safe: string -> bool, item: Item): Parsed {
    if item.url == "" then Parsed([], [EmptyUrl(item.name)])
    else if !safe(item.url) then Parsed([], [UnsafeUrl(item.name)])
    else if item.logo != "" && !safe(item.logo) then Parsed([item.(logo := "")], [UnsafeLogo(item.name)])
    else Parsed([item], [])
  }

  function AllScreened(safe: string -> bool, items: seq<Item>): Parsed {
    if items == [] then Parsed([], [])
    else
      var before, last := AllScreened(safe, items[..|items| - 1]), Screened(safe, items[|items| - 1]);
      Parsed(before.items + last.items, before.warnings + last.warnings)
  }

  function Finish(safe: string -> bool, st: State): Result<Parsed, Failure> {
    var kept := AllScreened(safe, st.items);
    if kept.items == [] then Err(NoChannels)
    else Ok(Parsed(kept.items, st.warnings + (if st.pending.Some? then [TrailingExtinf] else []) + kept.warnings))
  }

  function Parse(resolve: string -> string, safe: string -> bool, body: string): Result<Parsed, Failure> {
    var st := Fold(Reader(resolve), START, Lines(Unix(body)));
    if st.Err? then Err(st.error) else Finish(safe, st.value)
  }

  /** What becomes of one channel: without a safe URL it is dropped, without a safe logo it loses the logo, and each
      time with the warning that says so. */
  lemma ScreenMeans(safe: string -> bool, x: Item)
    ensures var p := Screened(safe, x);
            && (x.url == "" || !safe(x.url) ==> p.items == [])
            && (x.url != "" && safe(x.url) ==>
                  |p.items| == 1 && p.items[0] == if x.logo != "" && !safe(x.logo) then x.(logo := "") else x)
            && (EmptyUrl(x.name) in p.warnings <==> x.url == "")
            && (UnsafeUrl(x.name) in p.warnings <==> x.url != "" && !safe(x.url))
            && (UnsafeLogo(x.name) in p.warnings <==> x.url != "" && safe(x.url) && x.logo != "" && !safe(x.logo))
            && |p.items| <= 1 && |p.warnings| <= 1
  {
  }

  lemma {:induction false} ScreenInOrder(safe: string -> bool, xs: seq<Item>, ys: seq<Item>)
    ensures var p, q, r := AllScreened(safe, xs), AllScreened(safe, ys), AllScreened(safe, xs + ys);
            r.items == p.items + q.items && r.warnings == p.warnings + q.warnings
  {
    if ys == [] {
      assert xs + ys == xs;
    } else {
      var n := |ys| - 1;
      assert (xs + ys)[..|xs| + n] == xs + ys[..n];
      ScreenInOrder(safe, xs, ys[..n]);
    }
  }

  /** The value of the last attribute of that name. */
  function LastOf(attrs: seq<(string, string)>, key: string, otherwise: string): string {
    if attrs == [] then otherwise
    else if attrs[|attrs| - 1].0 == key then attrs[|attrs| - 1].1
    else LastOf(attrs[..|attrs| - 1], key, otherwise)
  }

  lemma {:induction false} LastOfFirst(attrs: seq<(string, string)>, key: string, otherwise: string)
    requires attrs != []
    ensures LastOf(attrs, key, otherwise)
         == LastOf(attrs[1..], key, if attrs[0].0 == key then attrs[0].1 else otherwise)
  {
    var n := |attrs| - 1;
    if n > 0 && attrs[n].0 != key {
      LastOfFirst(attrs[..n], key, otherwise);
      assert attrs[..n][1..] == attrs[1..][..n - 1];
    }
  }

  /** Which attribute sets which field, the last one of a name winning; a logo is resolved. */
  lemma {:induction false} AttributesMean(resolve: string -> string, item: Item, attrs: seq<(string, string)>)
    ensures var x := AllAttributed(resolve, item, attrs);
            && x.id == LastOf(attrs, "tvg-id", item.id) && x.group == LastOf(attrs, "group-title", item.group)
            && x.language == LastOf(attrs, "tvg-language", item.language)
            && x.region == LastOf(attrs, "tvg-country", item.region)
            && x.name == item.name && x.url == item.url
            && ((forall a | a in attrs :: a.0 != "tvg-logo") ==> x.logo == item.logo)
            && ((exists a | a in attrs :: a.0 == "tvg-logo") ==> x.logo == resolve(LastOf(attrs, "tvg-logo", "")))
    decreases |attrs|
  {
    if attrs != [] {
      var a, rest := attrs[0], attrs[1..];
      assert attrs == [a] + rest;
      AttributesMean(resolve, Attributed(resolve, item, a), rest);
      LastOfFirst(attrs, "tvg-id", item.id);
      LastOfFirst(attrs, "group-title", item.group);
      LastOfFirst(attrs, "tvg-language", item.language);
      LastOfFirst(attrs, "tvg-country", item.region);
      LastOfFirst(attrs, "tvg-logo", "");
      if a.0 == "tvg-logo" && forall b | b in rest :: b.0 != "tvg-logo" {
        NoneOf(rest, "tvg-logo", a.1);
      } else {
        SomeOf(rest, "tvg-logo", "", a.1);
      }
    }
  }

  lemma {:induction false} NoneOf(attrs: seq<(string, string)>, key: string, otherwise: string)
    requires forall a | a in attrs :: a.0 != key
    ensures LastOf(attrs, key, otherwise) == otherwise
  {
    if attrs != [] {
      NoneOf(attrs[..|attrs| - 1], key, otherwise);
    }
  }

  lemma {:induction false} SomeOf(attrs: seq<(string, string)>, key: string, v: string, w: string)
    ensures (exists a | a in attrs :: a.0 == key) ==> LastOf(attrs, key, v) == LastOf(attrs, key, w)
  {
    if attrs != [] {
      var n := |attrs| - 1;
      SomeOf(attrs[..n], key, v, w);
      assert attrs == attrs[..n] + [attrs[n]];
    }
  }

  /** Lines that refuse a list: a comment that hands out credentials, and a channel line without a name. */
  ghost predicate Refused(raw: string) {
    var line := Trim(raw);
    && line != "" && line[0] == '#'
    && if StartsWith(line, "#EXTINF:") then BareComma(line, false) == |line|
       else Contains(Lower(line), "http-cookie") || Contains(Lower(line), "authorization")
  }

  lemma RefusesOne(resolve: string -> string, st: State, raw: string)
    ensures ReadLine(resolve, st, raw).Err? <==> Refused(raw)
  {
    var line := Trim(raw);
    if StartsWith(line, "#EXTINF:") {
      assert line[0] == "#EXTINF:"[0];
    }
  }

  /** No list is read that has such a line, and no other line refuses a list: after that it fails only without any
      channel that is left. */
  lemma {:induction false} RefusesExactly(resolve: string -> string, st: State, lines: seq<string>)
    ensures Fold(Reader(resolve), st, lines).Err? <==> exists l | l in lines :: Refused(l)
    decreases |lines|
  {
    if lines != [] {
      RefusesOne(resolve, st, lines[0]);
      assert lines == [lines[0]] + lines[1..];
      var next := Reader(resolve)(st, lines[0]);
      if next.Ok? {
        RefusesExactly(resolve, next.value, lines[1..]);
      }
    }
  }

  lemma ParseFailsExactly(resolve: string -> string, safe: string -> bool, body: string)
    ensures Parse(resolve, safe, body).Err? <==>
              || (exists l | l in Lines(Unix(body)) :: Refused(l))
              || Parse(resolve, safe, body) == Err(NoChannels)
  {
    RefusesExactly(resolve, START, Lines(Unix(body)));
  }

  /** Whatever the text, what comes out is screened: every URL is safe, every logo is empty or safe. */
  lemma {:induction false} ScreenedIsSafe(safe: string -> bool, items: seq<Item>)
    ensures forall x | x in AllScreened(safe, items).items ::
              x.url != "" && safe(x.url) && (x.logo == "" || safe(x.logo))
  {
    if items != [] {
      ScreenedIsSafe(safe, items[..|items| - 1]);
    }
  }

  lemma ParsedIsSafe(resolve: string -> string, safe: string -> bool, body: string)
    requires Parse(resolve, safe, body).Ok?
    ensures var xs := Parse(resolve, safe, body).value.items;
            xs != [] && forall x | x in xs :: x.url != "" && safe(x.url) && (x.logo == "" || safe(x.logo))
  {
    ScreenedIsSafe(safe, Fold(Reader(resolve), START, Lines(Unix(body))).value.items);
  }

  // ---- the loops ----

  method FindBareComma(line: string) returns (idx: nat)
    ensures idx == BareComma(line, false)
  {
    var quoted := false;
    assert line[0..] == line;
    for i := 0 to |line|
      invariant BareComma(line, false) == i + BareComma(line[i..], quoted)
    {
      if line[i] == '"' {
        quoted := !quoted;
      }
      if line[i] == ',' && !quoted {
        return i;
      }
    }
    return |line|;
  }

  method ReadExtinf(resolve: string -> string, line: string, group: string) returns (item: Option<Item>)
    ensures item == Extinf(resolve, line, group)
  {
    var idx := FindBareComma(line);
    if idx == |line| {
      return None;
    }
    var attrs := Attributes(line[..idx]);
    var x := Item("", Trim(line[idx + 1..]), "", group, "", "", "");
    ghost var whole := AllAttributed(resolve, x, attrs);
    assert attrs[0..] == attrs;
    for i := 0 to |attrs|
      invariant whole == AllAttributed(resolve, x, attrs[i..])
    {
      assert attrs[i..][1..] == attrs[i + 1..];
      x := Attributed(resolve, x, attrs[i]);
    }
    return Some(x);
  }

  method Screen(safe: string -> bool, items: seq<Item>) returns (kept: seq<Item>, warnings: seq<Warning>)
    ensures Parsed(kept, warnings) == AllScreened(safe, items)
  {
    kept, warnings := [], [];
    for i := 0 to |items|
      invariant AllScreened(safe, items[..i]) == Parsed(kept, warnings)
    {
      assert items[..i + 1][..i] == items[..i];
      var item := items[i];
      if item.url == "" {
        warnings := warnings + [EmptyUrl(item.name)];
        continue;
      }
      if !safe(item.url) {
        warnings := warnings + [UnsafeUrl(item.name)];
        continue;
      }
      if item.logo != "" && !safe(item.logo) {
        warnings := warnings + [UnsafeLogo(item.name)];
        item := item.(logo := "");
      }
      kept := kept + [item];
    }
    assert items[..|items|] == items;
  }

  function ReadFrom(resolve: string -> string, st: State, lines: seq<string>, i: nat): Result<State, Failure>
    requires i <= |lines|
    decreases |lines| - i
  {
    if i == |lines| then Ok(st)
    else
      var next := ReadLine(resolve, st, lines[i]);
      if next.Err? then next else ReadFrom(resolve, next.value, lines, i + 1)
  }

  lemma {:induction false} ReadFromIs(resolve: string -> string, st: State, lines: seq<string>, i: nat)
    requires i <= |lines|
    ensures ReadFrom(resolve, st, lines, i) == Fold(Reader(resolve), st, lines[i..])
    decreases |lines| - i
  {
    if i < |lines| {
      var next := ReadLine(resolve, st, lines[i]);
      assert lines[i..][1..] == lines[i + 1..];
      if next.Ok? {
        ReadFromIs(resolve, next.value, lines, i + 1);
      }
    }
  }

  method ReadAll(resolve: string -> string, lines: seq<string>) returns (r: Result<State, Failure>)
    ensures r == Fold(Reader(resolve), START, lines)
  {
    var pending: Option<Item> := None;
    var group, items, warnings := "", [], [];
    ghost var st := START;
    ReadFromIs(resolve, START, lines, 0);
    assert lines[0..] == lines;
    for i := 0 to |lines|
      invariant st == State(pending, group, items, warnings)
      invariant ReadFrom(resolve, START, lines, 0) == ReadFrom(resolve, st, lines, i)
    {
      ghost var next := ReadLine(resolve, st, lines[i]);
      var line := Trim(lines[i]);
      if line == "" {
        continue;
      }
      if StartsWith(line, "#EXTINF:") {
        var item := ReadExtinf(resolve, line, group);
        if item == None {
          return Err(NoName);
        }
        pending := item;
      } else if line[0] == '#' {
        if MentionsCredentials(line) {
          return Err(EmbeddedCredentials);
        }
      } else if pending.Some? {
        items := items + [pending.value.(url := resolve(line))];
        pending := None;
      } else {
        var k := Find(line, ',');
        if k == |line| {
          warnings := warnings + [Nameless];
        } else if Trim(line[k + 1..]) == "#genre#" {
          group := line[..k];
        } else {
          items := items + [Item("", line[..k], resolve(Trim(line[k + 1..])), group, "", "", "")];
        }
      }
      st := next.value;
    }
    return Ok(State(pending, group, items, warnings));
  }

  method ParseM3U(resolve: string -> string, safe: string -> bool, body: string) returns (r: Result<Parsed, Failure>)
    ensures r == Parse(resolve, safe, body)
  {
    var read := ReadAll(resolve, Lines(Unix(body)));
    if read.Err? {
      return Err(read.error);
    }
    var warnings := read.value.warnings;
    if read.value.pending.Some? {
      warnings := warnings + [TrailingExtinf];
    }
    var kept, dropped := Screen(safe, read.value.items);
    if kept == [] {
      return Err(NoChannels);
    }
    assert read.value.warnings + [] == read.value.warnings;
    return Ok(Parsed(kept, warnings + dropped));
  }
}
