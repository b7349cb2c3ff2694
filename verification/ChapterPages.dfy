/** Which links stay inside a chapter: _same_chapter of internal/bookplugin/runner.py. */
module ChapterPages {
  import opened Common
  import Walk

  /** An address as urlsplit and parse_qs take it apart. */
  datatype Address = Address(host: string, path: string, query: map<string, seq<string>>)

  /** The offset of the last c before n, -1 when there is none. */
  function LastBefore(s: string, c: char, n: nat): (k: int)
    requires n <= |s|
    ensures -1 <= k < n
  {
    if n == 0 || s[n - 1] == c then n - 1 else LastBefore(s, c, n - 1)
  }

  function Last(s: string, c: char): int { LastBefore(s, c, |s|) }

  function Parent(path: string): string { if Last(path, '/') < 0 then "" else path[..Last(path, '/')] }

  function FileName(path: string): string { path[Last(path, '/') + 1..] }

  function Name(file: string): string { if Last(file, '.') < 0 then file else file[..Last(file, '.')] }

  /** Everything before the extension of the file name; the source always puts a slash before the file name. */
  function Stem(path: string): string { Parent(path) + ("/" + Name(FileName(path))) }

  function Extension(path: string): string { FileName(path)[|Name(FileName(path))|..] }

  /** The decimal digits of the character set, which are more than the ASCII ones, with their values. */
  type Digits = char -> Option<nat>

  predicate Decimals(nd: Digits) {
    (forall c | '0' <= c <= '9' :: nd(c) == Some((c - '0') as nat)) && nd('_') == None && nd('-') == None
  }

  predicate AllDigits(nd: Digits, s: string) { forall i | 0 <= i < |s| :: nd(s[i]).Some? }

  /** The number a digit string denotes. */
  function Value(nd: Digits, s: string): nat
    requires AllDigits(nd, s)
  {
    if s == [] then 0 else Value(nd, s[..|s| - 1]) * 10 + nd(s[|s| - 1]).value
  }

  /** What stands between stem and extension on the second and later pages. */
  predicate PageMark(nd: Digits, m: string) {
    |m| >= 2 && (m[0] == '_' || m[0] == '-') && AllDigits(nd, m[1..]) && Value(nd, m[1..]) >= 2
  }

  /** The text between the two, when other begins and ends with them. */
  function Between(prefix: string, suffix: string, other: string): Option<string> {
    if |prefix| + |suffix| <= |other| && prefix <= other && other[|other| - |suffix|..] == suffix
    then Some(other[|prefix|..|other| - |suffix|]) else None
  }

  predicate Marked(nd: Digits, prefix: string, suffix: string, other: string) {
    var m := Between(prefix, suffix, other);
    m.Some? && PageMark(nd, m.value)
  }

  predicate SamePath(nd: Digits, path: string, other: string) {
    path == other || Marked(nd, Stem(path), Extension(path), other)
  }

  const PAGE_KEYS := {"page", "p", "pageNo"}

  function Identity(query: map<string, seq<string>>): map<string, seq<string>> { query - PAGE_KEYS }

  predicate SameChapter(nd: Digits, a: Address, b: Address) {
    a.host == b.host && SamePath(nd, a.path, b.path) && Identity(a.query) == Identity(b.query)
  }

  // ---- what it accepts ----

  lemma {:induction false} LastFound(s: string, c: char, n: nat)
    requires n <= |s|
    ensures var k := LastBefore(s, c, n); if k >= 0 then s[k] == c else forall i | 0 <= i < n :: s[i] != c
  {
    if n > 0 && s[n - 1] != c {
      LastFound(s, c, n - 1);
    }
  }

  lemma NameBegins(file: string)
    ensures Name(file) <= file
  {
  }

  lemma StemAndExtension(path: string)
    ensures Stem(path) + Extension(path) == if '/' in path then path else "/" + path
  {
    var k := Last(path, '/');
    LastFound(path, '/', |path|);
    NameBegins(FileName(path));
    Rejoined(Parent(path), Name(FileName(path)), Extension(path));
    assert Stem(path) + Extension(path) == Parent(path) + ("/" + FileName(path));
    if k >= 0 { CutAt(path, k); }
  }

  lemma CutAt(s: string, k: nat)
    requires k < |s|
    ensures s == s[..k] + ([s[k]] + s[k + 1..])
  {
  }

  lemma Rejoined(parent: string, name: string, rest: string)
    ensures parent + ("/" + name) + rest == parent + ("/" + (name + rest))
  {
  }

  lemma BetweenExactly(prefix: string, suffix: string, other: string, m: string)
    ensures Between(prefix, suffix, other) == Some(m) <==> other == prefix + m + suffix
  {
  }

  lemma MarkedExactly(nd: Digits, prefix: string, suffix: string, other: string)
    ensures Marked(nd, prefix, suffix, other) <==> exists m :: PageMark(nd, m) && other == prefix + m + suffix
  {
    if Marked(nd, prefix, suffix, other) {
      BetweenExactly(prefix, suffix, other, Between(prefix, suffix, other).value);
    }
    forall m | PageMark(nd, m) && other == prefix + m + suffix ensures Marked(nd, prefix, suffix, other) {
      BetweenExactly(prefix, suffix, other, m);
    }
  }

  /** A chapter's pages are its own path, and its path with one mark between stem and extension; nothing else is. */
  lemma SamePathExactly(nd: Digits, path: string, other: string)
    ensures SamePath(nd, path, other) <==>
              path == other || exists m :: PageMark(nd, m) && other == Stem(path) + m + Extension(path)
  {
    MarkedExactly(nd, Stem(path), Extension(path), other);
  }

  /** A later page has the longer path. */
  lemma LaterPathIsLonger(nd: Digits, path: string, other: string)
    requires SamePath(nd, path, other) && path != other
    ensures |other| >= |path| + 2
  {
    SamePathExactly(nd, path, other);
    StemAndExtension(path);
    var m :| PageMark(nd, m) && other == Stem(path) + m + Extension(path);
    assert |other| == |Stem(path) + Extension(path)| + |m|;
  }

  /** Two pages that are each other's have one path: no link within a chapter leads from a
      later page back to its first. */
  lemma NoWayBack(nd: Digits, path: string, other: string)
    requires SamePath(nd, path, other) && SamePath(nd, other, path)
    ensures path == other
  {
    if path != other {
      LaterPathIsLonger(nd, path, other);
      LaterPathIsLonger(nd, other, path);
    }
  }

  function Decimal(n: nat): string {
    (if n < 10 then "" else Decimal(n / 10)) + ['0' + (n % 10) as char]
  }

  lemma {:induction false} DecimalRead(nd: Digits, n: nat)
    requires Decimals(nd)
    ensures Decimal(n) != "" && AllDigits(nd, Decimal(n)) && Value(nd, Decimal(n)) == n
  {
    var s := Decimal(n);
    if n >= 10 {
      DecimalRead(nd, n / 10);
    }
    assert s[..|s| - 1] == if n < 10 then "" else Decimal(n / 10);
  }

  lemma NumberedMark(nd: Digits, sep: char, n: nat)
    requires Decimals(nd) && (sep == '_' || sep == '-')
    ensures PageMark(nd, [sep] + Decimal(n)) <==> n >= 2
  {
    DecimalRead(nd, n);
    assert ([sep] + Decimal(n))[1..] == Decimal(n);
  }

  /** Of the numbered companions of a page, those from number two on belong to its chapter, and no other. */
  lemma NumberedPages(nd: Digits, a: Address, b: Address, sep: char, n: nat)
    requires Decimals(nd) && (sep == '_' || sep == '-')
    requires b == a.(path := Stem(a.path) + ([sep] + Decimal(n)) + Extension(a.path))
    ensures SameChapter(nd, a, b) <==> n >= 2
  {
    var mark := [sep] + Decimal(n);
    NumberedMark(nd, sep, n);
    BetweenExactly(Stem(a.path), Extension(a.path), b.path, mark);
    StemAndExtension(a.path);
    assert |b.path| == |Stem(a.path) + Extension(a.path)| + |mark|;
  }

  lemma NumberIsUnmarked(nd: Digits, stem: string, m: string, n: string, ext: string, mark: string)
    requires Decimals(nd) && AllDigits(nd, n) && PageMark(nd, mark)
    ensures stem + n + ext != stem + m + mark + ext
  {
    assert (m + mark)[|m|] == mark[0];
    Differ(stem, n, m + mark, ext);
    assert stem + (m + mark) == stem + m + mark;
  }

  lemma NumbersUnmarked(nd: Digits, stem: string, m: string, n: string, ext: string)
    requires Decimals(nd) && AllDigits(nd, n)
    ensures !Marked(nd, stem + m, ext, stem + n + ext)
  {
    MarkedExactly(nd, stem + m, ext, stem + n + ext);
    forall mark | PageMark(nd, mark) ensures stem + n + ext != stem + m + mark + ext {
      NumberIsUnmarked(nd, stem, m, n, ext, mark);
    }
  }

  /** Chapters that a number tells apart are never taken for pages of one another: chapter-1
      is not a page of chapter-2. */
  lemma NumberedChaptersDiffer(nd: Digits, path: string, other: string, stem: string, m: string, n: string, ext: string)
    requires Decimals(nd) && AllDigits(nd, n) && m != n && '/' in path && '/' in other
    requires Stem(path) == stem + m && Stem(other) == stem + n && Extension(path) == Extension(other) == ext
    ensures !SamePath(nd, path, other)
  {
    StemAndExtension(path);
    StemAndExtension(other);
    Differ(stem, m, n, ext);
    NumbersUnmarked(nd, stem, m, n, ext);
  }

  lemma Differ(p: string, s: string, t: string, e: string)
    requires s != t
    ensures p + s + e != p + t + e
  {
    if p + s + e == p + t + e {
      SameEnd(p + s, p + t, e);
      SamePrefix(p, s, t);
    }
  }

  lemma SamePrefix(p: string, s: string, t: string)
    requires p + s == p + t
    ensures s == t
  {
    assert s == (p + s)[|p|..] && t == (p + t)[|p|..];
  }

  lemma SameEnd(s: string, t: string, e: string)
    requires s + e == t + e
    ensures s == t
  {
    assert |s + e| == |t + e|;
    assert s == (s + e)[..|s|] && t == (t + e)[..|t|];
  }

  /** Of the query only the page parameters may differ: pages of one chapter agree in every other one. */
  lemma PageParameters(nd: Digits, a: Address, b: Address)
    requires a.host == b.host && a.path == b.path
    ensures SameChapter(nd, a, b) <==>
              forall k | k != "page" && k != "p" && k != "pageNo" ::
                (k in a.query <==> k in b.query) && (k in a.query ==> a.query[k] == b.query[k])
  {
    var s, t := Identity(a.query), Identity(b.query);
    assert forall k :: k in s <==> k in a.query && k != "page" && k != "p" && k != "pageNo";
    assert forall k :: k in t <==> k in b.query && k != "page" && k != "p" && k != "pageNo";
    if s == t {
      forall k | k != "page" && k != "p" && k != "pageNo"
        ensures (k in a.query <==> k in b.query) && (k in a.query ==> a.query[k] == b.query[k])
      {
        assert k in s <==> k in t;
      }
    }
  }

  // ---- the walk through a chapter ----

  function Stays(nd: Digits, parse: string -> Address): (string, string) -> bool {
    (start: string, next: string) => SameChapter(nd, parse(start), parse(next))
  }

  lemma {:induction false} PagesStay(book: Walk.Book, same: (string, string) -> bool, start: string, url: string,
                                     n: nat, i: nat)
    requires var chain := Walk.Follow(Walk.ChapterSite(book, same, start), url, n); chain.Some? && 0 < i < |chain.value|
    ensures same(start, Walk.Follow(Walk.ChapterSite(book, same, start), url, n).value[i])
    decreases n
  {
    var site := Walk.ChapterSite(book, same, start);
    var next := site(url).next.value;
    var rest := Walk.Follow(site, next, n - 1).value;
    assert Walk.Follow(site, url, n).value == [url] + rest;
    if i > 1 {
      PagesStay(book, same, start, next, n - 1, i - 1);
    } else {
      assert rest[0] == next;
    }
  }

  /** Every page whose text goes into a chapter is its first page or, by its address, a page of the same chapter. */
  lemma TextIsOfOneChapter(nd: Digits, book: Walk.Book, parse: string -> Address, start: string, maxPages: nat, i: nat)
    requires Walk.ChapterFits(book, Stays(nd, parse), Walk.Limit(maxPages), start)
    requires i < |Walk.Follow(Walk.ChapterSite(book, Stays(nd, parse), start), start, Walk.Limit(maxPages)).value|
    ensures var url := Walk.Follow(Walk.ChapterSite(book, Stays(nd, parse), start), start,
                                   Walk.Limit(maxPages)).value[i];
            SameChapter(nd, parse(start), parse(url))
  {
    if i > 0 {
      PagesStay(book, Stays(nd, parse), start, start, Walk.Limit(maxPages), i);
    }
  }
}
