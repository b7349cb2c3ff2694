/** toc and chapter of internal/bookplugin/runner.py: following next links until they end. */
module Walk {
  import opened Common
  import opened Dedup

  datatype Found = Found(title: string, url: string)

  /** What fetching and selecting a page yields. Reading it can fail, and so can resolving its next link. */
  datatype Page = Unreadable | Page(items: seq<Found>, next: Option<string>)

  type Site = string -> Page

  datatype Rule = Rule(maxPages: nat, reverse: bool)

  datatype Chapter = Chapter(index: nat, title: string, url: string)

  datatype Failure = PageFailed | CycleOrLimit | TooMany | Nothing

  const MAX_CHAPTERS := 20000

  // ---- the chain of pages ----

  /** The pages from url on, when the links end within n pages. */
  function Follow(site: Site, url: string, n: nat): Option<seq<string>>
    decreases n
  {
    if url == "" then Some([])
    else if n == 0 || site(url).Unreadable? || site(url).next.None? then None
    else
      var rest := Follow(site, site(url).next.value, n - 1);
      if rest.None? then None else Some([url] + rest.value)
  }

  predicate Leads(site: Site, url: string, target: string) {
    url != "" && site(url).Page? && site(url).next == Some(target)
  }

  function NextOf(site: Site, url: string): string {
    if site(url).Page? && site(url).next.Some? then site(url).next.value else ""
  }

  function Start(p: seq<string>, target: string): string { if p == [] then target else p[0] }

  /** Each page of p links to the one after it, the last to the target. */
  predicate Linked(site: Site, p: seq<string>, target: string) {
    p == [] || (Leads(site, p[0], Start(p[1..], target)) && Linked(site, p[1..], target))
  }

  /** A complete chain is exactly a linked path that ends. */
  lemma {:induction false} FollowIsLinked(site: Site, url: string, n: nat, p: seq<string>)
    ensures Follow(site, url, n) == Some(p) <==> Linked(site, p, "") && Start(p, "") == url && |p| <= n
    decreases n
  {
    if p != [] {
      assert p == [p[0]] + p[1..];
      if url != "" && n > 0 && site(url).Page? && site(url).next.Some? {
        FollowIsLinked(site, site(url).next.value, n - 1, p[1..]);
      }
    }
  }

  lemma {:induction false} FollowPath(site: Site, p: seq<string>, target: string, n: nat)
    requires Linked(site, p, target)
    ensures Follow(site, Start(p, target), n)
         == if n < |p| then None
            else var rest := Follow(site, target, n - |p|); if rest.None? then None else Some(p + rest.value)
    decreases |p|
  {
    if p == [] {
      var rest := Follow(site, target, n);
      assert rest.Some? ==> p + rest.value == rest.value;
    } else if n > 0 {
      FollowPath(site, p[1..], target, n - 1);
      if n >= |p| {
        var rest := Follow(site, target, n - |p|);
        assert rest.Some? ==> p + rest.value == [p[0]] + (p[1..] + rest.value);
      }
    }
  }

  lemma {:induction false} LinkedMore(site: Site, p: seq<string>, target: string, next: string)
    requires Linked(site, p, target) && Leads(site, target, next)
    ensures Linked(site, p + [target], next)
  {
    if p == [] {
      assert p + [target] == [target];
    } else {
      assert (p + [target])[1..] == p[1..] + [target];
      LinkedMore(site, p[1..], target, next);
    }
  }

  lemma {:induction false} LinkedTail(site: Site, p: seq<string>, target: string, i: nat)
    requires i < |p| && Linked(site, p, target)
    ensures Linked(site, p[i..], target)
  {
    if i > 0 {
      LinkedTail(site, p[1..], target, i - 1);
      assert p[1..][i - 1..] == p[i..];
    }
  }

  /** A path back to where it began never ends. */
  lemma {:induction false} CyclesNeverEnd(site: Site, p: seq<string>, n: nat)
    requires p != [] && Linked(site, p, p[0])
    ensures Follow(site, p[0], n) == None
    decreases n
  {
    FollowPath(site, p, p[0], n);
    if n >= |p| {
      CyclesNeverEnd(site, p, n - |p|);
    }
  }

  lemma RevisitNeverEnds(site: Site, p: seq<string>, i: nat, n: nat)
    requires i < |p| && Linked(site, p, p[i])
    ensures Follow(site, p[i], n) == None
  {
    LinkedTail(site, p, p[i], i);
    CyclesNeverEnd(site, p[i..], n);
  }

  // ---- the directory ----

  predicate Valid(x: Found) { x.title != "" && x.url != "" }

  function AllValid(xs: seq<Found>): seq<Found> {
    if xs == [] then []
    else if Valid(xs[|xs| - 1]) then AllValid(xs[..|xs| - 1]) + [xs[|xs| - 1]]
    else AllValid(xs[..|xs| - 1])
  }

  function ItemsOf(site: Site, url: string): seq<Found> { if site(url).Page? then site(url).items else [] }

  function ValidOf(site: Site): string -> seq<Found> { (url: string) => AllValid(ItemsOf(site, url)) }

  /** The valid items of all the pages, in order. */
  function Listed(site: Site, pages: seq<string>): seq<Found> { FlatMap(ValidOf(site), pages) }

  function UrlOf(x: Found): string { x.url }

  function Directory(site: Site, pages: seq<string>): seq<Found> { FirstBy(UrlOf, Listed(site, pages)) }

  function Reversed<X>(xs: seq<X>): (r: seq<X>)
    ensures |r| == |xs|
  {
    if xs == [] then [] else [xs[|xs| - 1]] + Reversed(xs[..|xs| - 1])
  }

  function Numbered(xs: seq<Found>): (r: seq<Chapter>)
    ensures |r| == |xs|
  {
    seq(|xs|, i requires 0 <= i < |xs| => Chapter(i + 1, xs[i].title, xs[i].url))
  }

  function Finished(rule: Rule, xs: seq<Found>): seq<Chapter> { Numbered(if rule.reverse then Reversed(xs) else xs) }

  /** A directory that is complete and fits the limits. */
  predicate Complete(site: Site, rule: Rule, start: string) {
    var chain := Follow(site, start, rule.maxPages);
    chain.Some? && 0 < |Directory(site, chain.value)| <= MAX_CHAPTERS
  }

  lemma {:induction false} AllValidIn(xs: seq<Found>, x: Found)
    requires x in xs && Valid(x)
    ensures x in AllValid(xs)
  {
    var n := |xs| - 1;
    assert xs == xs[..n] + [xs[n]];
    if x in xs[..n] {
      AllValidIn(xs[..n], x);
    }
  }

  /** Every valid item of every page is in the directory under its URL, and no URL is there twice. */
  lemma DirectoryIsWhole(site: Site, pages: seq<string>, url: string, x: Found)
    requires url in pages && x in ItemsOf(site, url) && Valid(x)
    ensures x.url in Keys(UrlOf, Directory(site, pages)) && DistinctBy(UrlOf, Directory(site, pages))
  {
    AllValidIn(ItemsOf(site, url), x);
    InFlatMap(ValidOf(site), pages, url, x);
    FirstByKeepsKeys(UrlOf, Listed(site, pages));
    assert UrlOf(x) in Keys(UrlOf, Listed(site, pages));
  }

  lemma {:induction false} ReversedAt<X>(xs: seq<X>, k: nat)
    requires k < |xs|
    ensures Reversed(xs)[k] == xs[|xs| - 1 - k]
  {
    if k > 0 {
      ReversedAt(xs[..|xs| - 1], k - 1);
    }
  }

  /** The indexes are 1 to n, in the order of the directory or against it. */
  lemma FinishedAt(rule: Rule, xs: seq<Found>, k: nat)
    requires k < |xs|
    ensures var x := xs[if rule.reverse then |xs| - 1 - k else k];
            |Finished(rule, xs)| == |xs| && Finished(rule, xs)[k] == Chapter(k + 1, x.title, x.url)
  {
    if rule.reverse {
      ReversedAt(xs, k);
    }
  }

  // ---- the loop ----

  lemma ListedNext(site: Site, p: seq<string>, url: string)
    ensures Listed(site, p + [url]) == Listed(site, p) + AllValid(ItemsOf(site, url))
  {
    assert (p + [url])[..|p|] == p;
  }

  ghost predicate Gathered(all: seq<Found>, result: seq<Found>, seen: set<string>) {
    result == FirstBy(UrlOf, all) && seen == Keys(UrlOf, all)
  }

  lemma GatheredNext(all: seq<Found>, items: seq<Found>, k: nat, result: seq<Found>, seen: set<string>)
    requires k < |items| && Gathered(all + AllValid(items[..k]), result, seen)
    ensures var x := items[k];
            if !Valid(x) || x.url in seen then Gathered(all + AllValid(items[..k + 1]), result, seen)
            else Gathered(all + AllValid(items[..k + 1]), result + [x], seen + {x.url})
  {
    var x := items[k];
    assert items[..k + 1][..k] == items[..k];
    if Valid(x) {
      assert all + AllValid(items[..k + 1]) == all + AllValid(items[..k]) + [x];
      OneMore(UrlOf, all + AllValid(items[..k]), x);
    }
  }

  lemma {:induction false} FirstByGrows(xs: seq<Found>, ys: seq<Found>)
    ensures FirstBy(UrlOf, xs) <= FirstBy(UrlOf, xs + ys)
  {
    if ys == [] {
      assert xs + ys == xs;
    } else {
      var n := |ys| - 1;
      assert xs + ys == xs + ys[..n] + [ys[n]];
      FirstByGrows(xs, ys[..n]);
      OneMore(UrlOf, xs + ys[..n], ys[n]);
    }
  }

  lemma {:induction false} AllValidGrows(xs: seq<Found>, k: nat)
    requires k <= |xs|
    ensures AllValid(xs[..k]) <= AllValid(xs)
  {
    if k < |xs| {
      var n := |xs| - 1;
      assert xs[..n][..k] == xs[..k];
      AllValidGrows(xs[..n], k);
    } else {
      assert xs[..k] == xs;
    }
  }

  /** Adds the new items of a page; stops when there are too many. */
  method GatherPage(items: seq<Found>, result: seq<Found>, seen: set<string>, ghost all: seq<Found>)
    returns (more: seq<Found>, moreSeen: set<string>, tooMany: bool)
    requires Gathered(all, result, seen) && |result| <= MAX_CHAPTERS
    ensures tooMany <==> |FirstBy(UrlOf, all + AllValid(items))| > MAX_CHAPTERS
    ensures !tooMany ==> Gathered(all + AllValid(items), more, moreSeen)
  {
    more, moreSeen := result, seen;
    assert all + AllValid(items[..0]) == all;
    for k := 0 to |items|
      invariant Gathered(all + AllValid(items[..k]), more, moreSeen)
      invariant |more| <= MAX_CHAPTERS
    {
      GatheredNext(all, items, k, more, moreSeen);
      if !Valid(items[k]) || items[k].url in moreSeen {
        continue;
      }
      moreSeen := moreSeen + {items[k].url};
      more := more + [items[k]];
      if |more| > MAX_CHAPTERS {
        StillTooMany(all, items, k + 1);
        return more, moreSeen, true;
      }
    }
    assert items[..|items|] == items;
    tooMany := false;
  }

  lemma StillTooMany(all: seq<Found>, items: seq<Found>, k: nat)
    requires k <= |items|
    ensures |FirstBy(UrlOf, all + AllValid(items[..k]))| <= |FirstBy(UrlOf, all + AllValid(items))|
  {
    AllValidGrows(items, k);
    var a, b := AllValid(items[..k]), AllValid(items);
    var rest := b[|a|..];
    assert all + b == all + a + rest;
    FirstByGrows(all + a, rest);
  }

  /** The loop has visited p and stands before the target. */
  ghost predicate At(site: Site, start: string, p: seq<string>, target: string, pages: set<string>) {
    Linked(site, p, target) && Start(p, target) == start && pages == set u | u in p
  }

  lemma AtNext(site: Site, start: string, p: seq<string>, target: string, pages: set<string>, next: string)
    requires At(site, start, p, target, pages) && Leads(site, target, next)
    ensures At(site, start, p + [target], next, pages + {target})
    ensures target !in pages && |pages| == |p| ==> |pages + {target}| == |p + [target]|
  {
    LinkedMore(site, p, target, next);
    assert p != [] ==> (p + [target])[0] == p[0];
  }

  /** A cycle, or a chain over the limit, has no complete directory. */
  lemma StuckIsIncomplete(site: Site, rule: Rule, start: string, p: seq<string>, target: string, pages: set<string>)
    requires At(site, start, p, target, pages) && target != ""
    requires target in pages || |p| >= rule.maxPages || !Leads(site, target, NextOf(site, target))
    ensures Follow(site, start, rule.maxPages) == None
  {
    FollowPath(site, p, target, rule.maxPages);
    if target in pages {
      var i :| 0 <= i < |p| && p[i] == target;
      if rule.maxPages >= |p| {
        RevisitNeverEnds(site, p, i, rule.maxPages - |p|);
      }
    }
  }

  /**
   * The directory walk: for any page graph it stops within maxPages fetches; it returns exactly when the next links end
   * and the directory fits the limits; and what it returns is then the whole directory.
   */
  method Toc(site: Site, rule: Rule, tocUrl: string) returns (r: Result<seq<Chapter>, Failure>, fetches: nat)
    ensures fetches <= rule.maxPages
    ensures r.Ok? <==> Complete(site, rule, tocUrl)
    ensures r.Ok? ==> r.value == Finished(rule, Directory(site, Follow(site, tocUrl, rule.maxPages).value))
    ensures r == Err(Nothing) <==>
              (var c := Follow(site, tocUrl, rule.maxPages); c.Some? && Directory(site, c.value) == [])
  {
    var target, pages: set<string>, seen: set<string>, result: seq<Found> := tocUrl, {}, {}, [];
    ghost var p := [];
    fetches := 0;
    while target != ""
      invariant At(site, tocUrl, p, target, pages) && |pages| == |p| == fetches <= rule.maxPages
      invariant Gathered(Listed(site, p), result, seen) && |result| <= MAX_CHAPTERS
      decreases rule.maxPages - |p|
    {
      if target in pages || |pages| >= rule.maxPages {
        StuckIsIncomplete(site, rule, tocUrl, p, target, pages);
        return Err(CycleOrLimit), fetches;
      }
      fetches := fetches + 1;
      var page := site(target);
      if page.Unreadable? {
        StuckIsIncomplete(site, rule, tocUrl, p, target, pages);
        return Err(PageFailed), fetches;
      }
      var tooMany;
      ListedNext(site, p, target);
      result, seen, tooMany := GatherPage(page.items, result, seen, Listed(site, p));
      if tooMany {
        TooManyInside(site, rule, tocUrl, p, target, pages);
        return Err(TooMany), fetches;
      }
      if page.next.None? {
        StuckIsIncomplete(site, rule, tocUrl, p, target, pages);
        return Err(PageFailed), fetches;
      }
      AtNext(site, tocUrl, p, target, pages, page.next.value);
      pages := pages + {target};
      p := p + [target];
      target := page.next.value;
    }
    FollowPath(site, p, "", rule.maxPages);
    assert p + [] == p;
    if rule.reverse {
      result := Reversed(result);
    }
    var chapters := Numbered(result);
    if result == [] {
      return Err(Nothing), fetches;
    }
    return Ok(chapters), fetches;
  }

  lemma DirectoryGrows(site: Site, p: seq<string>, q: seq<string>)
    ensures |Directory(site, p)| <= |Directory(site, p + q)|
  {
    FlatMapAppended(ValidOf(site), p, q);
    FirstByGrows(Listed(site, p), Listed(site, q));
  }

  lemma FollowBegins(site: Site, url: string, n: nat)
    requires url != "" && Follow(site, url, n).Some?
    ensures Follow(site, url, n).value != [] && Follow(site, url, n).value[0] == url
  {
  }

  /** Every complete chain over a path goes on with the page the path leads to. */
  lemma ChainThrough(site: Site, p: seq<string>, target: string, n: nat) returns (q: seq<string>)
    requires Linked(site, p, target) && target != "" && Follow(site, Start(p, target), n).Some?
    ensures Follow(site, Start(p, target), n).value == p + [target] + q
  {
    FollowPath(site, p, target, n);
    FollowBegins(site, target, n - |p|);
    var rest := Follow(site, target, n - |p|).value;
    q := rest[1..];
    assert rest == [target] + q;
    assert p + rest == p + [target] + q;
  }

  lemma TooManyInside(site: Site, rule: Rule, start: string, p: seq<string>, target: string, pages: set<string>)
    requires At(site, start, p, target, pages) && target != "" && site(target).Page?
    requires |Directory(site, p + [target])| > MAX_CHAPTERS
    ensures var c := Follow(site, start, rule.maxPages); c.Some? ==> |Directory(site, c.value)| > MAX_CHAPTERS
  {
    if Follow(site, start, rule.maxPages).Some? {
      var q := ChainThrough(site, p, target, rule.maxPages);
      DirectoryGrows(site, p + [target], q);
    }
  }

  // ---- the text of a chapter ----

  const MAX_TEXT := 1000000

  /** What a page of a chapter yields, its content stripped of surrounding space. */
  datatype Leaf = Torn | Leaf(title: string, content: string, next: Option<string>)

  type Book = string -> Leaf

  /**
   * The chapter as a site: a page without content is unreadable, and a link to what is not the same chapter ends it.
   * The item of a page carries its title and its content.
   */
  function ChapterSite(book: Book, same: (string, string) -> bool, start: string): Site {
    (url: string) =>
      match book(url)
      case Torn => Unreadable
      case Leaf(title, content, next) =>
        if content == "" then Unreadable
        else Page([Found(title, content)],
                  if next.None? then None
                  else Some(if next.value != "" && same(start, next.value) then next.value else ""))
  }

  function Contents(book: Book, pages: seq<string>): seq<string> {
    if pages == [] then []
    else Contents(book, pages[..|pages| - 1]) + [var l := book(pages[|pages| - 1]); if l.Leaf? then l.content else ""]
  }

  function Total(texts: seq<string>): nat {
    if texts == [] then 0 else Total(texts[..|texts| - 1]) + |texts[|texts| - 1]|
  }

  /** The first title that is not empty. */
  function TitleOf(book: Book, pages: seq<string>): string {
    if pages == [] then ""
    else
      var before := TitleOf(book, pages[..|pages| - 1]);
      if before != "" then before
      else var l := book(pages[|pages| - 1]); if l.Leaf? then l.title else ""
  }

  datatype Text = Text(title: string, texts: seq<string>)

  lemma ContentsNext(book: Book, p: seq<string>, url: string)
    requires book(url).Leaf?
    ensures Contents(book, p + [url]) == Contents(book, p) + [book(url).content]
    ensures TitleOf(book, p + [url]) == if TitleOf(book, p) != "" then TitleOf(book, p) else book(url).title
    ensures Total(Contents(book, p + [url])) == Total(Contents(book, p)) + |book(url).content|
  {
    assert (p + [url])[..|p|] == p;
    var before := Contents(book, p);
    assert (before + [book(url).content])[..|before|] == before;
  }

  lemma {:induction false} TotalGrows(book: Book, p: seq<string>, q: seq<string>)
    ensures Total(Contents(book, p)) <= Total(Contents(book, p + q))
  {
    if q == [] {
      assert p + q == p;
    } else {
      var n := |q| - 1;
      var pq := p + q[..n];
      assert p + q == pq + [q[n]] && (pq + [q[n]])[..|pq|] == pq;
      TotalGrows(book, p, q[..n]);
      var before := Contents(book, pq);
      var last := Contents(book, p + q)[|before|];
      assert (before + [last])[..|before|] == before;
    }
  }

  function Limit(maxPages: nat): nat { if maxPages < 20 then maxPages else 20 }

  predicate ChapterFits(book: Book, same: (string, string) -> bool, limit: nat, start: string) {
    var chain := Follow(ChapterSite(book, same, start), start, limit);
    chain.Some? && Total(Contents(book, chain.value)) <= MAX_TEXT
  }

  lemma TooLongInside(book: Book, site: Site, limit: nat, start: string, p: seq<string>, target: string,
                      pages: set<string>)
    requires At(site, start, p, target, pages) && target != "" && Total(Contents(book, p + [target])) > MAX_TEXT
    ensures var c := Follow(site, start, limit); c.Some? ==> Total(Contents(book, c.value)) > MAX_TEXT
  {
    if Follow(site, start, limit).Some? {
      var q := ChainThrough(site, p, target, limit);
      TotalGrows(book, p + [target], q);
    }
  }

  ghost predicate Collected(book: Book, p: seq<string>, title: string, texts: seq<string>, total: nat) {
    texts == Contents(book, p) && title == TitleOf(book, p) && total == Total(texts)
  }

  lemma CollectedNext(book: Book, p: seq<string>, url: string, title: string, texts: seq<string>, total: nat)
    requires Collected(book, p, title, texts, total) && book(url).Leaf?
    ensures Collected(book, p + [url], if title != "" then title else book(url).title, texts + [book(url).content],
                      total + |book(url).content|)
  {
    ContentsNext(book, p, url);
  }

  /** A chapter is whole or refused: all the pages of its chain, none without content, within the limits. */
  method ReadChapter(book: Book, same: (string, string) -> bool, maxPages: nat, chapterUrl: string)
    returns (r: Result<Text, Failure>, fetches: nat)
    ensures fetches <= maxPages && fetches <= 20
    ensures r.Ok? <==> ChapterFits(book, same, if maxPages < 20 then maxPages else 20, chapterUrl)
    ensures r.Ok? ==>
      var chain := Follow(ChapterSite(book, same, chapterUrl), chapterUrl, Limit(maxPages)).value;
      r.value == Text(TitleOf(book, chain), Contents(book, chain)) && fetches == |chain|
  {
    var limit := Limit(maxPages);
    ghost var site := ChapterSite(book, same, chapterUrl);
    ghost var rule := Rule(limit, false);
    var target, pages: set<string>, texts: seq<string>, title := chapterUrl, {}, [], "";
    var total: nat := 0;
    ghost var p := [];
    fetches := 0;
    while target != ""
      invariant At(site, chapterUrl, p, target, pages) && |pages| == |p| == fetches <= limit
      invariant Collected(book, p, title, texts, total) && total <= MAX_TEXT
      decreases limit - |p|
    {
      if target in pages || |pages| >= limit {
        StuckIsIncomplete(site, rule, chapterUrl, p, target, pages);
        return Err(CycleOrLimit), fetches;
      }
      fetches := fetches + 1;
      var page := book(target);
      if page.Torn? || page.next.None? || page.content == "" {
        StuckIsIncomplete(site, rule, chapterUrl, p, target, pages);
        return Err(PageFailed), fetches;
      }
      CollectedNext(book, p, target, title, texts, total);
      title := if title != "" then title else page.title;
      texts := texts + [page.content];
      total := total + |page.content|;
      if total > MAX_TEXT {
        TooLongInside(book, site, limit, chapterUrl, p, target, pages);
        return Err(TooMany), fetches;
      }
      var next := if page.next.value != "" && same(chapterUrl, page.next.value) then page.next.value else "";
      AtNext(site, chapterUrl, p, target, pages, next);
      pages := pages + {target};
      p := p + [target];
      target := next;
    }
    FollowPath(site, p, "", limit);
    assert p + [] == p;
    return Ok(Text(title, texts)), fetches;
  }

  // ---- what the directory and the text hold ----

  lemma {:induction false} AllValidMeans(xs: seq<Found>, x: Found)
    ensures x in AllValid(xs) <==> x in xs && x.title != "" && x.url != ""
  {
    if xs != [] {
      var n := |xs| - 1;
      AllValidMeans(xs[..n], x);
      assert xs == xs[..n] + [xs[n]];
    }
  }

  /** Nothing is in the directory but what a page lists with a title and an address. */
  lemma DirectoryHoldsOnly(site: Site, pages: seq<string>, x: Found)
    requires x in Directory(site, pages)
    ensures x.title != "" && x.url != "" && exists url | url in pages :: site(url).Page? && x in site(url).items
  {
    FirstBySubset(UrlOf, Listed(site, pages));
    var url := FlatMapIn(ValidOf(site), pages, x);
    AllValidMeans(ItemsOf(site, url), x);
  }

  /** From a page of a chapter the walk goes on exactly to the page it names, if that belongs to the same chapter; with
      any other one, or none, the chapter ends, and at a page without text the walk fails. */
  lemma ChapterGoesOn(book: Book, same: (string, string) -> bool, start: string, url: string)
    ensures var page, leaf := ChapterSite(book, same, start)(url), book(url);
            && (page.Page? <==> leaf.Leaf? && leaf.content != "")
            && (page.Page? && leaf.next.None? ==> page.next == None)
            && (page.Page? && leaf.next.Some? ==>
                  var next := leaf.next.value;
                  && (next != "" && same(start, next) ==> page.next == Some(next))
                  && (next == "" || !same(start, next) ==> page.next == Some("")))
  {
  }

  /** The text of a chapter is that of its pages, page by page. */
  lemma {:induction false} ContentsAt(book: Book, pages: seq<string>, i: nat)
    requires i < |pages|
    ensures |Contents(book, pages)| == |pages|
    ensures Contents(book, pages)[i] == if book(pages[i]).Leaf? then book(pages[i]).content else ""
  {
    var n := |pages| - 1;
    if i < n {
      ContentsAt(book, pages[..n], i);
    } else if n > 0 {
      ContentsAt(book, pages[..n], 0);
    }
  }

  /** Its title is the first that a page gives. */
  lemma {:induction false} TitleIsFirst(book: Book, pages: seq<string>, i: nat)
    requires i < |pages| && book(pages[i]).Leaf? && book(pages[i]).title != ""
    requires forall j | 0 <= j < i :: book(pages[j]).Leaf? ==> book(pages[j]).title == ""
    ensures TitleOf(book, pages) == book(pages[i]).title
    decreases |pages|
  {
    var n := |pages| - 1;
    if i < n {
      TitleIsFirst(book, pages[..n], i);
    } else {
      NoTitle(book, pages[..n]);
    }
  }

  lemma {:induction false} NoTitle(book: Book, pages: seq<string>)
    requires forall j | 0 <= j < |pages| :: book(pages[j]).Leaf? ==> book(pages[j]).title == ""
    ensures TitleOf(book, pages) == ""
  {
    if pages != [] {
      NoTitle(book, pages[..|pages| - 1]);
    }
  }
}
