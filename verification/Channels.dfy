/** The channel list that Compile of internal/service/publisher.go puts into the playlists. */
module Channels {
  import opened Dedup
  import opened Model

  /** A selected member with the configuration its revision holds. */
  datatype Feed = Feed(sourceId: Id, protocol: string, items: seq<Item>,
                       languages: seq<string>, regions: seq<string>, devices: seq<string>, networks: seq<string>)

  // ---- what one feed contributes ----

  predicate Matches(r: ChannelRule, sourceId: Id, item: Item) {
    (r.sourceId == "" || r.sourceId == sourceId) && (r.match_ == item.url || r.match_ == item.id)
  }

  function Renamed(r: ChannelRule, item: Item): Item {
    item.(name := if r.name != "" then r.name else item.name,
          group := if r.group != "" then r.group else item.group,
          logo := if r.logo != "" then r.logo else item.logo,
          id := if r.tvgId != "" then r.tvgId else item.id)
  }

  datatype Shown = Shown(hidden: bool, item: Item)

  /** The rules in order, each tested against the original item and applied to the item so far. */
  function Overridden(rules: seq<ChannelRule>, sourceId: Id, original: Item): Shown {
    if rules == [] then Shown(false, original)
    else
      var before, r := Overridden(rules[..|rules| - 1], sourceId, original), rules[|rules| - 1];
      if Matches(r, sourceId, original) then Shown(r.hide, Renamed(r, before.item)) else before
  }

  function AllOverridden(rules: seq<ChannelRule>, sourceId: Id, items: seq<Item>): seq<Item> {
    if items == [] then []
    else
      var before := AllOverridden(rules, sourceId, items[..|items| - 1]);
      var last := Overridden(rules, sourceId, items[|items| - 1]);
      if last.hidden then before else before + [last.item]
  }

  /** Members that are restricted to devices or networks stay out of the playlists. */
  predicate Listed(feed: Feed) { feed.protocol == "m3u" && feed.devices == [] && feed.networks == [] }

  function Contribution(rules: seq<ChannelRule>, feed: Feed): seq<Item> {
    if Listed(feed) then AllOverridden(rules, feed.sourceId, Filtered(feed.languages, feed.regions, feed.items)) else []
  }

  function Contributions(rules: seq<ChannelRule>, feeds: seq<Feed>): seq<Item> {
    if feeds == [] then [] else Contributions(rules, feeds[..|feeds| - 1]) + Contribution(rules, feeds[|feeds| - 1])
  }

  // ---- one channel per URL ----

  function UrlOf(x: Item): string { x.url }

  function Urls(xs: seq<Item>): set<string> { Keys(UrlOf, xs) }

  function FirstByUrl(xs: seq<Item>): seq<Item> { FirstBy(UrlOf, xs) }

  // ---- what the rules come to ----

  function Applying(rules: seq<ChannelRule>, sourceId: Id, original: Item): seq<ChannelRule> {
    if rules == [] then []
    else
      var before, r := Applying(rules[..|rules| - 1], sourceId, original), rules[|rules| - 1];
      if Matches(r, sourceId, original) then before + [r] else before
  }

  /** The value of the last rule that sets it. */
  function LastSet(rules: seq<ChannelRule>, field: ChannelRule -> string, otherwise: string): string {
    if rules == [] then otherwise
    else if field(rules[|rules| - 1]) != "" then field(rules[|rules| - 1])
    else LastSet(rules[..|rules| - 1], field, otherwise)
  }

  const NAME := (r: ChannelRule) => r.name
  const GROUP := (r: ChannelRule) => r.group
  const LOGO := (r: ChannelRule) => r.logo
  const TVG := (r: ChannelRule) => r.tvgId

  /** Field by field the last applying rule that sets it wins; hiding is up to the last applying rule alone. */
  lemma {:induction false} LastRuleWins(rules: seq<ChannelRule>, sourceId: Id, x: Item)
    ensures var rs, y := Applying(rules, sourceId, x), Overridden(rules, sourceId, x);
            && y.hidden == (rs != [] && rs[|rs| - 1].hide)
            && y.item == Item(LastSet(rs, TVG, x.id), LastSet(rs, NAME, x.name), x.url, LastSet(rs, GROUP, x.group),
                              LastSet(rs, LOGO, x.logo), x.language, x.region)
  {
    if rules != [] {
      var n := |rules| - 1;
      LastRuleWins(rules[..n], sourceId, x);
      var before := Applying(rules[..n], sourceId, x);
      assert (before + [rules[n]])[..|before|] == before;
    }
  }

  // ---- which channels there are ----

  /** A rule is meant for a channel by its source, or all sources, and by the URL or the id it had before any rule. */
  lemma {:induction false} ApplyingMeans(rules: seq<ChannelRule>, sourceId: Id, x: Item, r: ChannelRule)
    ensures r in Applying(rules, sourceId, x) <==>
              r in rules && (r.sourceId == "" || r.sourceId == sourceId) && (r.match_ == x.url || r.match_ == x.id)
  {
    if rules != [] {
      var n := |rules| - 1;
      ApplyingMeans(rules[..n], sourceId, x, r);
      assert rules == rules[..n] + [rules[n]];
    }
  }

  lemma {:induction false} ApplyingInOrder(xs: seq<ChannelRule>, ys: seq<ChannelRule>, sourceId: Id, x: Item)
    ensures Applying(xs + ys, sourceId, x) == Applying(xs, sourceId, x) + Applying(ys, sourceId, x)
  {
    if ys == [] {
      assert xs + ys == xs;
    } else {
      var n := |ys| - 1;
      assert (xs + ys)[..|xs| + n] == xs + ys[..n];
      ApplyingInOrder(xs, ys[..n], sourceId, x);
    }
  }

  lemma {:induction false} LastSetMeans(rules: seq<ChannelRule>, field: ChannelRule -> string, otherwise: string)
    ensures var v := LastSet(rules, field, otherwise);
            || (v == otherwise && forall r | r in rules :: field(r) == "")
            || exists i | 0 <= i < |rules| ::
                 v == field(rules[i]) != "" && forall j | i < j < |rules| :: field(rules[j]) == ""
  {
    if rules != [] {
      var n := |rules| - 1;
      LastSetMeans(rules[..n], field, otherwise);
      var v := LastSet(rules[..n], field, otherwise);
      if field(rules[n]) != "" {
        assert LastSet(rules, field, otherwise) == field(rules[n]);
      } else if i :| && 0 <= i < n && v == field(rules[..n][i]) != ""
                      && forall j | i < j < n :: field(rules[..n][j]) == "" {
        assert forall j | i < j < |rules| :: field(rules[j]) == "";
        assert v == field(rules[i]);
      } else {
        assert rules == rules[..n] + [rules[n]];
      }
    }
  }

  predicate Becomes(rules: seq<ChannelRule>, sourceId: Id, y: Item, x: Item) {
    Overridden(rules, sourceId, y) == Shown(false, x)
  }

  lemma {:induction false} OverriddenMeans(rules: seq<ChannelRule>, sourceId: Id, items: seq<Item>, x: Item)
    ensures x in AllOverridden(rules, sourceId, items) <==> exists y | y in items :: Becomes(rules, sourceId, y, x)
  {
    if items != [] {
      var n := |items| - 1;
      OverriddenMeans(rules, sourceId, items[..n], x);
      assert items == items[..n] + [items[n]];
      assert x in AllOverridden(rules, sourceId, items) <==>
          x in AllOverridden(rules, sourceId, items[..n]) || Becomes(rules, sourceId, items[n], x);
    }
  }

  /** The feed has this channel, passes it on, and the rules make it x: a playlist, for every device and network, of the
      wanted languages and regions, and not hidden. */
  ghost predicate Brings(rules: seq<ChannelRule>, feed: Feed, x: Item) {
    && feed.protocol == "m3u" && feed.devices == [] && feed.networks == []
    && exists y | y in feed.items ::
         && (feed.languages == [] || y.language in feed.languages) && (feed.regions == [] || y.region in feed.regions)
         && Becomes(rules, feed.sourceId, y, x)
  }

  lemma ContributionMeans(rules: seq<ChannelRule>, feed: Feed, x: Item)
    ensures x in Contribution(rules, feed) <==> Brings(rules, feed, x)
  {
    var wanted := Filtered(feed.languages, feed.regions, feed.items);
    OverriddenMeans(rules, feed.sourceId, wanted, x);
    forall y ensures y in wanted <==> && y in feed.items && (feed.languages == [] || y.language in feed.languages)
                                      && (feed.regions == [] || y.region in feed.regions)
    {
      FilteredMeans(feed.languages, feed.regions, feed.items, y);
    }
  }

  /** The channel list of a publication holds what some feed brings, and under every URL that a feed brings one
      channel. */
  lemma {:induction false} ContributionsMean(rules: seq<ChannelRule>, feeds: seq<Feed>, x: Item)
    ensures x in Contributions(rules, feeds) <==> exists feed | feed in feeds :: Brings(rules, feed, x)
  {
    if feeds != [] {
      var n := |feeds| - 1;
      ContributionsMean(rules, feeds[..n], x);
      ContributionMeans(rules, feeds[n], x);
      assert feeds == feeds[..n] + [feeds[n]];
    }
  }

  lemma UnionMeans(rules: seq<ChannelRule>, feeds: seq<Feed>)
    ensures var channels := FirstByUrl(Contributions(rules, feeds));
            && (forall x | x in channels :: exists feed | feed in feeds :: Brings(rules, feed, x))
            && (forall x, feed | feed in feeds && Brings(rules, feed, x) :: exists y | y in channels :: y.url == x.url)
            && forall i, j | 0 <= i < j < |channels| :: channels[i].url != channels[j].url
  {
    var all := Contributions(rules, feeds);
    var channels := FirstByUrl(all);
    FirstByKeepsKeys(UrlOf, all);
    FirstBySubset(UrlOf, all);
    forall x ensures x in all <==> exists feed | feed in feeds :: Brings(rules, feed, x) {
      ContributionsMean(rules, feeds, x);
    }
    forall x, feed | feed in feeds && Brings(rules, feed, x) ensures exists y | y in channels :: y.url == x.url {
      assert x in all;
      assert UrlOf(x) in Keys(UrlOf, channels);
    }
    forall i, j | 0 <= i < j < |channels| ensures channels[i].url != channels[j].url {
      assert UrlOf(channels[i]) != UrlOf(channels[j]);
    }
  }

  // ---- the loops ----

  method FilterItems(feed: Feed) returns (out: seq<Item>)
    ensures out == Filtered(feed.languages, feed.regions, feed.items)
  {
    out := [];
    for i := 0 to |feed.items|
      invariant out == Filtered(feed.languages, feed.regions, feed.items[..i])
    {
      assert feed.items[..i + 1][..i] == feed.items[..i];
      var x := feed.items[i];
      if feed.languages != [] && x.language !in feed.languages {
        continue;
      }
      if feed.regions != [] && x.region !in feed.regions {
        continue;
      }
      out := out + [x];
    }
    assert feed.items[..|feed.items|] == feed.items;
  }

  method ChannelOverrides(items: seq<Item>, sourceId: Id, rules: seq<ChannelRule>) returns (out: seq<Item>)
    ensures out == AllOverridden(rules, sourceId, items)
  {
    out := [];
    for i := 0 to |items|
      invariant out == AllOverridden(rules, sourceId, items[..i])
    {
      assert items[..i + 1][..i] == items[..i];
      var item, hidden := items[i], false;
      var originalId := item.id;
      for k := 0 to |rules|
        invariant item.url == items[i].url
        invariant Overridden(rules[..k], sourceId, items[i]) == Shown(hidden, item)
      {
        assert rules[..k + 1][..k] == rules[..k];
        var r := rules[k];
        if r.sourceId != "" && r.sourceId != sourceId {
          continue;
        }
        if r.match_ != item.url && r.match_ != originalId {
          continue;
        }
        hidden := r.hide;
        if r.name != "" {
          item := item.(name := r.name);
        }
        if r.group != "" {
          item := item.(group := r.group);
        }
        if r.logo != "" {
          item := item.(logo := r.logo);
        }
        if r.tvgId != "" {
          item := item.(id := r.tvgId);
        }
      }
      assert rules[..|rules|] == rules;
      if !hidden {
        out := out + [item];
      }
    }
    assert items[..|items|] == items;
  }

  lemma OneMoreChannel(all: seq<Item>, its: seq<Item>, k: nat)
    requires k < |its|
    ensures var was, more := all + its[..k], all + its[..k + 1];
            && FirstByUrl(more) == (if its[k].url in Urls(was) then FirstByUrl(was) else FirstByUrl(was) + [its[k]])
            && Urls(more) == Urls(was) + {its[k].url}
  {
    assert all + its[..k + 1] == all + its[..k] + [its[k]];
    OneMore(UrlOf, all + its[..k], its[k]);
  }

  method AddChannels(its: seq<Item>, channels: seq<Item>, seen: set<string>, ghost all: seq<Item>)
    returns (moreChannels: seq<Item>, moreSeen: set<string>)
    requires channels == FirstByUrl(all) && seen == Urls(all)
    ensures moreChannels == FirstByUrl(all + its) && moreSeen == Urls(all + its)
  {
    moreChannels, moreSeen := channels, seen;
    assert all + its[..0] == all;
    for k := 0 to |its|
      invariant moreChannels == FirstByUrl(all + its[..k]) && moreSeen == Urls(all + its[..k])
    {
      var x := its[k];
      OneMoreChannel(all, its, k);
      if x.url !in moreSeen {
        moreChannels := moreChannels + [x];
        moreSeen := moreSeen + {x.url};
      }
    }
    assert its[..|its|] == its;
  }

  /** The channel list: every listed feed's channels, the first for each URL. */
  method Union(feeds: seq<Feed>, rules: seq<ChannelRule>) returns (channels: seq<Item>)
    ensures channels == FirstByUrl(Contributions(rules, feeds))
  {
    channels := [];
    var seen: set<string> := {};
    ghost var all := [];
    for i := 0 to |feeds|
      invariant all == Contributions(rules, feeds[..i])
      invariant channels == FirstByUrl(all) && seen == Urls(all)
    {
      assert feeds[..i + 1][..i] == feeds[..i];
      var feed := feeds[i];
      var its := FilterItems(feed);
      if feed.protocol == "m3u" {
        its := ChannelOverrides(its, feed.sourceId, rules);
      }
      if feed.devices != [] || feed.networks != [] || feed.protocol != "m3u" {
        assert all + [] == all;
        continue;
      }
      channels, seen := AddChannels(its, channels, seen, all);
      all := all + its;
    }
    assert feeds[..|feeds|] == feeds;
  }
}
