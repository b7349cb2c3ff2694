/** The parts of internal/model/model.go that several models share. */
module Model {
  type Id = string

  datatype Item = Item(id: string, name: string, url: string, group: string, logo: string, language: string,
                       region: string)

  datatype Normalized = Normalized(protocol: string, items: seq<Item>)

  datatype ChannelRule = ChannelRule(sourceId: Id, match_: string, name: string, group: string, logo: string,
                                     tvgId: string, hide: bool)

  /** An empty list of languages or regions restricts nothing. */
  predicate Wanted(languages: seq<string>, regions: seq<string>, x: Item) {
    (languages == [] || x.language in languages) && (regions == [] || x.region in regions)
  }

  /** filtered of internal/service/publisher.go */
  function Filtered(languages: seq<string>, regions: seq<string>, items: seq<Item>): seq<Item> {
    if items == [] then []
    else
      var before, last := Filtered(languages, regions, items[..|items| - 1]), items[|items| - 1];
      if Wanted(languages, regions, last) then before + [last] else before
  }

  /** The filter keeps the items of a wanted language and a wanted region, and no other. */
  lemma {:induction false} FilteredMeans(languages: seq<string>, regions: seq<string>, items: seq<Item>, x: Item)
    ensures x in Filtered(languages, regions, items) <==>
              && x in items && (languages == [] || x.language in languages)
              && (regions == [] || x.region in regions)
  {
    if items != [] {
      var n := |items| - 1;
      FilteredMeans(languages, regions, items[..n], x);
      assert items == items[..n] + [items[n]];
    }
  }

  /** It keeps them in their order, each as often as it was there. */
  lemma {:induction false} FilteredInOrder(languages: seq<string>, regions: seq<string>, xs: seq<Item>, ys: seq<Item>)
    ensures Filtered(languages, regions, xs + ys)
         == Filtered(languages, regions, xs) + Filtered(languages, regions, ys)
  {
    if ys == [] {
      assert xs + ys == xs;
    } else {
      var n := |ys| - 1;
      assert (xs + ys)[..|xs| + n] == xs + ys[..n];
      FilteredInOrder(languages, regions, xs, ys[..n]);
    }
  }

  const NOTHING := Normalized("", [])
}
