/** The budget breakdown of a campaign and the budget finance has approved
    (apps/finance/services.py). Amounts are whole cents. */
module Finance {
  import opened Text

  datatype Line = Line(name: string, budget: int)
  datatype Occasion = Occasion(
    name: string, budget: int,
    celebrities: seq<Line>, giveaways: seq<Line>, catering: seq<Line>, printouts: seq<Line>)
  datatype TvAd = TvAd(name: string, budget: int, channels: seq<Line>)
  datatype TypeLine = TypeLine(name: string, budget: int, locations: seq<Line>)
  datatype StreetAd = StreetAd(name: string, budget: int, lines: seq<TypeLine>)
  datatype SocialAd = SocialAd(name: string, platforms: seq<Line>)

  /** Events and exhibitions have the same shape. */
  datatype Shape = Shape(
    events: seq<Occasion>, tvAds: seq<TvAd>, streetAds: seq<StreetAd>, socialAds: seq<SocialAd>,
    exhibitions: seq<Occasion>, otherCosts: seq<Line>)

  datatype Approval = PENDING | APPROVED | SEMI_APPROVED | NOT_APPROVED

  datatype Campaign = Campaign(shape: Shape, total: int, status: Approval, rejected: set<string>)

  datatype Item = Item(caption: string, amount: int, key: string)
  datatype Section = Section(caption: string, items: seq<Item>, subtotal: int)

  // ---- The breakdown, specified ----

  function Flatten(groups: seq<seq<Item>>): seq<Item> {
    if groups == [] then []
    else Flatten(groups[..|groups| - 1]) + groups[|groups| - 1]
  }

  lemma FlattenStep(groups: seq<seq<Item>>, i: nat)
    requires i < |groups|
    ensures Flatten(groups[..i + 1]) == Flatten(groups[..i]) + groups[i]
  {
    assert groups[..i + 1][..i] == groups[..i];
  }

  function OrElse(name: string, fallback: string): string {
    if name != "" then name else fallback
  }

  const ARROW := "\U{21b3} "

  /** One item per line, keyed by its index after `root`. */
  function LineGroups(tag: string, root: string, lines: seq<Line>): (g: seq<seq<Item>>)
    ensures |g| == |lines|
  {
    seq(|lines|, i requires 0 <= i < |lines| =>
      [Item(ARROW + tag + lines[i].name, lines[i].budget, root + Decimal(i))])
  }

  function LineItems(tag: string, root: string, lines: seq<Line>): seq<Item> {
    Flatten(LineGroups(tag, root, lines))
  }

  function OccasionParts(base: string, fallback: string, o: Occasion): seq<seq<Item>> {
    [[Item(OrElse(o.name, fallback), o.budget, base + "main")],
     LineItems("Celebrity: ", base + "celebrities.", o.celebrities),
     LineItems("Giveaway: ", base + "giveaways.", o.giveaways),
     LineItems("Catering: ", base + "catering.", o.catering),
     LineItems("Print Out: ", base + "printouts.", o.printouts)]
  }

  function OccasionGroups(root: string, fallback: string, os: seq<Occasion>): (g: seq<seq<Item>>)
    ensures |g| == |os|
  {
    seq(|os|, i requires 0 <= i < |os| => Flatten(OccasionParts(root + Decimal(i) + ".", fallback, os[i])))
  }

  function TvParts(base: string, ad: TvAd): seq<seq<Item>> {
    [[Item(OrElse(ad.name, "TV Ad"), ad.budget, base + "main")],
     LineItems("Channel: ", base + "channels.", ad.channels)]
  }

  function TvGroups(ads: seq<TvAd>): (g: seq<seq<Item>>)
    ensures |g| == |ads|
  {
    seq(|ads|, i requires 0 <= i < |ads| => Flatten(TvParts("tv_ads." + Decimal(i) + ".", ads[i])))
  }

  function TypeLineItems(key: string, line: TypeLine): seq<Item> {
    [Item(ARROW + line.name, line.budget, key)] + LineItems("", key + ".locations.", line.locations)
  }

  function TypeLineGroups(root: string, lines: seq<TypeLine>): (g: seq<seq<Item>>)
    ensures |g| == |lines|
  {
    seq(|lines|, i requires 0 <= i < |lines| => TypeLineItems(root + Decimal(i), lines[i]))
  }

  function StreetParts(base: string, ad: StreetAd): seq<seq<Item>> {
    [[Item(OrElse(ad.name, "Street Ad"), ad.budget, base + "main")],
     Flatten(TypeLineGroups(base + "type_lines.", ad.lines))]
  }

  function StreetGroups(ads: seq<StreetAd>): (g: seq<seq<Item>>)
    ensures |g| == |ads|
  {
    seq(|ads|, i requires 0 <= i < |ads| => Flatten(StreetParts("street_ads." + Decimal(i) + ".", ads[i])))
  }

  function Total(amounts: seq<int>): int {
    if amounts == [] then 0 else Total(amounts[..|amounts| - 1]) + amounts[|amounts| - 1]
  }

  lemma TotalStep(amounts: seq<int>, i: nat)
    requires i < |amounts|
    ensures Total(amounts[..i + 1]) == Total(amounts[..i]) + amounts[i]
  {
    assert amounts[..i + 1][..i] == amounts[..i];
  }

  lemma {:induction false} TotalUpdate(amounts: seq<int>, i: nat, more: int)
    requires i < |amounts|
    ensures Total(amounts[i := amounts[i] + more]) == Total(amounts) + more
  {
    var n := |amounts| - 1;
    var after := amounts[i := amounts[i] + more];
    if i < n {
      TotalUpdate(amounts[..n], i, more);
      assert after[..n] == amounts[..n][i := amounts[i] + more];
    } else {
      assert after[..n] == amounts[..n];
    }
  }

  function Budgets(lines: seq<Line>): (b: seq<int>)
    ensures |b| == |lines|
  {
    seq(|lines|, i requires 0 <= i < |lines| => lines[i].budget)
  }

  function LineTotal(lines: seq<Line>): int {
    Total(Budgets(lines))
  }

  /** A social ad's own row repeats the sum of its platform lines. */
  function SocialParts(base: string, ad: SocialAd): seq<seq<Item>> {
    [[Item(OrElse(ad.name, "Social Ad"), LineTotal(ad.platforms), base + "main")],
     LineItems("", base + "platform_lines.", ad.platforms)]
  }

  function SocialGroups(ads: seq<SocialAd>): (g: seq<seq<Item>>)
    ensures |g| == |ads|
  {
    seq(|ads|, i requires 0 <= i < |ads| => Flatten(SocialParts("social_ads." + Decimal(i) + ".", ads[i])))
  }

  function CostGroups(costs: seq<Line>): (g: seq<seq<Item>>)
    ensures |g| == |costs|
  {
    seq(|costs|, i requires 0 <= i < |costs| =>
      [Item(OrElse(costs[i].name, "Other"), costs[i].budget, "other_costs." + Decimal(i))])
  }

  const SECTIONS := 6
  const SOCIAL := 3

  /** The items of section `k`. */
  function ItemsOf(s: Shape, k: nat): seq<Item> {
    if k == 0 then Flatten(OccasionGroups("events.", "Event", s.events))
    else if k == 1 then Flatten(TvGroups(s.tvAds))
    else if k == 2 then Flatten(StreetGroups(s.streetAds))
    else if k == SOCIAL then Flatten(SocialGroups(s.socialAds))
    else if k == 4 then Flatten(OccasionGroups("exhibitions.", "Exhibition", s.exhibitions))
    else Flatten(CostGroups(s.otherCosts))
  }

  function SectionItems(s: Shape): (items: seq<seq<Item>>)
    ensures |items| == SECTIONS
  {
    seq(SECTIONS, k requires 0 <= k => ItemsOf(s, k))
  }

  function AllItems(s: Shape): seq<Item> {
    Flatten(SectionItems(s))
  }

  // ---- Totals, from the budgets themselves ----

  function OccasionAmount(o: Occasion): int {
    o.budget + LineTotal(o.celebrities) + LineTotal(o.giveaways) + LineTotal(o.catering) + LineTotal(o.printouts)
  }

  function OccasionAmounts(os: seq<Occasion>): (b: seq<int>)
    ensures |b| == |os|
  {
    seq(|os|, i requires 0 <= i < |os| => OccasionAmount(os[i]))
  }

  function TvAmounts(ads: seq<TvAd>): (b: seq<int>)
    ensures |b| == |ads|
  {
    seq(|ads|, i requires 0 <= i < |ads| => ads[i].budget + LineTotal(ads[i].channels))
  }

  function TypeLineAmounts(lines: seq<TypeLine>): (b: seq<int>)
    ensures |b| == |lines|
  {
    seq(|lines|, i requires 0 <= i < |lines| => lines[i].budget + LineTotal(lines[i].locations))
  }

  function StreetAmounts(ads: seq<StreetAd>): (b: seq<int>)
    ensures |b| == |ads|
  {
    seq(|ads|, i requires 0 <= i < |ads| => ads[i].budget + Total(TypeLineAmounts(ads[i].lines)))
  }

  function SocialAmounts(ads: seq<SocialAd>): (b: seq<int>)
    ensures |b| == |ads|
  {
    seq(|ads|, i requires 0 <= i < |ads| => LineTotal(ads[i].platforms))
  }

  function Caption(k: nat): string {
    if k == 0 then "Events" else if k == 1 then "TV Ads" else if k == 2 then "Street Ads"
    else if k == SOCIAL then "Social Media" else if k == 4 then "Exhibition" else "Other Costs"
  }

  function SubtotalOf(s: Shape, k: nat): int {
    if k == 0 then Total(OccasionAmounts(s.events))
    else if k == 1 then Total(TvAmounts(s.tvAds))
    else if k == 2 then Total(StreetAmounts(s.streetAds))
    else if k == SOCIAL then Total(SocialAmounts(s.socialAds))
    else if k == 4 then Total(OccasionAmounts(s.exhibitions))
    else LineTotal(s.otherCosts)
  }

  function SubtotalSeq(s: Shape): (t: seq<int>)
    ensures |t| == SECTIONS
  {
    seq(SECTIONS, k requires 0 <= k => SubtotalOf(s, k))
  }

  /** The sum of the section subtotals. */
  function Subtotals(s: Shape): int {
    Total(SubtotalSeq(s))
  }

  /** A section appears only if it has items. */
  function SectionIf(caption: string, items: seq<Item>, subtotal: int): seq<Section> {
    if items != [] then [Section(caption, items, subtotal)] else []
  }

  /** The first `k` sections over the given items and subtotals. */
  function Sections(items: seq<seq<Item>>, subtotals: seq<int>, k: nat): seq<Section>
    requires k <= |items| == |subtotals|
  {
    if k == 0 then []
    else Sections(items, subtotals, k - 1) + SectionIf(Caption(k - 1), items[k - 1], subtotals[k - 1])
  }

  function BreakdownOf(s: Shape): seq<Section> {
    Sections(SectionItems(s), SubtotalSeq(s), SECTIONS)
  }

  // ---- Keys are pairwise distinct ----

  predicate NoDup(items: seq<Item>) {
    forall i, j :: 0 <= i < j < |items| ==> items[i].key != items[j].key
  }

  predicate Disjoint(a: seq<Item>, b: seq<Item>) {
    forall i, j :: 0 <= i < |a| && 0 <= j < |b| ==> a[i].key != b[j].key
  }

  lemma {:induction false} FlattenMember(groups: seq<seq<Item>>, k: nat) returns (g: nat, i: nat)
    requires k < |Flatten(groups)|
    ensures g < |groups| && i < |groups[g]| && groups[g][i] == Flatten(groups)[k]
  {
    var n := |groups| - 1;
    var front := Flatten(groups[..n]);
    if k < |front| {
      g, i := FlattenMember(groups[..n], k);
    } else {
      g, i := n, k - |front|;
    }
  }

  /** Duplicate-free groups that share no key flatten to a duplicate-free list. */
  lemma {:induction false} FlattenNoDup(groups: seq<seq<Item>>)
    requires forall g :: 0 <= g < |groups| ==> NoDup(groups[g])
    requires forall g, h :: 0 <= g < h < |groups| ==> Disjoint(groups[g], groups[h])
    ensures NoDup(Flatten(groups))
  {
    if groups != [] {
      var n := |groups| - 1;
      FlattenNoDup(groups[..n]);
      var front, last := Flatten(groups[..n]), groups[n];
      forall k, j | 0 <= k < |front| && 0 <= j < |last|
        ensures front[k].key != last[j].key
      {
        var g, i := FlattenMember(groups[..n], k);
        assert Disjoint(groups[g], groups[n]);
      }
    }
  }

  predicate Under(items: seq<Item>, p: string) {
    forall i :: 0 <= i < |items| ==> p <= items[i].key
  }

  lemma FlattenUnder(groups: seq<seq<Item>>, p: string)
    requires forall g :: 0 <= g < |groups| ==> Under(groups[g], p)
    ensures Under(Flatten(groups), p)
  {
    forall k | 0 <= k < |Flatten(groups)|
      ensures p <= Flatten(groups)[k].key
    {
      var g, i := FlattenMember(groups, k);
    }
  }

  /** `p + x` and `p + y` part at position `i` after `p`. */
  lemma PartedDisjoint(a: seq<Item>, b: seq<Item>, p: string, x: string, y: string, i: nat)
    requires Under(a, p + x) && Under(b, p + y)
    requires i < |x| && i < |y| && x[i] != y[i]
    ensures Disjoint(a, b)
  {
    forall j, k | 0 <= j < |a| && 0 <= k < |b|
      ensures a[j].key != b[k].key
    {
      assert a[j].key[|p| + i] == (p + x)[|p| + i] == x[i];
      assert b[k].key[|p| + i] == (p + y)[|p| + i] == y[i];
    }
  }

  lemma UnderShorter(items: seq<Item>, p: string, x: string)
    requires Under(items, p + x)
    ensures Under(items, p)
  {
    forall i | 0 <= i < |items|
      ensures p <= items[i].key
    {
      assert items[i].key[..|p|] == (p + x)[..|p|] == p;
    }
  }

  /** The key is that of entry `i` below `root`, or of something inside it. */
  predicate Tagged(key: string, root: string, i: nat) {
    key == root + Decimal(i) || root + Decimal(i) + "." <= key
  }

  lemma NumeralEnd(s: string, i: nat, j: nat)
    requires Decimal(i) + "." <= s
    requires Decimal(j) + "." <= s || Decimal(j) == s
    ensures i == j
  {
    assert s[|Decimal(i)|] == '.' && !IsDigit('.');
    assert forall k :: 0 <= k < |Decimal(i)| ==> s[k] == Decimal(i)[k] && IsDigit(s[k]);
    assert forall k :: 0 <= k < |Decimal(j)| ==> s[k] == Decimal(j)[k] && IsDigit(s[k]);
    assert |s| > |Decimal(j)| ==> s[|Decimal(j)|] == '.';
    assert |Decimal(i)| == |Decimal(j)|;
    assert Decimal(i) == s[..|Decimal(i)|] == Decimal(j);
    DecimalInjective(i, j);
  }

  lemma TagUnique(key: string, root: string, i: nat, j: nat)
    requires Tagged(key, root, i) && Tagged(key, root, j)
    ensures i == j
  {
    assert root <= key;
    var s := key[|root|..];
    assert key == root + s;
    assert forall k: nat :: root + Decimal(k) + "." == root + (Decimal(k) + ".");
    if root + Decimal(i) + "." <= key {
      assert Decimal(i) + "." <= s;
      NumeralEnd(s, i, j);
    } else if root + Decimal(j) + "." <= key {
      assert Decimal(j) + "." <= s;
      NumeralEnd(s, j, i);
    } else {
      assert s == Decimal(i) == Decimal(j);
      DecimalInjective(i, j);
    }
  }

  predicate AllTagged(items: seq<Item>, root: string, i: nat) {
    forall k :: 0 <= k < |items| ==> Tagged(items[k].key, root, i)
  }

  lemma TagPrefix(key: string, root: string, i: nat)
    requires Tagged(key, root, i)
    ensures root <= key
  {
    if root + Decimal(i) + "." <= key {
      assert key[..|root|] == (root + Decimal(i) + ".")[..|root|] == root;
    }
  }

  /** Indexed groups below one root never collide. */
  lemma IndexedNoDup(groups: seq<seq<Item>>, root: string)
    requires forall g :: 0 <= g < |groups| ==> NoDup(groups[g]) && AllTagged(groups[g], root, g)
    ensures NoDup(Flatten(groups)) && Under(Flatten(groups), root)
  {
    forall g, h | 0 <= g < h < |groups|
      ensures Disjoint(groups[g], groups[h])
    {
      forall i, j | 0 <= i < |groups[g]| && 0 <= j < |groups[h]|
        ensures groups[g][i].key != groups[h][j].key
      {
        if groups[g][i].key == groups[h][j].key {
          TagUnique(groups[g][i].key, root, g, h);
        }
      }
    }
    FlattenNoDup(groups);
    forall g | 0 <= g < |groups|
      ensures Under(groups[g], root)
    {
      forall i | 0 <= i < |groups[g]|
        ensures root <= groups[g][i].key
      {
        TagPrefix(groups[g][i].key, root, g);
      }
    }
    FlattenUnder(groups, root);
  }

  lemma LineItemsKeys(tag: string, root: string, lines: seq<Line>)
    ensures NoDup(LineItems(tag, root, lines)) && Under(LineItems(tag, root, lines), root)
  {
    IndexedNoDup(LineGroups(tag, root, lines), root);
  }

  lemma UnderTagged(items: seq<Item>, root: string, i: nat)
    requires Under(items, root + Decimal(i) + ".")
    ensures AllTagged(items, root, i)
  {}

  lemma OccasionKeys(root: string, i: nat, fallback: string, o: Occasion)
    ensures var items := Flatten(OccasionParts(root + Decimal(i) + ".", fallback, o));
      NoDup(items) && AllTagged(items, root, i)
  {
    var base := root + Decimal(i) + ".";
    var parts := OccasionParts(base, fallback, o);
    var names := ["main", "celebrities.", "giveaways.", "catering.", "printouts."];
    LineItemsKeys("Celebrity: ", base + names[1], o.celebrities);
    LineItemsKeys("Giveaway: ", base + names[2], o.giveaways);
    LineItemsKeys("Catering: ", base + names[3], o.catering);
    LineItemsKeys("Print Out: ", base + names[4], o.printouts);
    forall g, h | 0 <= g < h < 5
      ensures Disjoint(parts[g], parts[h])
    {
      PartedDisjoint(parts[g], parts[h], base, names[g], names[h], if names[g][0] != names[h][0] then 0 else 1);
    }
    FlattenNoDup(parts);
    forall g | 0 <= g < 5
      ensures Under(parts[g], base)
    {
      UnderShorter(parts[g], base, names[g]);
    }
    FlattenUnder(parts, base);
    UnderTagged(Flatten(parts), root, i);
  }

  /** A main row beside one indexed family. */
  lemma TwoPartKeys(parts: seq<seq<Item>>, root: string, i: nat, family: string)
    requires |parts| == 2 && |parts[0]| == 1 && |family| > 0 && family[0] != 'm'
    requires parts[0][0].key == root + Decimal(i) + "." + "main"
    requires NoDup(parts[1]) && Under(parts[1], root + Decimal(i) + "." + family)
    ensures NoDup(Flatten(parts)) && AllTagged(Flatten(parts), root, i)
  {
    var base := root + Decimal(i) + ".";
    PartedDisjoint(parts[0], parts[1], base, "main", family, 0);
    FlattenNoDup(parts);
    UnderShorter(parts[0], base, "main");
    UnderShorter(parts[1], base, family);
    FlattenUnder(parts, base);
    UnderTagged(Flatten(parts), root, i);
  }

  lemma TypeLineKeys(root: string, i: nat, line: TypeLine)
    ensures var items := TypeLineItems(root + Decimal(i), line);
      NoDup(items) && AllTagged(items, root, i)
  {
    var key := root + Decimal(i);
    var rest := LineItems("", key + ".locations.", line.locations);
    LineItemsKeys("", key + ".locations.", line.locations);
    assert key + ".locations." == (key + ".") + "locations.";
    UnderShorter(rest, key + ".", "locations.");
    UnderTagged(rest, root, i);
    forall k | 0 <= k < |rest|
      ensures rest[k].key != key
    {
      assert |key + "."| <= |rest[k].key|;
    }
  }

  lemma TypeLinesKeys(root: string, lines: seq<TypeLine>)
    ensures var items := Flatten(TypeLineGroups(root, lines)); NoDup(items) && Under(items, root)
  {
    forall i | 0 <= i < |lines|
      ensures NoDup(TypeLineGroups(root, lines)[i]) && AllTagged(TypeLineGroups(root, lines)[i], root, i)
    {
      TypeLineKeys(root, i, lines[i]);
    }
    IndexedNoDup(TypeLineGroups(root, lines), root);
  }

  function Root(k: nat): string {
    if k == 0 then "events." else if k == 1 then "tv_ads." else if k == 2 then "street_ads."
    else if k == SOCIAL then "social_ads." else if k == 4 then "exhibitions." else "other_costs."
  }

  lemma OccasionsKeys(root: string, fallback: string, os: seq<Occasion>)
    ensures var items := Flatten(OccasionGroups(root, fallback, os)); NoDup(items) && Under(items, root)
  {
    var groups := OccasionGroups(root, fallback, os);
    forall i | 0 <= i < |os|
      ensures NoDup(groups[i]) && AllTagged(groups[i], root, i)
    {
      OccasionKeys(root, i, fallback, os[i]);
    }
    IndexedNoDup(groups, root);
  }

  lemma TvKeys(ads: seq<TvAd>)
    ensures var items := Flatten(TvGroups(ads)); NoDup(items) && Under(items, "tv_ads.")
  {
    forall i | 0 <= i < |ads|
      ensures NoDup(TvGroups(ads)[i]) && AllTagged(TvGroups(ads)[i], "tv_ads.", i)
    {
      var base := "tv_ads." + Decimal(i) + ".";
      LineItemsKeys("Channel: ", base + "channels.", ads[i].channels);
      TwoPartKeys(TvParts(base, ads[i]), "tv_ads.", i, "channels.");
    }
    IndexedNoDup(TvGroups(ads), "tv_ads.");
  }

  lemma StreetKeys(ads: seq<StreetAd>)
    ensures var items := Flatten(StreetGroups(ads)); NoDup(items) && Under(items, "street_ads.")
  {
    forall i | 0 <= i < |ads|
      ensures NoDup(StreetGroups(ads)[i]) && AllTagged(StreetGroups(ads)[i], "street_ads.", i)
    {
      var base := "street_ads." + Decimal(i) + ".";
      TypeLinesKeys(base + "type_lines.", ads[i].lines);
      TwoPartKeys(StreetParts(base, ads[i]), "street_ads.", i, "type_lines.");
    }
    IndexedNoDup(StreetGroups(ads), "street_ads.");
  }

  lemma SocialKeys(ads: seq<SocialAd>)
    ensures var items := Flatten(SocialGroups(ads)); NoDup(items) && Under(items, "social_ads.")
  {
    forall i | 0 <= i < |ads|
      ensures NoDup(SocialGroups(ads)[i]) && AllTagged(SocialGroups(ads)[i], "social_ads.", i)
    {
      var base := "social_ads." + Decimal(i) + ".";
      LineItemsKeys("", base + "platform_lines.", ads[i].platforms);
      TwoPartKeys(SocialParts(base, ads[i]), "social_ads.", i, "platform_lines.");
    }
    IndexedNoDup(SocialGroups(ads), "social_ads.");
  }

  lemma SectionKeys(s: Shape, k: nat)
    requires k < SECTIONS
    ensures NoDup(ItemsOf(s, k)) && Under(ItemsOf(s, k), Root(k))
  {
    if k == 0 {
      OccasionsKeys("events.", "Event", s.events);
    } else if k == 1 {
      TvKeys(s.tvAds);
    } else if k == 2 {
      StreetKeys(s.streetAds);
    } else if k == SOCIAL {
      SocialKeys(s.socialAds);
    } else if k == 4 {
      OccasionsKeys("exhibitions.", "Exhibition", s.exhibitions);
    } else {
      IndexedNoDup(CostGroups(s.otherCosts), "other_costs.");
    }
  }

  lemma RootsPart(g: nat, h: nat)
    requires g < h < SECTIONS
    ensures |Root(g)| > 1 && |Root(h)| > 1
    ensures Root(g)[0] != Root(h)[0] || Root(g)[1] != Root(h)[1]
  {}

  /** No two lines of a campaign, of whatever shape, share a key. */
  lemma KeysDistinct(s: Shape)
    ensures NoDup(AllItems(s))
  {
    var sections := SectionItems(s);
    forall g | 0 <= g < SECTIONS
      ensures NoDup(sections[g]) && Under(sections[g], Root(g))
    {
      SectionKeys(s, g);
    }
    forall g, h | 0 <= g < h < SECTIONS
      ensures Disjoint(sections[g], sections[h])
    {
      var x, y := Root(g), Root(h);
      RootsPart(g, h);
      assert "" + x == x && "" + y == y;
      PartedDisjoint(sections[g], sections[h], "", x, y, if x[0] != y[0] then 0 else 1);
    }
    FlattenNoDup(sections);
  }

  // ---- Subtotals ----

  function Sum(items: seq<Item>): int {
    if items == [] then 0 else Sum(items[..|items| - 1]) + items[|items| - 1].amount
  }

  lemma {:induction false} SumConcat(a: seq<Item>, b: seq<Item>)
    ensures Sum(a + b) == Sum(a) + Sum(b)
  {
    if b == [] {
      assert a + b == a;
    } else {
      SumConcat(a, b[..|b| - 1]);
      assert (a + b)[..|a + b| - 1] == a + b[..|b| - 1];
    }
  }

  lemma FlattenPair(a: seq<Item>, b: seq<Item>)
    ensures Flatten([a, b]) == a + b
  {
    assert [a, b][..1] == [a] && [a][..0] == [];
    assert Flatten([a]) == [] + a;
  }

  lemma {:induction false} FlattenJoin(xs: seq<seq<Item>>, ys: seq<seq<Item>>)
    ensures Flatten(xs + ys) == Flatten(xs) + Flatten(ys)
  {
    if ys == [] {
      assert xs + ys == xs;
    } else {
      FlattenJoin(xs, ys[..|ys| - 1]);
      assert (xs + ys)[..|xs + ys| - 1] == xs + ys[..|ys| - 1];
    }
  }

  /** Groups that sum to the given amounts, or all to twice those. */
  lemma {:induction false} GroupsSum(groups: seq<seq<Item>>, amounts: seq<int>, twice: bool)
    requires |groups| == |amounts|
    requires forall i :: 0 <= i < |groups| ==> Sum(groups[i]) == if twice then 2 * amounts[i] else amounts[i]
    ensures Sum(Flatten(groups)) == if twice then 2 * Total(amounts) else Total(amounts)
  {
    if groups != [] {
      var n := |groups| - 1;
      GroupsSum(groups[..n], amounts[..n], twice);
      SumConcat(Flatten(groups[..n]), groups[n]);
    }
  }

  lemma SumOne(item: Item)
    ensures Sum([item]) == item.amount
  {
    assert [item][..0] == [];
  }

  lemma LineItemsSum(tag: string, root: string, lines: seq<Line>)
    ensures Sum(LineItems(tag, root, lines)) == LineTotal(lines)
  {
    var groups := LineGroups(tag, root, lines);
    forall i | 0 <= i < |lines|
      ensures Sum(groups[i]) == Budgets(lines)[i]
    {
      SumOne(groups[i][0]);
      assert groups[i] == [groups[i][0]];
    }
    GroupsSum(groups, Budgets(lines), false);
  }

  lemma FlattenFive(p: seq<seq<Item>>)
    requires |p| == 5
    ensures Flatten(p) == p[0] + p[1] + p[2] + p[3] + p[4]
  {
    FlattenPair(p[0], p[1]);
    FlattenPair(p[2], p[3]);
    FlattenJoin([p[0], p[1]], [p[2], p[3]]);
    assert p[..4] == [p[0], p[1]] + [p[2], p[3]];
  }

  lemma PairSum(parts: seq<seq<Item>>)
    requires |parts| == 2
    ensures Sum(Flatten(parts)) == Sum(parts[0]) + Sum(parts[1])
  {
    FlattenPair(parts[0], parts[1]);
    assert parts == [parts[0], parts[1]];
    SumConcat(parts[0], parts[1]);
  }

  lemma OccasionSum(base: string, fallback: string, o: Occasion)
    ensures Sum(Flatten(OccasionParts(base, fallback, o))) == OccasionAmount(o)
  {
    FlattenFive(OccasionParts(base, fallback, o));
    SumOne(Item(OrElse(o.name, fallback), o.budget, base + "main"));
    var main := [Item(OrElse(o.name, fallback), o.budget, base + "main")];
    var a := LineItems("Celebrity: ", base + "celebrities.", o.celebrities);
    var b := LineItems("Giveaway: ", base + "giveaways.", o.giveaways);
    var c := LineItems("Catering: ", base + "catering.", o.catering);
    var d := LineItems("Print Out: ", base + "printouts.", o.printouts);
    SumConcat(main, a);
    SumConcat(main + a, b);
    SumConcat(main + a + b, c);
    SumConcat(main + a + b + c, d);
    LineItemsSum("Celebrity: ", base + "celebrities.", o.celebrities);
    LineItemsSum("Giveaway: ", base + "giveaways.", o.giveaways);
    LineItemsSum("Catering: ", base + "catering.", o.catering);
    LineItemsSum("Print Out: ", base + "printouts.", o.printouts);
  }

  lemma OccasionsSum(root: string, fallback: string, os: seq<Occasion>)
    ensures Sum(Flatten(OccasionGroups(root, fallback, os))) == Total(OccasionAmounts(os))
  {
    var groups := OccasionGroups(root, fallback, os);
    forall i | 0 <= i < |os|
      ensures Sum(groups[i]) == OccasionAmounts(os)[i]
    {
      OccasionSum(root + Decimal(i) + ".", fallback, os[i]);
    }
    GroupsSum(groups, OccasionAmounts(os), false);
  }

  lemma TvSum(ads: seq<TvAd>)
    ensures Sum(Flatten(TvGroups(ads))) == Total(TvAmounts(ads))
  {
    forall i | 0 <= i < |ads|
      ensures Sum(TvGroups(ads)[i]) == TvAmounts(ads)[i]
    {
      var base := "tv_ads." + Decimal(i) + ".";
      PairSum(TvParts(base, ads[i]));
      SumOne(TvParts(base, ads[i])[0][0]);
      LineItemsSum("Channel: ", base + "channels.", ads[i].channels);
    }
    GroupsSum(TvGroups(ads), TvAmounts(ads), false);
  }

  lemma TypeLinesSum(root: string, lines: seq<TypeLine>)
    ensures Sum(Flatten(TypeLineGroups(root, lines))) == Total(TypeLineAmounts(lines))
  {
    var groups := TypeLineGroups(root, lines);
    forall i | 0 <= i < |lines|
      ensures Sum(groups[i]) == TypeLineAmounts(lines)[i]
    {
      var key := root + Decimal(i);
      var main := Item(ARROW + lines[i].name, lines[i].budget, key);
      SumOne(main);
      SumConcat([main], LineItems("", key + ".locations.", lines[i].locations));
      LineItemsSum("", key + ".locations.", lines[i].locations);
    }
    GroupsSum(groups, TypeLineAmounts(lines), false);
  }

  lemma StreetSum(ads: seq<StreetAd>)
    ensures Sum(Flatten(StreetGroups(ads))) == Total(StreetAmounts(ads))
  {
    forall i | 0 <= i < |ads|
      ensures Sum(StreetGroups(ads)[i]) == StreetAmounts(ads)[i]
    {
      var base := "street_ads." + Decimal(i) + ".";
      PairSum(StreetParts(base, ads[i]));
      SumOne(StreetParts(base, ads[i])[0][0]);
      TypeLinesSum(base + "type_lines.", ads[i].lines);
    }
    GroupsSum(StreetGroups(ads), StreetAmounts(ads), false);
  }

  lemma SocialSum(ads: seq<SocialAd>)
    ensures Sum(Flatten(SocialGroups(ads))) == 2 * Total(SocialAmounts(ads))
  {
    forall i | 0 <= i < |ads|
      ensures Sum(SocialGroups(ads)[i]) == 2 * SocialAmounts(ads)[i]
    {
      var base := "social_ads." + Decimal(i) + ".";
      PairSum(SocialParts(base, ads[i]));
      SumOne(SocialParts(base, ads[i])[0][0]);
      LineItemsSum("", base + "platform_lines.", ads[i].platforms);
    }
    GroupsSum(SocialGroups(ads), SocialAmounts(ads), true);
  }

  lemma CostsSum(costs: seq<Line>)
    ensures Sum(Flatten(CostGroups(costs))) == LineTotal(costs)
  {
    forall i | 0 <= i < |costs|
      ensures Sum(CostGroups(costs)[i]) == Budgets(costs)[i]
    {
      SumOne(CostGroups(costs)[i][0]);
      assert CostGroups(costs)[i] == [CostGroups(costs)[i][0]];
    }
    GroupsSum(CostGroups(costs), Budgets(costs), false);
  }

  /** The items of section `k` sum to its subtotal, twice so for social media. */
  lemma SectionSum(s: Shape, k: nat)
    requires k < SECTIONS
    ensures Sum(ItemsOf(s, k)) == if k == SOCIAL then 2 * SubtotalOf(s, k) else SubtotalOf(s, k)
  {
    if k == 0 {
      OccasionsSum("events.", "Event", s.events);
    } else if k == 1 {
      TvSum(s.tvAds);
    } else if k == 2 {
      StreetSum(s.streetAds);
    } else if k == 3 {
      SocialSum(s.socialAds);
    } else if k == 4 {
      OccasionsSum("exhibitions.", "Exhibition", s.exhibitions);
    } else {
      CostsSum(s.otherCosts);
    }
  }

  predicate Adds(section: Section) {
    Sum(section.items) == if section.caption == Caption(SOCIAL) then 2 * section.subtotal else section.subtotal
  }

  lemma {:induction false} SectionsAdd(items: seq<seq<Item>>, subtotals: seq<int>, k: nat)
    requires k <= |items| == |subtotals| == SECTIONS
    requires forall i :: 0 <= i < SECTIONS ==> Sum(items[i]) == if i == SOCIAL then 2 * subtotals[i] else subtotals[i]
    ensures forall section :: section in Sections(items, subtotals, k) ==> Adds(section)
  {
    if k > 0 {
      SectionsAdd(items, subtotals, k - 1);
      CaptionsDiffer(k - 1);
    }
  }

  /** Each section's subtotal is the sum of its items, except that the social
      media items sum to twice the subtotal. */
  lemma SubtotalsMatch(s: Shape)
    ensures forall section :: section in BreakdownOf(s) ==> Adds(section)
  {
    forall i | 0 <= i < SECTIONS
      ensures Sum(SectionItems(s)[i]) == if i == SOCIAL then 2 * SubtotalSeq(s)[i] else SubtotalSeq(s)[i]
    {
      SectionSum(s, i);
    }
    SectionsAdd(SectionItems(s), SubtotalSeq(s), SECTIONS);
  }

  lemma CaptionsDiffer(k: nat)
    requires k < SECTIONS
    ensures Caption(k) == Caption(SOCIAL) <==> k == SOCIAL
  {
    assert k != SOCIAL ==> Caption(k)[1] != Caption(SOCIAL)[1];
  }
}
