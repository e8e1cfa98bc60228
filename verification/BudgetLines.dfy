/** The budget lines of a campaign named by their place in it, and the keys the
    breakdown gives them (apps/finance/services.py). */
module BudgetLines {
  import opened Text
  import opened Finance
  import opened Approvals

  datatype Family = CELEBRITIES | GIVEAWAYS | CATERING | PRINTOUTS

  /** A line's place: which entry of which list, and below it. */
  datatype Place =
    | EventPlace(i: nat)
    | EventLine(i: nat, family: Family, j: nat)
    | ExhibitionPlace(i: nat)
    | ExhibitionLine(i: nat, family: Family, j: nat)
    | TvPlace(i: nat)
    | TvChannel(i: nat, j: nat)
    | StreetPlace(i: nat)
    | StreetType(i: nat, j: nat)
    | StreetLocation(i: nat, j: nat, k: nat)
    | SocialPlace(i: nat)
    | SocialPlatform(i: nat, j: nat)
    | CostPlace(i: nat)

  function FamilyLines(o: Occasion, family: Family): seq<Line> {
    match family
    case CELEBRITIES => o.celebrities
    case GIVEAWAYS => o.giveaways
    case CATERING => o.catering
    case PRINTOUTS => o.printouts
  }

  function FamilyRoot(family: Family): string {
    match family
    case CELEBRITIES => "celebrities."
    case GIVEAWAYS => "giveaways."
    case CATERING => "catering."
    case PRINTOUTS => "printouts."
  }

  predicate OccasionHas(os: seq<Occasion>, i: nat, family: Family, j: nat) {
    i < |os| && j < |FamilyLines(os[i], family)|
  }

  /** The campaign has a line there. */
  predicate Exists(s: Shape, p: Place) {
    match p
    case EventPlace(i) => i < |s.events|
    case EventLine(i, family, j) => OccasionHas(s.events, i, family, j)
    case ExhibitionPlace(i) => i < |s.exhibitions|
    case ExhibitionLine(i, family, j) => OccasionHas(s.exhibitions, i, family, j)
    case TvPlace(i) => i < |s.tvAds|
    case TvChannel(i, j) => i < |s.tvAds| && j < |s.tvAds[i].channels|
    case StreetPlace(i) => i < |s.streetAds|
    case StreetType(i, j) => i < |s.streetAds| && j < |s.streetAds[i].lines|
    case StreetLocation(i, j, k) =>
      i < |s.streetAds| && j < |s.streetAds[i].lines| && k < |s.streetAds[i].lines[j].locations|
    case SocialPlace(i) => i < |s.socialAds|
    case SocialPlatform(i, j) => i < |s.socialAds| && j < |s.socialAds[i].platforms|
    case CostPlace(i) => i < |s.otherCosts|
  }

  /** The money entered there; a social ad itself has the sum of its platforms. */
  function AmountAt(s: Shape, p: Place): int
    requires Exists(s, p)
  {
    match p
    case EventPlace(i) => s.events[i].budget
    case EventLine(i, family, j) => FamilyLines(s.events[i], family)[j].budget
    case ExhibitionPlace(i) => s.exhibitions[i].budget
    case ExhibitionLine(i, family, j) => FamilyLines(s.exhibitions[i], family)[j].budget
    case TvPlace(i) => s.tvAds[i].budget
    case TvChannel(i, j) => s.tvAds[i].channels[j].budget
    case StreetPlace(i) => s.streetAds[i].budget
    case StreetType(i, j) => s.streetAds[i].lines[j].budget
    case StreetLocation(i, j, k) => s.streetAds[i].lines[j].locations[k].budget
    case SocialPlace(i) => LineTotal(s.socialAds[i].platforms)
    case SocialPlatform(i, j) => s.socialAds[i].platforms[j].budget
    case CostPlace(i) => s.otherCosts[i].budget
  }

  function Base(root: string, i: nat): string {
    root + Decimal(i) + "."
  }

  function KeyAt(p: Place): string {
    match p
    case EventPlace(i) => Base("events.", i) + "main"
    case EventLine(i, family, j) => Base("events.", i) + FamilyRoot(family) + Decimal(j)
    case ExhibitionPlace(i) => Base("exhibitions.", i) + "main"
    case ExhibitionLine(i, family, j) => Base("exhibitions.", i) + FamilyRoot(family) + Decimal(j)
    case TvPlace(i) => Base("tv_ads.", i) + "main"
    case TvChannel(i, j) => Base("tv_ads.", i) + "channels." + Decimal(j)
    case StreetPlace(i) => Base("street_ads.", i) + "main"
    case StreetType(i, j) => Base("street_ads.", i) + "type_lines." + Decimal(j)
    case StreetLocation(i, j, k) =>
      Base("street_ads.", i) + "type_lines." + Decimal(j) + ".locations." + Decimal(k)
    case SocialPlace(i) => Base("social_ads.", i) + "main"
    case SocialPlatform(i, j) => Base("social_ads.", i) + "platform_lines." + Decimal(j)
    case CostPlace(i) => "other_costs." + Decimal(i)
  }

  /** What a line is called: entries by their name, or what they are if they
      have none; the lines below them behind an arrow and their kind. */
  function CaptionAt(s: Shape, p: Place): string
    requires Exists(s, p)
  {
    match p
    case EventPlace(i) => OrElse(s.events[i].name, "Event")
    case EventLine(i, family, j) => ARROW + FamilyTag(family) + FamilyLines(s.events[i], family)[j].name
    case ExhibitionPlace(i) => OrElse(s.exhibitions[i].name, "Exhibition")
    case ExhibitionLine(i, family, j) => ARROW + FamilyTag(family) + FamilyLines(s.exhibitions[i], family)[j].name
    case TvPlace(i) => OrElse(s.tvAds[i].name, "TV Ad")
    case TvChannel(i, j) => ARROW + "Channel: " + s.tvAds[i].channels[j].name
    case StreetPlace(i) => OrElse(s.streetAds[i].name, "Street Ad")
    case StreetType(i, j) => ARROW + s.streetAds[i].lines[j].name
    case StreetLocation(i, j, k) => ARROW + s.streetAds[i].lines[j].locations[k].name
    case SocialPlace(i) => OrElse(s.socialAds[i].name, "Social Ad")
    case SocialPlatform(i, j) => ARROW + s.socialAds[i].platforms[j].name
    case CostPlace(i) => OrElse(s.otherCosts[i].name, "Other")
  }

  function ItemAt(s: Shape, p: Place): Item
    requires Exists(s, p)
  {
    Item(CaptionAt(s, p), AmountAt(s, p), KeyAt(p))
  }

  // ---- Every line is listed ----

  lemma {:induction false} FlattenLists(groups: seq<seq<Item>>, g: nat, item: Item)
    requires g < |groups| && item in groups[g]
    ensures item in Flatten(groups)
  {
    var n := |groups| - 1;
    if g < n {
      FlattenLists(groups[..n], g, item);
    }
  }

  lemma LineListed(tag: string, root: string, lines: seq<Line>, j: nat)
    requires j < |lines|
    ensures Item(ARROW + tag + lines[j].name, lines[j].budget, root + Decimal(j)) in LineItems(tag, root, lines)
  {
    var groups := LineGroups(tag, root, lines);
    assert groups[j][0] == Item(ARROW + tag + lines[j].name, lines[j].budget, root + Decimal(j));
    FlattenLists(groups, j, groups[j][0]);
  }

  function FamilyPart(family: Family): nat {
    match family
    case CELEBRITIES => 1
    case GIVEAWAYS => 2
    case CATERING => 3
    case PRINTOUTS => 4
  }

  function FamilyTag(family: Family): string {
    match family
    case CELEBRITIES => "Celebrity: "
    case GIVEAWAYS => "Giveaway: "
    case CATERING => "Catering: "
    case PRINTOUTS => "Print Out: "
  }

  lemma FamilyParts(base: string, fallback: string, o: Occasion, family: Family)
    ensures OccasionParts(base, fallback, o)[FamilyPart(family)]
      == LineItems(FamilyTag(family), base + FamilyRoot(family), FamilyLines(o, family))
  {}

  lemma OccasionListed(root: string, fallback: string, os: seq<Occasion>, i: nat)
    requires i < |os|
    ensures Item(OrElse(os[i].name, fallback), os[i].budget, Base(root, i) + "main")
      in Flatten(OccasionGroups(root, fallback, os))
  {
    var parts: seq<seq<Item>> := OccasionParts(Base(root, i), fallback, os[i]);
    PairListed(parts, OccasionGroups(root, fallback, os), i, 0, parts[0][0]);
  }

  lemma OccasionLineListed(root: string, fallback: string, os: seq<Occasion>, i: nat, family: Family, j: nat)
    requires OccasionHas(os, i, family, j)
    ensures var line := FamilyLines(os[i], family)[j];
      Item(ARROW + FamilyTag(family) + line.name, line.budget, Base(root, i) + FamilyRoot(family) + Decimal(j))
      in Flatten(OccasionGroups(root, fallback, os))
  {
    var parts := OccasionParts(Base(root, i), fallback, os[i]);
    var lines := FamilyLines(os[i], family);
    LineListed(FamilyTag(family), Base(root, i) + FamilyRoot(family), lines, j);
    FamilyParts(Base(root, i), fallback, os[i], family);
    var key := Base(root, i) + FamilyRoot(family) + Decimal(j);
    PairListed(parts, OccasionGroups(root, fallback, os), i, FamilyPart(family),
      Item(ARROW + FamilyTag(family) + lines[j].name, lines[j].budget, key));
  }

  /** A row followed by the lines below it, the shape of all occasions and ads. */
  lemma PairListed(parts: seq<seq<Item>>, groups: seq<seq<Item>>, i: nat, h: nat, item: Item)
    requires i < |groups| && groups[i] == Flatten(parts) && h < |parts| && item in parts[h]
    ensures item in Flatten(groups)
  {
    FlattenLists(parts, h, item);
    FlattenLists(groups, i, item);
  }

  lemma TvListed(s: Shape, p: Place)
    requires (p.TvPlace? || p.TvChannel?) && Exists(s, p)
    ensures ItemAt(s, p) in Flatten(TvGroups(s.tvAds))
  {
    var base := Base("tv_ads.", p.i);
    var parts: seq<seq<Item>> := TvParts(base, s.tvAds[p.i]);
    if p.TvPlace? {
      assert parts[0][0] == ItemAt(s, p);
      PairListed(parts, TvGroups(s.tvAds), p.i, 0, ItemAt(s, p));
    } else {
      LineListed("Channel: ", base + "channels.", s.tvAds[p.i].channels, p.j);
      PairListed(parts, TvGroups(s.tvAds), p.i, 1, ItemAt(s, p));
    }
  }

  lemma SocialListed(s: Shape, p: Place)
    requires (p.SocialPlace? || p.SocialPlatform?) && Exists(s, p)
    ensures ItemAt(s, p) in Flatten(SocialGroups(s.socialAds))
  {
    var base := Base("social_ads.", p.i);
    var parts: seq<seq<Item>> := SocialParts(base, s.socialAds[p.i]);
    if p.SocialPlace? {
      assert parts[0][0] == ItemAt(s, p);
      PairListed(parts, SocialGroups(s.socialAds), p.i, 0, ItemAt(s, p));
    } else {
      LineListed("", base + "platform_lines.", s.socialAds[p.i].platforms, p.j);
      assert ARROW + "" == ARROW;
      PairListed(parts, SocialGroups(s.socialAds), p.i, 1, ItemAt(s, p));
    }
  }

  lemma TypeLineListed(root: string, lines: seq<TypeLine>, j: nat)
    requires j < |lines|
    ensures Item(ARROW + lines[j].name, lines[j].budget, root + Decimal(j)) in Flatten(TypeLineGroups(root, lines))
  {
    var items := TypeLineItems(root + Decimal(j), lines[j]);
    assert items[0] == Item(ARROW + lines[j].name, lines[j].budget, root + Decimal(j));
    FlattenLists(TypeLineGroups(root, lines), j, items[0]);
  }

  lemma LocationListed(root: string, lines: seq<TypeLine>, j: nat, k: nat)
    requires j < |lines| && k < |lines[j].locations|
    ensures Item(ARROW + lines[j].locations[k].name, lines[j].locations[k].budget,
              root + Decimal(j) + ".locations." + Decimal(k)) in Flatten(TypeLineGroups(root, lines))
  {
    var below := root + Decimal(j) + ".locations.";
    var line := lines[j].locations[k];
    LineListed("", below, lines[j].locations, k);
    assert ARROW + "" == ARROW;
    FlattenLists(TypeLineGroups(root, lines), j, Item(ARROW + line.name, line.budget, below + Decimal(k)));
  }

  lemma StreetListed(s: Shape, p: Place)
    requires (p.StreetPlace? || p.StreetType? || p.StreetLocation?) && Exists(s, p)
    ensures ItemAt(s, p) in Flatten(StreetGroups(s.streetAds))
  {
    var base := Base("street_ads.", p.i);
    var ad := s.streetAds[p.i];
    var parts: seq<seq<Item>> := StreetParts(base, ad);
    match p {
      case StreetPlace(i) =>
        assert parts[0][0] == ItemAt(s, p);
      case StreetType(i, j) =>
        TypeLineListed(base + "type_lines.", ad.lines, j);
      case StreetLocation(i, j, k) =>
        LocationListed(base + "type_lines.", ad.lines, j, k);
    }
    PairListed(parts, StreetGroups(s.streetAds), p.i, if p.StreetPlace? then 0 else 1, ItemAt(s, p));
  }

  lemma CostListed(s: Shape, i: nat)
    requires i < |s.otherCosts|
    ensures ItemAt(s, CostPlace(i)) in Flatten(CostGroups(s.otherCosts))
  {
    var groups := CostGroups(s.otherCosts);
    assert groups[i][0] == ItemAt(s, CostPlace(i));
    FlattenLists(groups, i, groups[i][0]);
  }

  function SectionOf(p: Place): (k: nat)
    ensures k < SECTIONS
  {
    if p.EventPlace? || p.EventLine? then 0
    else if p.TvPlace? || p.TvChannel? then 1
    else if p.StreetPlace? || p.StreetType? || p.StreetLocation? then 2
    else if p.SocialPlace? || p.SocialPlatform? then SOCIAL
    else if p.ExhibitionPlace? || p.ExhibitionLine? then 4
    else 5
  }

  lemma EventListed(s: Shape, p: Place)
    requires (p.EventPlace? || p.EventLine?) && Exists(s, p)
    ensures ItemAt(s, p) in Flatten(OccasionGroups("events.", "Event", s.events))
  {
    if p.EventPlace? {
      OccasionListed("events.", "Event", s.events, p.i);
    } else {
      OccasionLineListed("events.", "Event", s.events, p.i, p.family, p.j);
    }
  }

  lemma ExhibitionListed(s: Shape, p: Place)
    requires (p.ExhibitionPlace? || p.ExhibitionLine?) && Exists(s, p)
    ensures ItemAt(s, p) in Flatten(OccasionGroups("exhibitions.", "Exhibition", s.exhibitions))
  {
    if p.ExhibitionPlace? {
      OccasionListed("exhibitions.", "Exhibition", s.exhibitions, p.i);
    } else {
      OccasionLineListed("exhibitions.", "Exhibition", s.exhibitions, p.i, p.family, p.j);
    }
  }

  /** Each line stands in its section with its own caption, amount and key. */
  lemma LineInSection(s: Shape, p: Place)
    requires Exists(s, p)
    ensures ItemAt(s, p) in ItemsOf(s, SectionOf(p))
  {
    match SectionOf(p) {
      case 0 => EventListed(s, p);
      case 1 => TvListed(s, p);
      case 2 => StreetListed(s, p);
      case 3 => SocialListed(s, p);
      case 4 => ExhibitionListed(s, p);
      case _ => CostListed(s, p.i);
    }
  }

  /** The heading a line is shown under. */
  function Heading(p: Place): string {
    match p
    case EventPlace(_) => "Events"
    case EventLine(_, _, _) => "Events"
    case TvPlace(_) => "TV Ads"
    case TvChannel(_, _) => "TV Ads"
    case StreetPlace(_) => "Street Ads"
    case StreetType(_, _) => "Street Ads"
    case StreetLocation(_, _, _) => "Street Ads"
    case SocialPlace(_) => "Social Media"
    case SocialPlatform(_, _) => "Social Media"
    case ExhibitionPlace(_) => "Exhibition"
    case ExhibitionLine(_, _, _) => "Exhibition"
    case CostPlace(_) => "Other Costs"
  }

  lemma {:induction false} SectionShown(items: seq<seq<Item>>, subtotals: seq<int>, k: nat, bound: nat,
                                        section: Section)
    requires k < bound <= |items| == |subtotals| && items[k] != []
    requires section == Section(Caption(k), items[k], subtotals[k])
    ensures section in Sections(items, subtotals, bound)
  {
    var front := Sections(items, subtotals, bound - 1);
    var last := SectionIf(Caption(bound - 1), items[bound - 1], subtotals[bound - 1]);
    if k < bound - 1 {
      SectionShown(items, subtotals, k, bound - 1, section);
    } else {
      assert last == [section];
    }
    assert section in front + last;
  }

  lemma SectionListed(s: Shape, k: nat)
    requires k < SECTIONS && ItemsOf(s, k) != []
    ensures Section(Caption(k), ItemsOf(s, k), SubtotalOf(s, k)) in BreakdownOf(s)
  {
    SectionShown(SectionItems(s), SubtotalSeq(s), k, SECTIONS, Section(Caption(k), ItemsOf(s, k), SubtotalOf(s, k)));
  }

  lemma HeadingOfSection(p: Place)
    ensures Caption(SectionOf(p)) == Heading(p)
  {}

  predicate Shows(section: Section, caption: string, item: Item) {
    section.caption == caption && item in section.items
  }

  /** Every line is shown in the breakdown, in the section of its heading. */
  lemma LineInBreakdown(s: Shape, p: Place)
    requires Exists(s, p)
    ensures exists section :: section in BreakdownOf(s) && Shows(section, Heading(p), ItemAt(s, p))
  {
    LineInSection(s, p);
    HeadingOfSection(p);
    var item, k := ItemAt(s, p), SectionOf(p);
    SectionListed(s, k);
    assert Shows(Section(Caption(k), ItemsOf(s, k), SubtotalOf(s, k)), Heading(p), item);
  }

  // ---- Nothing else is listed ----

  lemma LineOf(tag: string, root: string, lines: seq<Line>, n: nat) returns (j: nat)
    requires n < |LineItems(tag, root, lines)|
    ensures j < |lines| && LineItems(tag, root, lines)[n].key == root + Decimal(j)
  {
    var i;
    j, i := FlattenMember(LineGroups(tag, root, lines), n);
  }

  function LineKey(base: string, line: Option<(Family, nat)>): string {
    match line
    case None => base + "main"
    case Some((family, j)) => base + FamilyRoot(family) + Decimal(j)
  }

  /** None stands for the occasion's own row. */
  lemma OccasionLineOf(base: string, fallback: string, o: Occasion, n: nat) returns (line: Option<(Family, nat)>)
    requires n < |Flatten(OccasionParts(base, fallback, o))|
    ensures line.Some? ==> line.value.1 < |FamilyLines(o, line.value.0)|
    ensures Flatten(OccasionParts(base, fallback, o))[n].key == LineKey(base, line)
  {
    var part, at := FlattenMember(OccasionParts(base, fallback, o), n);
    if part == 0 {
      line := None;
    } else {
      var family := match part case 1 => CELEBRITIES case 2 => GIVEAWAYS case 3 => CATERING case _ => PRINTOUTS;
      FamilyParts(base, fallback, o, family);
      var j := LineOf(FamilyTag(family), base + FamilyRoot(family), FamilyLines(o, family), at);
      line := Some((family, j));
    }
  }

  lemma OccasionOf(root: string, fallback: string, os: seq<Occasion>, n: nat)
    returns (i: nat, line: Option<(Family, nat)>)
    requires n < |Flatten(OccasionGroups(root, fallback, os))|
    ensures i < |os| && (line.Some? ==> OccasionHas(os, i, line.value.0, line.value.1))
    ensures Flatten(OccasionGroups(root, fallback, os))[n].key == LineKey(Base(root, i), line)
  {
    var m;
    i, m := FlattenMember(OccasionGroups(root, fallback, os), n);
    line := OccasionLineOf(Base(root, i), fallback, os[i], m);
  }

  lemma TvOf(s: Shape, n: nat) returns (p: Place)
    requires n < |Flatten(TvGroups(s.tvAds))|
    ensures Exists(s, p) && KeyAt(p) == Flatten(TvGroups(s.tvAds))[n].key
  {
    var i, m := FlattenMember(TvGroups(s.tvAds), n);
    var base := Base("tv_ads.", i);
    var part, at := FlattenMember(TvParts(base, s.tvAds[i]), m);
    if part == 0 {
      p := TvPlace(i);
    } else {
      var j := LineOf("Channel: ", base + "channels.", s.tvAds[i].channels, at);
      p := TvChannel(i, j);
    }
  }

  lemma SocialOf(s: Shape, n: nat) returns (p: Place)
    requires n < |Flatten(SocialGroups(s.socialAds))|
    ensures Exists(s, p) && KeyAt(p) == Flatten(SocialGroups(s.socialAds))[n].key
  {
    var i, m := FlattenMember(SocialGroups(s.socialAds), n);
    var base := Base("social_ads.", i);
    var part, at := FlattenMember(SocialParts(base, s.socialAds[i]), m);
    if part == 0 {
      p := SocialPlace(i);
    } else {
      var j := LineOf("", base + "platform_lines.", s.socialAds[i].platforms, at);
      p := SocialPlatform(i, j);
    }
  }

  lemma TypeLineOf(root: string, lines: seq<TypeLine>, n: nat) returns (j: nat, location: Option<nat>)
    requires n < |Flatten(TypeLineGroups(root, lines))|
    ensures j < |lines| && (location.Some? ==> location.value < |lines[j].locations|)
    ensures Flatten(TypeLineGroups(root, lines))[n].key
      == if location.Some? then root + Decimal(j) + ".locations." + Decimal(location.value) else root + Decimal(j)
  {
    var m;
    j, m := FlattenMember(TypeLineGroups(root, lines), n);
    location := None;
    if m > 0 {
      var k := LineOf("", root + Decimal(j) + ".locations.", lines[j].locations, m - 1);
      location := Some(k);
    }
  }

  lemma StreetOf(s: Shape, n: nat) returns (p: Place)
    requires n < |Flatten(StreetGroups(s.streetAds))|
    ensures Exists(s, p) && KeyAt(p) == Flatten(StreetGroups(s.streetAds))[n].key
  {
    var i, m := FlattenMember(StreetGroups(s.streetAds), n);
    var base := Base("street_ads.", i);
    var part, at := FlattenMember(StreetParts(base, s.streetAds[i]), m);
    if part == 0 {
      p := StreetPlace(i);
    } else {
      var j, location := TypeLineOf(base + "type_lines.", s.streetAds[i].lines, at);
      p := if location.Some? then StreetLocation(i, j, location.value) else StreetType(i, j);
    }
  }

  lemma ItemInSection(s: Shape, k: nat, n: nat) returns (p: Place)
    requires k < SECTIONS && n < |ItemsOf(s, k)|
    ensures Exists(s, p) && KeyAt(p) == ItemsOf(s, k)[n].key
  {
    match k {
      case 0 =>
        var i, line := OccasionOf("events.", "Event", s.events, n);
        p := if line.Some? then EventLine(i, line.value.0, line.value.1) else EventPlace(i);
      case 1 => p := TvOf(s, n);
      case 2 => p := StreetOf(s, n);
      case 3 => p := SocialOf(s, n);
      case 4 =>
        var i, line := OccasionOf("exhibitions.", "Exhibition", s.exhibitions, n);
        p := if line.Some? then ExhibitionLine(i, line.value.0, line.value.1) else ExhibitionPlace(i);
      case _ =>
        var i, _ := FlattenMember(CostGroups(s.otherCosts), n);
        p := CostPlace(i);
    }
  }

  /** The dictionary's keys are exactly the keys of the campaign's lines. */
  lemma KeysAreLines(s: Shape, key: string)
    ensures key in AmountByKey(AllItems(s)) <==> exists p :: Exists(s, p) && KeyAt(p) == key
  {
    if key in AmountByKey(AllItems(s)) {
      AmountByKeyKeys(AllItems(s));
      KeysExact(AllItems(s), key);
      var n :| 0 <= n < |AllItems(s)| && AllItems(s)[n].key == key;
      var k, m := FlattenMember(SectionItems(s), n);
      var p := ItemInSection(s, k, m);
    }
    forall p | Exists(s, p) && KeyAt(p) == key
      ensures key in AmountByKey(AllItems(s))
    {
      LookupFindsAmount(s, p);
    }
  }

  /** Looking up a line's key finds that line's amount, for any campaign. */
  lemma LookupFindsAmount(s: Shape, p: Place)
    requires Exists(s, p)
    ensures KeyAt(p) in AmountByKey(AllItems(s)) && AmountByKey(AllItems(s))[KeyAt(p)] == AmountAt(s, p)
  {
    LineInSection(s, p);
    FlattenLists(SectionItems(s), SectionOf(p), ItemAt(s, p));
    var items := AllItems(s);
    var n :| 0 <= n < |items| && items[n] == ItemAt(s, p);
    KeysDistinct(s);
    AmountByKeyHolds(items, n);
  }

  /** Rejecting one more line takes exactly that line's money off. */
  lemma RejectingCostsTheLine(c: Campaign, p: Place)
    requires c.status == SEMI_APPROVED && Exists(c.shape, p) && KeyAt(p) !in c.rejected
    ensures ApprovedBudget(c.(rejected := c.rejected + {KeyAt(p)})) == ApprovedBudget(c) - AmountAt(c.shape, p)
  {
    var more := c.rejected + {KeyAt(p)};
    LookupFindsAmount(c.shape, p);
    KeysDistinct(c.shape);
    RejectOneLess(AllItems(c.shape), more, KeyAt(p));
    assert more - {KeyAt(p)} == c.rejected;
  }
}
