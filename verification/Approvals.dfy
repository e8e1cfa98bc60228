/** What finance has approved, and the loops that build the breakdown
    (apps/finance/services.py). */
module Approvals {
  import opened Text
  import opened Finance

  /** The amounts of the lines whose key is rejected. */
  function RejectedSum(items: seq<Item>, rejected: set<string>): int {
    if items == [] then 0
    else
      var n := |items| - 1;
      RejectedSum(items[..n], rejected) + (if items[n].key in rejected then items[n].amount else 0)
  }

  function ApprovedBudget(c: Campaign): int {
    match c.status
    case APPROVED => c.total
    case SEMI_APPROVED => c.total - RejectedSum(AllItems(c.shape), c.rejected)
    case _ => 0
  }

  /** `amount_by_key`: a later line would overwrite an earlier one of its key. */
  function AmountByKey(items: seq<Item>): map<string, int> {
    if items == [] then map[]
    else
      var n := |items| - 1;
      AmountByKey(items[..n])[items[n].key := items[n].amount]
  }

  function Keys(items: seq<Item>): set<string> {
    if items == [] then {} else Keys(items[..|items| - 1]) + {items[|items| - 1].key}
  }

  lemma {:induction false} KeysExact(items: seq<Item>, key: string)
    ensures key in Keys(items) <==> exists i :: 0 <= i < |items| && items[i].key == key
  {
    if items != [] {
      var n := |items| - 1;
      KeysExact(items[..n], key);
      if i :| 0 <= i < |items| && items[i].key == key {
        assert i < n ==> items[..n][i].key == key;
      }
    }
  }

  lemma LastKeyNew(items: seq<Item>)
    requires NoDup(items) && items != []
    ensures NoDup(items[..|items| - 1]) && items[|items| - 1].key !in Keys(items[..|items| - 1])
  {
    KeysExact(items[..|items| - 1], items[|items| - 1].key);
  }

  lemma {:induction false} AmountByKeyKeys(items: seq<Item>)
    ensures AmountByKey(items).Keys == Keys(items)
  {
    if items != [] {
      AmountByKeyKeys(items[..|items| - 1]);
    }
  }

  lemma {:induction false} AmountByKeySize(items: seq<Item>)
    requires NoDup(items)
    ensures |AmountByKey(items)| == |items|
  {
    if items != [] {
      AmountByKeySize(items[..|items| - 1]);
      AmountByKeyKeys(items[..|items| - 1]);
      LastKeyNew(items);
    }
  }

  lemma {:induction false} AmountByKeyHolds(items: seq<Item>, i: nat)
    requires NoDup(items) && i < |items|
    ensures items[i].key in AmountByKey(items) && AmountByKey(items)[items[i].key] == items[i].amount
  {
    var n := |items| - 1;
    if i < n {
      AmountByKeyHolds(items[..n], i);
      assert items[i].key != items[n].key;
    }
  }

  /** The breakdown of any campaign fills the dictionary without losing a line. */
  lemma NoLineLost(s: Shape)
    ensures |AmountByKey(AllItems(s))| == |AllItems(s)|
    ensures forall i :: 0 <= i < |AllItems(s)| ==>
      AllItems(s)[i].key in AmountByKey(AllItems(s)) && AmountByKey(AllItems(s))[AllItems(s)[i].key]
        == AllItems(s)[i].amount
  {
    KeysDistinct(s);
    AmountByKeySize(AllItems(s));
    forall i | 0 <= i < |AllItems(s)|
      ensures AllItems(s)[i].key in AmountByKey(AllItems(s)) && AmountByKey(AllItems(s))[AllItems(s)[i].key]
        == AllItems(s)[i].amount
    {
      AmountByKeyHolds(AllItems(s), i);
    }
  }

  // ---- What each status approves ----

  /** Approved: everything, whatever is rejected. Pending or not approved:
      nothing. Semi-approved with no line of the campaign rejected: everything. */
  lemma StatusDecides(c: Campaign)
    ensures c.status == APPROVED ==> ApprovedBudget(c) == c.total
    ensures c.status == PENDING || c.status == NOT_APPROVED ==> ApprovedBudget(c) == 0
    ensures c.status == SEMI_APPROVED && c.rejected !! Keys(AllItems(c.shape)) ==> ApprovedBudget(c) == c.total
  {
    if c.rejected !! Keys(AllItems(c.shape)) {
      forall i | 0 <= i < |AllItems(c.shape)|
        ensures AllItems(c.shape)[i].key !in c.rejected
      {
        KeysExact(AllItems(c.shape), AllItems(c.shape)[i].key);
      }
      NothingRejected(AllItems(c.shape), c.rejected);
    }
  }

  /** Whatever the status, no more is approved than the campaign costs. */
  lemma NeverMoreThanTotal(c: Campaign)
    requires NonNegative(AllItems(c.shape)) && c.total == Subtotals(c.shape)
    ensures ApprovedBudget(c) <= c.total && 0 <= c.total
  {
    RejectingMoreCostsMore(AllItems(c.shape), c.rejected, c.rejected);
    ApprovalWithinTotal(Campaign(c.shape, c.total, SEMI_APPROVED, {}));
  }

  // ---- Arithmetic of rejection ----

  predicate NonNegative(items: seq<Item>) {
    forall i :: 0 <= i < |items| ==> items[i].amount >= 0
  }

  lemma {:induction false} RejectingMoreCostsMore(items: seq<Item>, a: set<string>, b: set<string>)
    requires NonNegative(items) && a <= b
    ensures 0 <= RejectedSum(items, a) <= RejectedSum(items, b) <= Sum(items)
  {
    if items != [] {
      RejectingMoreCostsMore(items[..|items| - 1], a, b);
    }
  }

  /** Semi-approval is antitone in the rejected keys. */
  lemma ApprovalAntitone(c: Campaign, more: set<string>)
    requires c.status == SEMI_APPROVED && NonNegative(AllItems(c.shape)) && c.rejected <= more
    ensures ApprovedBudget(c.(rejected := more)) <= ApprovedBudget(c)
  {
    RejectingMoreCostsMore(AllItems(c.shape), c.rejected, more);
  }

  lemma {:induction false} UnknownKeysIgnored(items: seq<Item>, rejected: set<string>, keys: set<string>)
    requires Keys(items) <= keys
    ensures RejectedSum(items, rejected) == RejectedSum(items, rejected * keys)
  {
    if items != [] {
      UnknownKeysIgnored(items[..|items| - 1], rejected, keys);
    }
  }

  /** Keys that name no line have no effect. */
  lemma UnknownKeysHaveNoEffect(c: Campaign)
    ensures ApprovedBudget(c) == ApprovedBudget(c.(rejected := c.rejected * Keys(AllItems(c.shape))))
  {
    UnknownKeysIgnored(AllItems(c.shape), c.rejected, Keys(AllItems(c.shape)));
  }

  lemma {:induction false} RejectedConcat(a: seq<Item>, b: seq<Item>, rejected: set<string>)
    ensures RejectedSum(a + b, rejected) == RejectedSum(a, rejected) + RejectedSum(b, rejected)
  {
    if b == [] {
      assert a + b == a;
    } else {
      RejectedConcat(a, b[..|b| - 1], rejected);
      assert (a + b)[..|a + b| - 1] == a + b[..|b| - 1];
    }
  }

  function AdKey(i: nat): string {
    "social_ads." + Decimal(i) + "."
  }

  /** What is deducted twice: the rejected platform lines of ads whose own row
      is rejected too. */
  function Overlap(ads: seq<SocialAd>, rejected: set<string>): int {
    if ads == [] then 0
    else
      var n := |ads| - 1;
      Overlap(ads[..n], rejected) +
      (if AdKey(n) + "main" in rejected
       then RejectedSum(LineItems("", AdKey(n) + "platform_lines.", ads[n].platforms), rejected) else 0)
  }

  lemma {:induction false} FlattenedNonNegative(groups: seq<seq<Item>>, g: nat)
    requires NonNegative(Flatten(groups)) && g < |groups|
    ensures NonNegative(groups[g])
  {
    var n := |groups| - 1;
    var front := Flatten(groups[..n]);
    assert Flatten(groups) == front + groups[n];
    if g < n {
      assert NonNegative(front) by {
        forall i | 0 <= i < |front|
          ensures front[i].amount >= 0
        {
          assert Flatten(groups)[i] == front[i];
        }
      }
      FlattenedNonNegative(groups[..n], g);
    } else {
      forall i | 0 <= i < |groups[n]|
        ensures groups[n][i].amount >= 0
      {
        assert Flatten(groups)[|front| + i] == groups[n][i];
      }
    }
  }

  /** One ad: its own row and its platform lines carry the same money. */
  lemma AdRejection(ad: SocialAd, i: nat, rejected: set<string>)
    requires NonNegative(Flatten(SocialParts(AdKey(i), ad)))
    ensures var lines := LineItems("", AdKey(i) + "platform_lines.", ad.platforms);
      RejectedSum(Flatten(SocialParts(AdKey(i), ad)), rejected) <=
        LineTotal(ad.platforms) + (if AdKey(i) + "main" in rejected then RejectedSum(lines, rejected) else 0)
  {
    var parts := SocialParts(AdKey(i), ad);
    FlattenPair(parts[0], parts[1]);
    assert parts == [parts[0], parts[1]];
    RejectedConcat(parts[0], parts[1], rejected);
    assert parts[0][..0] == [];
    FlattenedNonNegative(parts, 1);
    RejectingMoreCostsMore(parts[1], rejected, rejected);
    LineItemsSum("", AdKey(i) + "platform_lines.", ad.platforms);
  }

  lemma {:induction false} SocialRejection(ads: seq<SocialAd>, rejected: set<string>)
    requires NonNegative(Flatten(SocialGroups(ads)))
    ensures RejectedSum(Flatten(SocialGroups(ads)), rejected) <= Total(SocialAmounts(ads)) + Overlap(ads, rejected)
  {
    if ads != [] {
      var n := |ads| - 1;
      assert SocialGroups(ads)[..n] == SocialGroups(ads[..n]);
      assert SocialAmounts(ads)[..n] == SocialAmounts(ads[..n]);
      var front, last := Flatten(SocialGroups(ads[..n])), SocialGroups(ads)[n];
      assert NonNegative(front) by {
        forall i | 0 <= i < |front|
          ensures front[i].amount >= 0
        {
          assert Flatten(SocialGroups(ads))[i] == front[i];
        }
      }
      SocialRejection(ads[..n], rejected);
      FlattenedNonNegative(SocialGroups(ads), n);
      AdRejection(ads[n], n, rejected);
      RejectedConcat(front, last, rejected);
    }
  }

  /** Sections but social media can lose at most their subtotal. */
  lemma SectionRejection(s: Shape, k: nat, rejected: set<string>)
    requires k < SECTIONS && NonNegative(ItemsOf(s, k))
    ensures RejectedSum(ItemsOf(s, k), rejected) <=
      SubtotalOf(s, k) + (if k == SOCIAL then Overlap(s.socialAds, rejected) else 0)
  {
    if k == SOCIAL {
      SocialRejection(s.socialAds, rejected);
    } else {
      RejectingMoreCostsMore(ItemsOf(s, k), rejected, rejected);
      SectionSum(s, k);
    }
  }

  /** A bound on what each group loses bounds what they lose together. */
  lemma {:induction false} FlattenRejection(groups: seq<seq<Item>>, limits: seq<int>, rejected: set<string>)
    requires |groups| == |limits|
    requires forall i :: 0 <= i < |groups| ==> RejectedSum(groups[i], rejected) <= limits[i]
    ensures RejectedSum(Flatten(groups), rejected) <= Total(limits)
  {
    if groups != [] {
      var n := |groups| - 1;
      FlattenRejection(groups[..n], limits[..n], rejected);
      RejectedConcat(Flatten(groups[..n]), groups[n], rejected);
    }
  }

  lemma RejectionBound(groups: seq<seq<Item>>, subtotals: seq<int>, at: nat, more: int, rejected: set<string>)
    requires at < |groups| == |subtotals|
    requires forall i :: 0 <= i < |groups| ==>
      RejectedSum(groups[i], rejected) <= subtotals[i] + (if i == at then more else 0)
    ensures RejectedSum(Flatten(groups), rejected) <= Total(subtotals) + more
  {
    TotalUpdate(subtotals, at, more);
    FlattenRejection(groups, subtotals[at := subtotals[at] + more], rejected);
  }

  /** With non-negative amounts and the total of the subtotals, a semi-approved
      budget is at most the total, and falls below zero by no more than what
      rejecting both an ad and its lines deducts twice. */
  lemma ApprovalBounds(c: Campaign)
    requires c.status == SEMI_APPROVED && NonNegative(AllItems(c.shape)) && c.total == Subtotals(c.shape)
    ensures -Overlap(c.shape.socialAds, c.rejected) <= ApprovedBudget(c) <= c.total
  {
    var s := c.shape;
    forall i | 0 <= i < SECTIONS
      ensures NonNegative(ItemsOf(s, i))
    {
      FlattenedNonNegative(SectionItems(s), i);
    }
    var overlap := Overlap(s.socialAds, c.rejected);
    forall i | 0 <= i < SECTIONS
      ensures RejectedSum(SectionItems(s)[i], c.rejected) <= SubtotalSeq(s)[i] + (if i == SOCIAL then overlap else 0)
    {
      SectionRejection(s, i, c.rejected);
    }
    RejectionBound(SectionItems(s), SubtotalSeq(s), SOCIAL, overlap, c.rejected);
    RejectingMoreCostsMore(AllItems(s), c.rejected, c.rejected);
  }

  // ---- Money, counted once ----

  /** The money of an ad that is kept: none if its own row is rejected. */
  function AdKept(ad: SocialAd, i: nat, rejected: set<string>): int {
    if AdKey(i) + "main" in rejected then 0
    else LineTotal(ad.platforms) - RejectedSum(LineItems("", AdKey(i) + "platform_lines.", ad.platforms), rejected)
  }

  function SocialKept(ads: seq<SocialAd>, rejected: set<string>): int {
    if ads == [] then 0
    else SocialKept(ads[..|ads| - 1], rejected) + AdKept(ads[|ads| - 1], |ads| - 1, rejected)
  }

  function SectionKept(s: Shape, k: nat, rejected: set<string>): int {
    if k == SOCIAL then SocialKept(s.socialAds, rejected)
    else SubtotalOf(s, k) - RejectedSum(ItemsOf(s, k), rejected)
  }

  /** The money of all lines that are kept, each amount counted once. */
  function MoneyKept(s: Shape, rejected: set<string>): int {
    Total(KeptSeq(s, rejected))
  }

  function KeptSeq(s: Shape, rejected: set<string>): (kept: seq<int>)
    ensures |kept| == SECTIONS
  {
    seq(SECTIONS, k requires 0 <= k => SectionKept(s, k, rejected))
  }

  lemma SocialSectionExact(s: Shape, rejected: set<string>)
    ensures RejectedSum(ItemsOf(s, SOCIAL), rejected)
      == SubtotalOf(s, SOCIAL) - SectionKept(s, SOCIAL, rejected) + Overlap(s.socialAds, rejected)
  {
    SocialExact(s.socialAds, rejected);
  }

  lemma SectionExact(s: Shape, k: nat, rejected: set<string>)
    requires k < SECTIONS
    ensures RejectedSum(ItemsOf(s, k), rejected) == SubtotalOf(s, k) - SectionKept(s, k, rejected)
      + (if k == SOCIAL then Overlap(s.socialAds, rejected) else 0)
  {
    if k == SOCIAL {
      SocialSectionExact(s, rejected);
    } else {
      var items, subtotal := ItemsOf(s, k), SubtotalOf(s, k);
      assert SectionKept(s, k, rejected) == subtotal - RejectedSum(items, rejected);
    }
  }

  lemma AdExact(ad: SocialAd, i: nat, rejected: set<string>)
    ensures var lines := LineItems("", AdKey(i) + "platform_lines.", ad.platforms);
      RejectedSum(Flatten(SocialParts(AdKey(i), ad)), rejected) ==
        LineTotal(ad.platforms) - AdKept(ad, i, rejected)
        + (if AdKey(i) + "main" in rejected then RejectedSum(lines, rejected) else 0)
  {
    var parts := SocialParts(AdKey(i), ad);
    FlattenPair(parts[0], parts[1]);
    assert parts == [parts[0], parts[1]];
    RejectedConcat(parts[0], parts[1], rejected);
    assert parts[0][..0] == [];
  }

  lemma {:induction false} SocialExact(ads: seq<SocialAd>, rejected: set<string>)
    ensures RejectedSum(Flatten(SocialGroups(ads)), rejected)
      == Total(SocialAmounts(ads)) - SocialKept(ads, rejected) + Overlap(ads, rejected)
  {
    if ads != [] {
      var n := |ads| - 1;
      assert SocialGroups(ads)[..n] == SocialGroups(ads[..n]);
      assert SocialAmounts(ads)[..n] == SocialAmounts(ads[..n]);
      SocialExact(ads[..n], rejected);
      AdExact(ads[n], n, rejected);
      RejectedConcat(Flatten(SocialGroups(ads[..n])), SocialGroups(ads)[n], rejected);
    }
  }

  lemma {:induction false} FlattenExact(groups: seq<seq<Item>>, subtotals: seq<int>, kept: seq<int>, at: nat, more: int,
                                        rejected: set<string>)
    requires |groups| == |subtotals| == |kept|
    requires forall i :: 0 <= i < |groups| ==>
      RejectedSum(groups[i], rejected) == subtotals[i] - kept[i] + (if i == at then more else 0)
    ensures RejectedSum(Flatten(groups), rejected)
      == Total(subtotals) - Total(kept) + (if at < |groups| then more else 0)
  {
    if groups != [] {
      var n := |groups| - 1;
      FlattenExact(groups[..n], subtotals[..n], kept[..n], at, more, rejected);
      RejectedConcat(Flatten(groups[..n]), groups[n], rejected);
    }
  }

  /** A semi-approved budget is the money kept, less what is deducted twice; it
      is negative exactly if that is more. */
  lemma ApprovedIsKeptLessOverlap(c: Campaign)
    requires c.status == SEMI_APPROVED && c.total == Subtotals(c.shape)
    ensures ApprovedBudget(c) == MoneyKept(c.shape, c.rejected) - Overlap(c.shape.socialAds, c.rejected)
    ensures ApprovedBudget(c) < 0 <==> MoneyKept(c.shape, c.rejected) < Overlap(c.shape.socialAds, c.rejected)
  {
    var s := c.shape;
    forall k | 0 <= k < SECTIONS
      ensures RejectedSum(SectionItems(s)[k], c.rejected) == SubtotalSeq(s)[k] - KeptSeq(s, c.rejected)[k]
        + (if k == SOCIAL then Overlap(s.socialAds, c.rejected) else 0)
    {
      SectionExact(s, k, c.rejected);
    }
    FlattenExact(SectionItems(s), SubtotalSeq(s), KeptSeq(s, c.rejected), SOCIAL,
      Overlap(s.socialAds, c.rejected), c.rejected);
  }

  /** No ad has both its own row and one of its lines rejected. */
  predicate NoDoubleRejection(ads: seq<SocialAd>, rejected: set<string>) {
    forall i, j :: 0 <= i < |ads| && 0 <= j < |ads[i].platforms| ==>
      !(AdKey(i) + "main" in rejected && AdKey(i) + "platform_lines." + Decimal(j) in rejected)
  }

  lemma {:induction false} NothingRejected(items: seq<Item>, rejected: set<string>)
    requires forall i :: 0 <= i < |items| ==> items[i].key !in rejected
    ensures RejectedSum(items, rejected) == 0
  {
    if items != [] {
      NothingRejected(items[..|items| - 1], rejected);
    }
  }

  lemma {:induction false} NoOverlap(ads: seq<SocialAd>, rejected: set<string>)
    requires NoDoubleRejection(ads, rejected)
    ensures Overlap(ads, rejected) == 0
  {
    if ads != [] {
      var n := |ads| - 1;
      NoOverlap(ads[..n], rejected);
      if AdKey(n) + "main" in rejected {
        var root := AdKey(n) + "platform_lines.";
        var groups := LineGroups("", root, ads[n].platforms);
        var items := LineItems("", root, ads[n].platforms);
        forall i | 0 <= i < |items|
          ensures items[i].key !in rejected
        {
          var g, k := FlattenMember(groups, i);
          assert items[i].key == root + Decimal(g);
        }
        NothingRejected(items, rejected);
      }
    }
  }

  /** Without double rejection the approved budget lies between 0 and the total. */
  lemma ApprovalWithinTotal(c: Campaign)
    requires c.status == SEMI_APPROVED && NonNegative(AllItems(c.shape)) && c.total == Subtotals(c.shape)
    requires NoDoubleRejection(c.shape.socialAds, c.rejected)
    ensures 0 <= ApprovedBudget(c) <= c.total
  {
    ApprovalBounds(c);
    NoOverlap(c.shape.socialAds, c.rejected);
  }

  lemma {:induction false} EverythingRejected(items: seq<Item>, rejected: set<string>)
    requires Keys(items) <= rejected
    ensures RejectedSum(items, rejected) == Sum(items)
  {
    if items != [] {
      EverythingRejected(items[..|items| - 1], rejected);
    }
  }

  lemma GroupsSumMore(groups: seq<seq<Item>>, subtotals: seq<int>, at: nat)
    requires at < |groups| == |subtotals|
    requires forall i :: 0 <= i < |groups| ==> Sum(groups[i]) == if i == at then 2 * subtotals[i] else subtotals[i]
    ensures Sum(Flatten(groups)) == Total(subtotals) + subtotals[at]
  {
    TotalUpdate(subtotals, at, subtotals[at]);
    GroupsSum(groups, subtotals[at := subtotals[at] + subtotals[at]], false);
  }

  lemma AllItemsSum(s: Shape)
    ensures Sum(AllItems(s)) == Subtotals(s) + SubtotalOf(s, SOCIAL)
  {
    forall i | 0 <= i < SECTIONS
      ensures Sum(SectionItems(s)[i]) == if i == SOCIAL then 2 * SubtotalSeq(s)[i] else SubtotalSeq(s)[i]
    {
      SectionSum(s, i);
    }
    GroupsSumMore(SectionItems(s), SubtotalSeq(s), SOCIAL);
  }

  /** Rejecting every line takes the social media budget off twice: what is
      left is its negative, not zero. */
  lemma RejectingEverythingGoesNegative(c: Campaign)
    requires c.status == SEMI_APPROVED && c.total == Subtotals(c.shape)
    requires Keys(AllItems(c.shape)) <= c.rejected
    ensures ApprovedBudget(c) == -SubtotalOf(c.shape, SOCIAL)
  {
    EverythingRejected(AllItems(c.shape), c.rejected);
    AllItemsSum(c.shape);
  }

  lemma {:induction false} OverlapAtMostSocial(ads: seq<SocialAd>, rejected: set<string>)
    requires NonNegative(Flatten(SocialGroups(ads)))
    ensures Overlap(ads, rejected) <= Total(SocialAmounts(ads))
  {
    if ads != [] {
      var n := |ads| - 1;
      assert SocialGroups(ads)[..n] == SocialGroups(ads[..n]);
      assert SocialAmounts(ads)[..n] == SocialAmounts(ads[..n]);
      var parts := SocialParts(AdKey(n), ads[n]);
      FlattenedNonNegative(SocialGroups(ads), n);
      FlattenedNonNegative(parts, 1);
      RejectingMoreCostsMore(parts[1], rejected, rejected);
      LineItemsSum("", AdKey(n) + "platform_lines.", ads[n].platforms);
      var front := Flatten(SocialGroups(ads[..n]));
      forall i | 0 <= i < |front|
        ensures front[i].amount >= 0
      {
        assert Flatten(SocialGroups(ads))[i] == front[i];
      }
      OverlapAtMostSocial(ads[..n], rejected);
    }
  }

  /** No choice of rejected lines can push the approved budget below zero
      exactly when the campaign spends nothing on social media. */
  lemma NeverNegativeIffNoSocialSpend(s: Shape)
    requires NonNegative(AllItems(s))
    ensures (forall rejected :: ApprovedBudget(Campaign(s, Subtotals(s), SEMI_APPROVED, rejected)) >= 0)
      <==> SubtotalOf(s, SOCIAL) <= 0
  {
    FlattenedNonNegative(SectionItems(s), SOCIAL);
    if SubtotalOf(s, SOCIAL) <= 0 {
      forall rejected
        ensures ApprovedBudget(Campaign(s, Subtotals(s), SEMI_APPROVED, rejected)) >= 0
      {
        ApprovalBounds(Campaign(s, Subtotals(s), SEMI_APPROVED, rejected));
        OverlapAtMostSocial(s.socialAds, rejected);
      }
    } else {
      var everything := Campaign(s, Subtotals(s), SEMI_APPROVED, Keys(AllItems(s)));
      RejectingEverythingGoesNegative(everything);
      assert ApprovedBudget(everything) < 0;
    }
  }

  // ---- The loops ----

  method AppendLines(tag: string, root: string, lines: seq<Line>) returns (items: seq<Item>, total: int)
    ensures items == LineItems(tag, root, lines) && total == LineTotal(lines)
  {
    items, total := [], 0;
    ghost var groups, amounts := LineGroups(tag, root, lines), Budgets(lines);
    var i := 0;
    while i < |lines|
      invariant i <= |lines|
      invariant items == Flatten(groups[..i]) && total == Total(amounts[..i])
    {
      FlattenStep(groups, i);
      TotalStep(amounts, i);
      items := items + [Item(ARROW + tag + lines[i].name, lines[i].budget, root + Decimal(i))];
      total := total + lines[i].budget;
      i := i + 1;
    }
    assert groups[..i] == groups && amounts[..i] == amounts;
  }

  /** The rows of one event or exhibition. */
  method AppendOccasion(base: string, fallback: string, o: Occasion) returns (items: seq<Item>, total: int)
    ensures items == Flatten(OccasionParts(base, fallback, o)) && total == OccasionAmount(o)
  {
    items, total := [Item(OrElse(o.name, fallback), o.budget, base + "main")], o.budget;
    var more, amount := AppendLines("Celebrity: ", base + "celebrities.", o.celebrities);
    items, total := items + more, total + amount;
    more, amount := AppendLines("Giveaway: ", base + "giveaways.", o.giveaways);
    items, total := items + more, total + amount;
    more, amount := AppendLines("Catering: ", base + "catering.", o.catering);
    items, total := items + more, total + amount;
    more, amount := AppendLines("Print Out: ", base + "printouts.", o.printouts);
    items, total := items + more, total + amount;
    FlattenFive(OccasionParts(base, fallback, o));
  }

  method OccasionRows(root: string, fallback: string, os: seq<Occasion>) returns (items: seq<Item>, total: int)
    ensures items == Flatten(OccasionGroups(root, fallback, os)) && total == Total(OccasionAmounts(os))
  {
    items, total := [], 0;
    ghost var groups, amounts := OccasionGroups(root, fallback, os), OccasionAmounts(os);
    var i := 0;
    while i < |os|
      invariant i <= |os|
      invariant items == Flatten(groups[..i]) && total == Total(amounts[..i])
    {
      FlattenStep(groups, i);
      TotalStep(amounts, i);
      var more, amount := AppendOccasion(root + Decimal(i) + ".", fallback, os[i]);
      items, total := items + more, total + amount;
      i := i + 1;
    }
    assert groups[..i] == groups && amounts[..i] == amounts;
  }

  method TvRows(ads: seq<TvAd>) returns (items: seq<Item>, total: int)
    ensures items == Flatten(TvGroups(ads)) && total == Total(TvAmounts(ads))
  {
    items, total := [], 0;
    ghost var groups, amounts := TvGroups(ads), TvAmounts(ads);
    var i := 0;
    while i < |ads|
      invariant i <= |ads|
      invariant items == Flatten(groups[..i]) && total == Total(amounts[..i])
    {
      FlattenStep(groups, i);
      TotalStep(amounts, i);
      var base := "tv_ads." + Decimal(i) + ".";
      var main := [Item(OrElse(ads[i].name, "TV Ad"), ads[i].budget, base + "main")];
      var more, amount := AppendLines("Channel: ", base + "channels.", ads[i].channels);
      FlattenPair(main, more);
      assert groups[i] == main + more;
      items, total := items + (main + more), total + (ads[i].budget + amount);
      i := i + 1;
    }
    assert groups[..i] == groups && amounts[..i] == amounts;
  }

  method TypeLineRows(root: string, lines: seq<TypeLine>) returns (items: seq<Item>, total: int)
    ensures items == Flatten(TypeLineGroups(root, lines)) && total == Total(TypeLineAmounts(lines))
  {
    items, total := [], 0;
    ghost var groups, amounts := TypeLineGroups(root, lines), TypeLineAmounts(lines);
    var i := 0;
    while i < |lines|
      invariant i <= |lines|
      invariant items == Flatten(groups[..i]) && total == Total(amounts[..i])
    {
      FlattenStep(groups, i);
      TotalStep(amounts, i);
      var key := root + Decimal(i);
      var main := [Item(ARROW + lines[i].name, lines[i].budget, key)];
      var more, amount := AppendLines("", key + ".locations.", lines[i].locations);
      items, total := items + (main + more), total + (lines[i].budget + amount);
      i := i + 1;
    }
    assert groups[..i] == groups && amounts[..i] == amounts;
  }

  method StreetRows(ads: seq<StreetAd>) returns (items: seq<Item>, total: int)
    ensures items == Flatten(StreetGroups(ads)) && total == Total(StreetAmounts(ads))
  {
    items, total := [], 0;
    ghost var groups, amounts := StreetGroups(ads), StreetAmounts(ads);
    var i := 0;
    while i < |ads|
      invariant i <= |ads|
      invariant items == Flatten(groups[..i]) && total == Total(amounts[..i])
    {
      FlattenStep(groups, i);
      TotalStep(amounts, i);
      var base := "street_ads." + Decimal(i) + ".";
      var main := [Item(OrElse(ads[i].name, "Street Ad"), ads[i].budget, base + "main")];
      var more, amount := TypeLineRows(base + "type_lines.", ads[i].lines);
      FlattenPair(main, more);
      assert groups[i] == main + more;
      items, total := items + (main + more), total + (ads[i].budget + amount);
      i := i + 1;
    }
    assert groups[..i] == groups && amounts[..i] == amounts;
  }

  /** The ad's own row carries the sum of its lines, which the section total
      counts once. */
  method SocialRows(ads: seq<SocialAd>) returns (items: seq<Item>, total: int)
    ensures items == Flatten(SocialGroups(ads)) && total == Total(SocialAmounts(ads))
  {
    items, total := [], 0;
    ghost var groups, amounts := SocialGroups(ads), SocialAmounts(ads);
    var i := 0;
    while i < |ads|
      invariant i <= |ads|
      invariant items == Flatten(groups[..i]) && total == Total(amounts[..i])
    {
      FlattenStep(groups, i);
      TotalStep(amounts, i);
      var base := "social_ads." + Decimal(i) + ".";
      var more, adTotal := AppendLines("", base + "platform_lines.", ads[i].platforms);
      var main := [Item(OrElse(ads[i].name, "Social Ad"), adTotal, base + "main")];
      FlattenPair(main, more);
      assert groups[i] == main + more;
      items, total := items + (main + more), total + adTotal;
      i := i + 1;
    }
    assert groups[..i] == groups && amounts[..i] == amounts;
  }

  method CostRows(costs: seq<Line>) returns (items: seq<Item>, total: int)
    ensures items == Flatten(CostGroups(costs)) && total == LineTotal(costs)
  {
    items, total := [], 0;
    ghost var groups, amounts := CostGroups(costs), Budgets(costs);
    var i := 0;
    while i < |costs|
      invariant i <= |costs|
      invariant items == Flatten(groups[..i]) && total == Total(amounts[..i])
    {
      FlattenStep(groups, i);
      TotalStep(amounts, i);
      items := items + [Item(OrElse(costs[i].name, "Other"), costs[i].budget, "other_costs." + Decimal(i))];
      total := total + costs[i].budget;
      i := i + 1;
    }
    assert groups[..i] == groups && amounts[..i] == amounts;
  }

  /** Adds section `k`, if it has items, to the sections before it. */
  method AddSection(sections: seq<Section>, caption: string, items: seq<Item>, subtotal: int,
                    ghost s: Shape, ghost k: nat)
    returns (more: seq<Section>)
    requires k < SECTIONS && sections == Sections(SectionItems(s), SubtotalSeq(s), k)
    requires caption == Caption(k) && items == ItemsOf(s, k) && subtotal == SubtotalOf(s, k)
    ensures more == Sections(SectionItems(s), SubtotalSeq(s), k + 1)
  {
    more := sections;
    if items != [] {
      more := more + [Section(caption, items, subtotal)];
    }
  }

  method Breakdown(s: Shape) returns (sections: seq<Section>)
    ensures sections == BreakdownOf(s)
  {
    var items, total := OccasionRows("events.", "Event", s.events);
    sections := AddSection([], "Events", items, total, s, 0);
    items, total := TvRows(s.tvAds);
    sections := AddSection(sections, "TV Ads", items, total, s, 1);
    items, total := StreetRows(s.streetAds);
    sections := AddSection(sections, "Street Ads", items, total, s, 2);
    items, total := SocialRows(s.socialAds);
    sections := AddSection(sections, "Social Media", items, total, s, 3);
    items, total := OccasionRows("exhibitions.", "Exhibition", s.exhibitions);
    sections := AddSection(sections, "Exhibition", items, total, s, 4);
    items, total := CostRows(s.otherCosts);
    sections := AddSection(sections, "Other Costs", items, total, s, 5);
  }

  function SectionsItems(sections: seq<Section>): seq<Item> {
    if sections == [] then [] else SectionsItems(sections[..|sections| - 1]) + sections[|sections| - 1].items
  }

  lemma SectionsItemsAppend(sections: seq<Section>, caption: string, items: seq<Item>, subtotal: int)
    ensures SectionsItems(sections + SectionIf(caption, items, subtotal)) == SectionsItems(sections) + items
  {
    if items != [] {
      var section := Section(caption, items, subtotal);
      assert (sections + [section])[..|sections|] == sections;
    } else {
      assert sections + [] == sections;
    }
  }

  lemma {:induction false} SectionsHoldAllItems(items: seq<seq<Item>>, subtotals: seq<int>, k: nat)
    requires k <= |items| == |subtotals|
    ensures SectionsItems(Sections(items, subtotals, k)) == Flatten(items[..k])
  {
    if k > 0 {
      SectionsHoldAllItems(items, subtotals, k - 1);
      FlattenStep(items, k - 1);
      SectionsItemsAppend(Sections(items, subtotals, k - 1), Caption(k - 1), items[k - 1], subtotals[k - 1]);
    }
  }

  /** Taking one key out of the rejected set takes its line's amount off. */
  lemma {:induction false} RejectOneLess(items: seq<Item>, rejected: set<string>, key: string)
    requires NoDup(items) && key in rejected
    ensures RejectedSum(items, rejected) == RejectedSum(items, rejected - {key})
      + (if key in AmountByKey(items) then AmountByKey(items)[key] else 0)
  {
    if items != [] {
      var n := |items| - 1;
      RejectOneLess(items[..n], rejected, key);
      AmountByKeyKeys(items[..n]);
      LastKeyNew(items);
    }
  }

  lemma AmountByKeyAppend(items: seq<Item>, item: Item)
    ensures AmountByKey(items + [item]) == AmountByKey(items)[item.key := item.amount]
  {
    assert (items + [item])[..|items|] == items;
  }

  lemma TakeNext(before: seq<Item>, items: seq<Item>, j: nat)
    requires j < |items|
    ensures before + items[..j + 1] == (before + items[..j]) + [items[j]]
  {}

  method FillFrom(items: seq<Item>, filled: map<string, int>, ghost before: seq<Item>)
    returns (amounts: map<string, int>)
    requires filled == AmountByKey(before)
    ensures amounts == AmountByKey(before + items)
  {
    amounts := filled;
    var j := 0;
    assert before + items[..0] == before;
    while j < |items|
      invariant j <= |items|
      invariant amounts == AmountByKey(before + items[..j])
    {
      TakeNext(before, items, j);
      AmountByKeyAppend(before + items[..j], items[j]);
      amounts := amounts[items[j].key := items[j].amount];
      j := j + 1;
    }
    assert items[..j] == items;
  }

  method FillAmounts(sections: seq<Section>) returns (amounts: map<string, int>)
    ensures amounts == AmountByKey(SectionsItems(sections))
  {
    amounts := map[];
    var i := 0;
    while i < |sections|
      invariant i <= |sections|
      invariant amounts == AmountByKey(SectionsItems(sections[..i]))
    {
      assert sections[..i + 1][..i] == sections[..i];
      amounts := FillFrom(sections[i].items, amounts, SectionsItems(sections[..i]));
      i := i + 1;
    }
    assert sections[..i] == sections;
  }

  /** Scans the rejected set in any order, looking each key up. */
  method SumRejected(amounts: map<string, int>, rejected: set<string>, ghost items: seq<Item>) returns (total: int)
    requires NoDup(items) && amounts == AmountByKey(items)
    ensures total == RejectedSum(items, rejected)
  {
    total := 0;
    var rest := rejected;
    while rest != {}
      invariant total + RejectedSum(items, rest) == RejectedSum(items, rejected)
      decreases |rest|
    {
      var key :| key in rest;
      RejectOneLess(items, rest, key);
      total := total + (if key in amounts then amounts[key] else 0);
      rest := rest - {key};
    }
    NothingRejected(items, {});
  }

  lemma SectionsHoldEverything(s: Shape)
    ensures SectionsItems(BreakdownOf(s)) == AllItems(s)
  {
    SectionsHoldAllItems(SectionItems(s), SubtotalSeq(s), SECTIONS);
    assert SectionItems(s)[..SECTIONS] == SectionItems(s);
  }

  /** The approved budget, through the dictionary and a scan of the rejected
      set. */
  method ComputeApprovedBudget(c: Campaign) returns (budget: int)
    ensures budget == ApprovedBudget(c)
    ensures c.status == APPROVED ==> budget == c.total
    ensures c.status == PENDING || c.status == NOT_APPROVED ==> budget == 0
    ensures c.status == SEMI_APPROVED ==> budget == c.total - RejectedSum(AllItems(c.shape), c.rejected)
  {
    if c.status == APPROVED {
      return c.total;
    }
    if c.status != SEMI_APPROVED {
      return 0;
    }
    if c.rejected == {} {
      NothingRejected(AllItems(c.shape), {});
      return c.total;
    }
    var sections := Breakdown(c.shape);
    var amounts := FillAmounts(sections);
    SectionsHoldEverything(c.shape);
    KeysDistinct(c.shape);
    var rejectedTotal := SumRejected(amounts, c.rejected, AllItems(c.shape));
    budget := c.total - rejectedTotal;
  }
}
