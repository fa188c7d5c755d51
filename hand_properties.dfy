/**
 * Properties of the hand evaluator: what isStraight and isFlush find, what the
 * category evaluateHand reports says about the cards, that findWinners returns
 * exactly the best hands, and that distributePot hands out the whole pot.
 */
module HandProperties {
  import opened Wrappers
  import opened Ledger
  import opened HandEvaluator

  // ---------------------------------------------------------------------------
  // Straights
  // ---------------------------------------------------------------------------

  /** The five consecutive ranks top, top - 1, ..., top - 4 are all present. */
  predicate RunPresent(ranks: seq<int>, top: int)
  {
    top in ranks && top - 1 in ranks && top - 2 in ranks && top - 3 in ranks && top - 4 in ranks
  }

  /** Ace, 5, 4, 3 and 2 are all present. */
  predicate WheelPresent(ranks: seq<int>)
  {
    ACE in ranks && 5 in ranks && 4 in ranks && 3 in ranks && 2 in ranks
  }

  /** In a strictly decreasing sequence a larger value sits earlier. */
  lemma DecreasingIndex(u: seq<int>, i: nat, j: nat)
    requires StrictlyDecreasing(u) && i < |u| && j < |u| && u[i] > u[j]
    ensures i < j
  {
  }

  /** If v sits at i and v - 1 is present, v - 1 sits right after it. */
  lemma NextBelow(u: seq<int>, i: nat, v: int)
    requires StrictlyDecreasing(u) && i < |u| && u[i] == v && v - 1 in u
    ensures i + 1 < |u| && u[i + 1] == v - 1
  {
    var q :| 0 <= q < |u| && u[q] == v - 1;
    DecreasingIndex(u, i, q);
    assert u[i] > u[i + 1];
  }

  /** The distinct ranks of a sorted hand, as isStraight computes them. */
  lemma DistinctRanksOfSorted(cards: seq<Card>)
    ensures StrictlyDecreasing(Dedup(Ranks(SortCards(cards))))
    ensures forall x :: x in Dedup(Ranks(SortCards(cards))) <==> x in Ranks(cards)
  {
    var sorted := SortCards(cards);
    assert NonIncreasing(Ranks(sorted));
    DedupDecreasing(Ranks(sorted));
    SortedRanks(cards);
  }

  /** Over strictly decreasing ranks, a present run is found, at or above its top. */
  lemma RunFound(u: seq<int>, top: int)
    requires StrictlyDecreasing(u) && RunPresent(u, top)
    ensures FirstRun(u, 0).Some? && u[FirstRun(u, 0).value] >= top
  {
    var p :| 0 <= p < |u| && u[p] == top;
    NextBelow(u, p, top);
    NextBelow(u, p + 1, top - 1);
    NextBelow(u, p + 2, top - 2);
    NextBelow(u, p + 3, top - 3);
    assert RunAt(u, p);
    var i := FirstRun(u, 0).value;
    if i < p {
      assert u[i] > u[p];
    }
  }

  /** When a window of five consecutive distinct ranks exists, isStraight picks the first one. */
  lemma StraightAtRun(cards: seq<Card>, u: seq<int>, i: nat)
    requires u == Dedup(Ranks(SortCards(cards))) && FirstRun(u, 0) == Some(i)
    ensures IsStraight(cards) == Some(PickRanks(SortCards(cards), u[i..i + 5]))
    ensures forall j | 0 <= j < 5 :: IsStraight(cards).value[j].rank == u[i + j]
  {
    var sorted := SortCards(cards);
    var w := u[i..i + 5];
    PickedWindow(cards, i, i + 5);
    PickedWindowRanks(sorted, u, i, w);
    var s := PickRanks(sorted, w);
    assert IsStraight(cards) == Some(s);
  }

  /** The cards picked for a window of five ranks have those ranks, in order. */
  lemma PickedWindowRanks(cards: seq<Card>, u: seq<int>, i: nat, w: seq<int>)
    requires i + 5 <= |u| && w == u[i..i + 5]
    requires forall k | k in w :: k in Ranks(cards)
    ensures forall j | 0 <= j < 5 :: PickRanks(cards, w)[j].rank == u[i + j]
  {
    forall j | 0 <= j < 5 ensures PickRanks(cards, w)[j].rank == u[i + j] {
      assert w[j] in w;
      assert w[j] == u[i + j];
    }
  }

  /** Without such a window, isStraight answers the wheel exactly when its ranks are present. */
  lemma StraightAtWheel(cards: seq<Card>)
    requires FirstRun(Dedup(Ranks(SortCards(cards))), 0).None?
    ensures IsStraight(cards).Some? <==> WheelPresent(Dedup(Ranks(SortCards(cards))))
    ensures IsStraight(cards).Some? ==> Ranks(IsStraight(cards).value) == WheelRanks
  {
    var sorted := SortCards(cards);
    var u := Dedup(Ranks(sorted));
    if WheelPresent(u) {
      PickedFromHand(cards, WheelRanks);
      var s := PickRanks(sorted, WheelRanks);
      assert IsStraight(cards) == Some(s);
      assert Ranks(s) == WheelRanks by {
        forall j | 0 <= j < 5 ensures Ranks(s)[j] == WheelRanks[j] { }
      }
    }
  }

  /**
   * isStraight finds a straight whenever five consecutive ranks are present, and
   * the straight it returns is at least as high: it is the highest one.
   */
  lemma StraightFound(cards: seq<Card>, top: int)
    requires RunPresent(Ranks(cards), top)
    ensures IsStraight(cards).Some?
    ensures IsStraight(cards).value[0].rank >= top
    ensures forall j | 0 <= j < 5 :: IsStraight(cards).value[j].rank == IsStraight(cards).value[0].rank - j
  {
    var u := Dedup(Ranks(SortCards(cards)));
    DistinctRanksOfSorted(cards);
    assert RunPresent(u, top);
    RunFound(u, top);
    StraightAtRun(cards, u, FirstRun(u, 0).value);
    assert IsStraight(cards).value[0].rank == u[FirstRun(u, 0).value + 0];
    StraightShapeRun(cards);
  }

  /** A straight found in a window of the distinct ranks is five consecutive ranks present. */
  lemma StraightShapeRun(cards: seq<Card>)
    requires FirstRun(Dedup(Ranks(SortCards(cards))), 0).Some?
    ensures IsStraight(cards).Some?
    ensures RunPresent(Ranks(cards), IsStraight(cards).value[0].rank)
    ensures forall j | 0 <= j < 5 :: IsStraight(cards).value[j].rank == IsStraight(cards).value[0].rank - j
  {
    var u := Dedup(Ranks(SortCards(cards)));
    var i := FirstRun(u, 0).value;
    StraightAtRun(cards, u, i);
    var s := IsStraight(cards).value;
    assert RunAt(u, i);
    forall j | 0 <= j < 5 ensures s[j].rank == s[0].rank - j {
      assert j == 0 || j == 1 || j == 2 || j == 3 || j == 4;
    }
    RunAtPresent(u, i);
    assert RunPresent(Ranks(cards), u[i]) by {
      DistinctRanksOfSorted(cards);
      RunPresentWithin(u, Ranks(cards), u[i]);
    }
  }

  /** The ranks of a run starting at position i are all present. */
  lemma RunAtPresent(u: seq<int>, i: nat)
    requires i + 5 <= |u| && RunAt(u, i)
    ensures RunPresent(u, u[i])
  {
    assert u[i + 1] in u && u[i + 2] in u && u[i + 3] in u && u[i + 4] in u;
  }

  /** A run present among some ranks is present among any ranks containing them. */
  lemma RunPresentWithin(a: seq<int>, b: seq<int>, top: int)
    requires RunPresent(a, top) && forall x | x in a :: x in b
    ensures RunPresent(b, top)
  {
  }

  /** A straight found otherwise is the wheel, and then no five consecutive ranks are present. */
  lemma StraightShapeWheel(cards: seq<Card>)
    requires FirstRun(Dedup(Ranks(SortCards(cards))), 0).None?
    requires IsStraight(cards).Some?
    ensures Ranks(IsStraight(cards).value) == WheelRanks && WheelPresent(Ranks(cards))
    ensures forall top :: !RunPresent(Ranks(cards), top)
  {
    var u := Dedup(Ranks(SortCards(cards)));
    DistinctRanksOfSorted(cards);
    StraightAtWheel(cards);
    assert WheelPresent(u);
    forall top ensures !RunPresent(Ranks(cards), top) {
      if RunPresent(Ranks(cards), top) {
        assert RunPresent(u, top);
        RunFound(u, top);
      }
    }
  }

  /**
   * The straight isStraight returns is five consecutive ranks, highest first, or
   * else the wheel, ranks 2, 3, 4, 5, ace in that order, which it reports only
   * when no five consecutive ranks are present.
   */
  lemma StraightShape(cards: seq<Card>)
    requires IsStraight(cards).Some?
    ensures var s := IsStraight(cards).value;
      (RunPresent(Ranks(cards), s[0].rank) && forall j | 0 <= j < 5 :: s[j].rank == s[0].rank - j) ||
      (Ranks(s) == WheelRanks && WheelPresent(Ranks(cards)) && forall top :: !RunPresent(Ranks(cards), top))
  {
    if FirstRun(Dedup(Ranks(SortCards(cards))), 0).Some? {
      StraightShapeRun(cards);
    } else {
      StraightShapeWheel(cards);
    }
  }

  /** isStraight reports a straight exactly when five consecutive ranks or the wheel are present. */
  lemma StraightIff(cards: seq<Card>)
    ensures IsStraight(cards).Some? <==>
      (exists top :: RunPresent(Ranks(cards), top)) || WheelPresent(Ranks(cards))
  {
    var sorted := SortCards(cards);
    var u := Dedup(Ranks(sorted));
    DistinctRanksOfSorted(cards);
    if IsStraight(cards).Some? {
      StraightShape(cards);
    } else if exists top :: RunPresent(Ranks(cards), top) {
      var top :| RunPresent(Ranks(cards), top);
      StraightFound(cards, top);
    } else {
      assert FirstRun(u, 0).None?;
    }
  }

  // ---------------------------------------------------------------------------
  // Flushes
  // ---------------------------------------------------------------------------

  /** The cards of one suit of a descending hand are descending. */
  lemma {:induction false} OfSuitDescending(cards: seq<Card>, s: string)
    requires Descending(cards)
    ensures Descending(OfSuit(cards, s))
  {
    if cards != [] {
      assert Descending(cards[1..]);
      OfSuitDescending(cards[1..], s);
      var rest := OfSuit(cards[1..], s);
      if cards[0].suit == s {
        forall d: Card | d in multiset(rest) ensures d.rank <= cards[0].rank {
          assert d in cards[1..];
          var i :| 0 <= i < |cards[1..]| && cards[1..][i] == d;
          assert cards[i + 1] == d;
        }
        DescendingCons(cards[0], rest);
      }
    }
  }

  /** The first five cards of a suit of a descending hand are its five highest. */
  lemma TopFiveOfSuit(sorted: seq<Card>, s: string)
    requires Descending(sorted) && |OfSuit(sorted, s)| >= 5
    ensures Descending(OfSuit(sorted, s)[..5])
    ensures forall c | c in sorted && c.suit == s && c !in OfSuit(sorted, s)[..5] ::
      c.rank <= OfSuit(sorted, s)[4].rank
  {
    var o := OfSuit(sorted, s);
    OfSuitDescending(sorted, s);
    assert forall k | 0 <= k < 5 :: o[k] in o[..5] by {
      forall k | 0 <= k < 5 ensures o[k] in o[..5] {
        assert o[..5][k] == o[k];
      }
    }
    forall c | c in sorted && c.suit == s && c !in o[..5] ensures c.rank <= o[4].rank {
      var k :| 0 <= k < |o| && o[k] == c;
    }
  }

  /**
   * On sorted cards, as evaluateHand calls it, isFlush returns the five highest
   * cards of its suit, highest first: every other card of that suit ranks no higher.
   */
  lemma FlushIsTopFive(cards: seq<Card>)
    requires IsFlush(SortCards(cards)).Some?
    ensures Descending(IsFlush(SortCards(cards)).value)
    ensures forall c | c in cards && c.suit == IsFlush(SortCards(cards)).value[0].suit &&
      c !in IsFlush(SortCards(cards)).value :: c.rank <= IsFlush(SortCards(cards)).value[4].rank
  {
    var sorted := SortCards(cards);
    FlushOfDescending(sorted);
    forall c | c in cards ensures c in sorted {
      assert c in multiset(sorted);
    }
  }

  /** On descending cards, isFlush returns the five highest cards of its suit. */
  lemma FlushOfDescending(sorted: seq<Card>)
    requires Descending(sorted) && IsFlush(sorted).Some?
    ensures Descending(IsFlush(sorted).value)
    ensures forall c | c in sorted && c.suit == IsFlush(sorted).value[0].suit &&
      c !in IsFlush(sorted).value :: c.rank <= IsFlush(sorted).value[4].rank
  {
    var f := IsFlush(sorted).value;
    var s :| |OfSuit(sorted, s)| >= 5 && f == OfSuit(sorted, s)[..5];
    assert f[0] in f;
    TopFiveOfSuit(sorted, s);
  }

  // ---------------------------------------------------------------------------
  // Rank groups of a hand
  // ---------------------------------------------------------------------------

  /** How many cards of rank k the hand holds. */
  function Count(cards: seq<Card>, k: int): nat
  {
    |OfRank(cards, k)|
  }

  /** There is a group exactly when there is a card. */
  lemma GroupsNonEmpty(cards: seq<Card>)
    ensures |GroupCardsByRank(cards)| == 0 <==> |cards| == 0
  {
    var groups := GroupCardsByRank(cards);
    if |cards| > 0 {
      assert cards[0].rank in Ranks(cards);
    }
    if |groups| > 0 {
      assert groups[0] in groups;
    }
  }

  /** The first group is a largest one. */
  lemma FirstGroupLargest(cards: seq<Card>, k: int)
    requires k in Ranks(cards) && |GroupCardsByRank(cards)| > 0
    ensures |GroupCardsByRank(cards)[0].cards| >= |OfRank(cards, k)|
  {
    var groups := GroupCardsByRank(cards);
    var g :| g in groups && g.rank == k;
    var j :| 0 <= j < |groups| && groups[j] == g;
    if j > 0 {
      assert GroupBefore(groups[0], groups[j]);
    }
  }

  /** The second group is a largest one among the other ranks. */
  lemma SecondGroupLargest(cards: seq<Card>, k: int)
    requires k in Ranks(cards) && |GroupCardsByRank(cards)| > 0 && k != GroupCardsByRank(cards)[0].rank
    ensures |GroupCardsByRank(cards)| > 1
    ensures |GroupCardsByRank(cards)[1].cards| >= |OfRank(cards, k)|
    ensures GroupCardsByRank(cards)[1].rank != GroupCardsByRank(cards)[0].rank
  {
    var groups := GroupCardsByRank(cards);
    var g :| g in groups && g.rank == k;
    var j :| 0 <= j < |groups| && groups[j] == g;
    if j > 1 {
      assert GroupBefore(groups[1], groups[j]);
    }
    assert groups[0] in groups && groups[1] in groups;
    assert GroupBefore(groups[0], groups[1]);
  }

  // ---------------------------------------------------------------------------
  // evaluateHand: what each category says about the cards
  // ---------------------------------------------------------------------------

  /** What the first two groups must satisfy for the classification lemmas. */
  predicate LeadingGroupsOf(all: seq<Card>, groups: seq<Group>)
  {
    (|groups| > 0 ==> groups[0].cards == OfRank(all, groups[0].rank)) &&
    (|groups| > 1 ==>
      groups[1].cards == OfRank(all, groups[1].rank) && |groups[1].cards| > 0 &&
      groups[1].rank != groups[0].rank && |groups[1].cards| <= |groups[0].cards|)
  }

  /** The first two groups of a hand, as evaluateHand reads them. */
  lemma LeadingGroups(all: seq<Card>)
    ensures LeadingGroupsOf(all, GroupCardsByRank(SortCards(all)))
  {
    var groups := GroupCardsByRank(SortCards(all));
    if |groups| > 0 {
      assert groups[0] in groups;
    }
    if |groups| > 1 {
      assert groups[1] in groups;
      assert GroupBefore(groups[0], groups[1]);
    }
  }

  /** The classification chain read category by category. */
  lemma ClassifySound(all: seq<Card>, sorted: seq<Card>, flush: Option<seq<Card>>, straight: Option<seq<Card>>, groups: seq<Group>)
    requires flush.Some? ==> |flush.value| == 5
    requires straight.Some? ==> |straight.value| == 5
    requires LeadingGroupsOf(all, groups)
    requires Classify(sorted, flush, straight, groups).Some?
    ensures var h := Classify(sorted, flush, straight, groups).value;
      HIGH_CARD <= h.ranking <= ROYAL_FLUSH &&
      (h.ranking == ROYAL_FLUSH ==>
        flush.Some? && straight.Some? && straight.value[0].rank == ACE && straight.value[4].rank == 10) &&
      (h.ranking == STRAIGHT_FLUSH ==>
        flush.Some? && straight.Some? && InFlush(straight.value, flush.value) == straight.value &&
        h.highCard == straight.value[0].rank) &&
      (h.ranking == FOUR_OF_A_KIND ==>
        Count(all, h.quadRank) == 4 && |groups| > 1 && h.quadRank == groups[0].rank &&
        h.kickers == [groups[1].rank] && Count(all, h.kickers[0]) > 0 && h.kickers[0] != h.quadRank) &&
      (h.ranking == FULL_HOUSE ==>
        Count(all, h.tripRank) == 3 && Count(all, h.pairRank) >= 2 && h.tripRank != h.pairRank) &&
      (h.ranking == FLUSH ==> flush.Some? && h.kickers == Ranks(flush.value)) &&
      (h.ranking == STRAIGHT ==> flush.None? && straight.Some?) &&
      (h.ranking == THREE_OF_A_KIND ==>
        Count(all, h.tripRank) == 3 && h.tripRank == groups[0].rank && |groups| > 1 &&
        h.kickers == Take(FlatRanks(groups[1..]), 2)) &&
      (h.ranking == TWO_PAIR ==>
        Count(all, h.highPair) == 2 && Count(all, h.lowPair) == 2 &&
        h.highPair > h.lowPair && |groups| > 1 && h.kickers == Take(FlatRanks(groups[2..]), 1)) &&
      (h.ranking == PAIR ==>
        Count(all, h.pairRank) == 2 && h.pairRank == groups[0].rank && |groups| > 1 &&
        h.kickers == Take(FlatRanks(groups[1..]), 3)) &&
      (h.ranking == HIGH_CARD ==> flush.None? && straight.None? && h.kickers == Take(Ranks(sorted), 5))
  {
    if flush.Some? && straight.Some? && |InFlush(straight.value, flush.value)| == 5 {
      InFlushWhole(straight.value, flush.value);
    }
  }

  /** When every card of the straight is among the flush's cards, InFlush keeps the straight whole. */
  lemma {:induction false} InFlushWhole(straight: seq<Card>, flush: seq<Card>)
    ensures |InFlush(straight, flush)| == |straight| <==> InFlush(straight, flush) == straight
  {
    if straight != [] {
      InFlushWhole(straight[1..], flush);
      if straight[0] in flush {
        assert straight == [straight[0]] + straight[1..];
      }
    }
  }

  /**
   * Every category evaluateHand reports is backed by the cards: a royal flush
   * is a flush together with the straight ace to ten (whatever the suits of
   * the straight's cards), a straight flush a straight whose cards all belong
   * to the flush, four of a kind four cards of its rank with the most frequent
   * other rank as kicker, a full house three of one rank and at least two of
   * another, two pair exactly two of each pair with the higher pair first, and
   * the kickers of trips, two pair and a pair the highest ranks outside the
   * leading groups.
   */
  lemma EvaluateSound(all: seq<Card>)
    requires Evaluate(all).Some?
    ensures var h := Evaluate(all).value;
      var sorted := SortCards(all);
      var groups := GroupCardsByRank(sorted);
      HIGH_CARD <= h.ranking <= ROYAL_FLUSH &&
      (h.ranking == ROYAL_FLUSH ==>
        IsFlush(sorted).Some? && IsStraight(sorted).Some? &&
        forall j | 0 <= j < 5 :: IsStraight(sorted).value[j].rank == ACE - j) &&
      (h.ranking == STRAIGHT_FLUSH ==>
        IsFlush(sorted).Some? && IsStraight(sorted).Some? &&
        (forall c | c in IsStraight(sorted).value :: c in IsFlush(sorted).value) &&
        h.highCard == IsStraight(sorted).value[0].rank) &&
      (h.ranking == FOUR_OF_A_KIND ==>
        Count(all, h.quadRank) == 4 && |h.kickers| == 1 &&
        Count(all, h.kickers[0]) > 0 && h.kickers[0] != h.quadRank &&
        forall k | k in Ranks(all) && k != h.quadRank :: Count(all, k) <= Count(all, h.kickers[0])) &&
      (h.ranking == FULL_HOUSE ==>
        Count(all, h.tripRank) == 3 && Count(all, h.pairRank) >= 2 && h.tripRank != h.pairRank) &&
      (h.ranking == FLUSH ==> IsFlush(sorted).Some? && h.kickers == Ranks(IsFlush(sorted).value)) &&
      (h.ranking == STRAIGHT ==> IsFlush(sorted).None? && IsStraight(sorted).Some?) &&
      (h.ranking == THREE_OF_A_KIND ==>
        Count(all, h.tripRank) == 3 && |groups| > 1 && h.kickers == Take(FlatRanks(groups[1..]), 2)) &&
      (h.ranking == TWO_PAIR ==>
        Count(all, h.highPair) == 2 && Count(all, h.lowPair) == 2 &&
        h.highPair > h.lowPair && |groups| > 1 && h.kickers == Take(FlatRanks(groups[2..]), 1)) &&
      (h.ranking == PAIR ==> Count(all, h.pairRank) == 2 && |groups| > 1 && h.kickers == Take(FlatRanks(groups[1..]), 3)) &&
      (h.ranking == HIGH_CARD ==>
        IsFlush(sorted).None? && IsStraight(sorted).None? && h.kickers == Take(Ranks(sorted), 5))
  {
    LeadingGroups(all);
    var sorted := SortCards(all);
    var flush := IsFlush(sorted);
    var straight := IsStraight(sorted);
    var groups := GroupCardsByRank(sorted);
    assert Evaluate(all) == Classify(sorted, flush, straight, groups);
    ClassifySound(all, sorted, flush, straight, groups);
    var h := Evaluate(all).value;
    if h.ranking == ROYAL_FLUSH {
      assert forall j | 0 <= j < 5 :: straight.value[j].rank == ACE - j by {
        StraightShape(sorted);
        assert Ranks(straight.value)[0] == straight.value[0].rank;
      }
    }
    if h.ranking == STRAIGHT_FLUSH {
      forall c | c in straight.value ensures c in flush.value {
        assert c in InFlush(straight.value, flush.value);
      }
    }
    if h.ranking == FOUR_OF_A_KIND {
      assert forall k | k in Ranks(all) && k != h.quadRank :: Count(all, k) <= Count(all, h.kickers[0]) by {
        HandGroupsBySize(all);
      }
    }
  }

  // ---------------------------------------------------------------------------
  // evaluateHand: the category is at least what the cards hold
  // ---------------------------------------------------------------------------

  /** The first group is a largest one and the second a largest among the other ranks. */
  predicate GroupsBySize(all: seq<Card>, groups: seq<Group>)
  {
    LeadingGroupsOf(all, groups) && |groups| > 0 &&
    (forall k | k in Ranks(all) :: |groups[0].cards| >= Count(all, k)) &&
    (forall k | k in Ranks(all) && k != groups[0].rank :: |groups| > 1 && |groups[1].cards| >= Count(all, k))
  }

  /** The groups of a non-empty hand are ordered by size as GroupsBySize says. */
  lemma HandGroupsBySize(all: seq<Card>)
    requires |all| > 0
    ensures GroupsBySize(all, GroupCardsByRank(SortCards(all)))
  {
    var sorted := SortCards(all);
    LeadingGroups(all);
    GroupsNonEmpty(sorted);
    SortedRanks(all);
    var groups := GroupCardsByRank(sorted);
    forall k | k in Ranks(all) ensures |groups[0].cards| >= Count(all, k) {
      FirstGroupLargest(sorted, k);
    }
    forall k | k in Ranks(all) && k != groups[0].rank ensures |groups| > 1 && |groups[1].cards| >= Count(all, k) {
      SecondGroupLargest(sorted, k);
    }
  }

  /** The classification chain never reports less than the largest groups, a flush or a straight make. */
  lemma ClassifyAtLeast(all: seq<Card>, sorted: seq<Card>, flush: Option<seq<Card>>, straight: Option<seq<Card>>, groups: seq<Group>)
    requires flush.Some? ==> |flush.value| == 5
    requires straight.Some? ==> |straight.value| == 5
    requires GroupsBySize(all, groups)
    requires |groups| > 1
    requires forall k :: Count(all, k) <= 4
    ensures Classify(sorted, flush, straight, groups).Some?
    ensures var r := Classify(sorted, flush, straight, groups).value.ranking;
      (flush.Some? ==> r >= FLUSH) &&
      (straight.Some? ==> r >= STRAIGHT) &&
      (forall k | k in Ranks(all) && Count(all, k) >= 2 :: r >= PAIR) &&
      (forall k | k in Ranks(all) && Count(all, k) >= 3 :: r >= THREE_OF_A_KIND) &&
      (forall k | k in Ranks(all) && Count(all, k) == 4 :: r >= FOUR_OF_A_KIND) &&
      (forall k1, k2 | k1 in Ranks(all) && k2 in Ranks(all) && k1 != k2 && Count(all, k1) >= 2 && Count(all, k2) >= 2 ::
        r >= TWO_PAIR) &&
      (forall k1, k2 | k1 in Ranks(all) && k2 in Ranks(all) && k1 != k2 && Count(all, k1) >= 3 && Count(all, k2) >= 2 ::
        r >= FULL_HOUSE)
  {
    assert Count(all, groups[0].rank) == |groups[0].cards|;
  }

  /**
   * For a hand with two distinct ranks and at most four cards of a rank (any
   * hand dealt from one deck), evaluateHand succeeds and reports at least the
   * best category the cards hold: a flush at least FLUSH, a straight at least
   * STRAIGHT, two cards of a rank at least PAIR, and so on up to four of a kind.
   */
  lemma EvaluateAtLeast(all: seq<Card>, i: nat, j: nat)
    requires i < |all| && j < |all| && all[i].rank != all[j].rank
    requires forall k :: Count(all, k) <= 4
    ensures Evaluate(all).Some?
    ensures var r := Evaluate(all).value.ranking;
      var sorted := SortCards(all);
      (IsFlush(sorted).Some? ==> r >= FLUSH) &&
      (IsStraight(sorted).Some? ==> r >= STRAIGHT) &&
      (forall k | k in Ranks(all) && Count(all, k) >= 2 :: r >= PAIR) &&
      (forall k | k in Ranks(all) && Count(all, k) >= 3 :: r >= THREE_OF_A_KIND) &&
      (forall k | k in Ranks(all) && Count(all, k) == 4 :: r >= FOUR_OF_A_KIND) &&
      (forall k1, k2 | k1 in Ranks(all) && k2 in Ranks(all) && k1 != k2 && Count(all, k1) >= 2 && Count(all, k2) >= 2 ::
        r >= TWO_PAIR) &&
      (forall k1, k2 | k1 in Ranks(all) && k2 in Ranks(all) && k1 != k2 && Count(all, k1) >= 3 && Count(all, k2) >= 2 ::
        r >= FULL_HOUSE)
  {
    var sorted := SortCards(all);
    var groups := GroupCardsByRank(sorted);
    HandGroupsBySize(all);
    assert all[i].rank in Ranks(all) && all[j].rank in Ranks(all);
    assert all[i].rank != groups[0].rank || all[j].rank != groups[0].rank;
    assert |groups| > 1;
    ClassifyAtLeast(all, sorted, IsFlush(sorted), IsStraight(sorted), groups);
    assert Evaluate(all) == Classify(sorted, IsFlush(sorted), IsStraight(sorted), groups);
  }

  // ---------------------------------------------------------------------------
  // The royal flush test
  // ---------------------------------------------------------------------------

  /** Sorting cards that are already highest first leaves them as they are. */
  lemma {:induction false} SortDescendingSame(cards: seq<Card>)
    requires Descending(cards)
    ensures SortCards(cards) == cards
  {
    if cards != [] {
      assert Descending(cards[1..]);
      SortDescendingSame(cards[1..]);
      assert cards == [cards[0]] + cards[1..];
    }
  }

  /** Every card outranks every later card. */
  predicate Falling(cards: seq<Card>)
  {
    forall a, b | 0 <= a < b < |cards| :: cards[a].rank > cards[b].rank
  }

  /** Ranks falling from each card to the next fall throughout. */
  lemma {:induction false} FallingFromNeighbours(cards: seq<Card>)
    requires forall i | 0 <= i < |cards| - 1 :: cards[i].rank > cards[i + 1].rank
    ensures Falling(cards) && Descending(cards) && StrictlyDecreasing(Ranks(cards))
  {
    if cards != [] {
      FallingFromNeighbours(cards[1..]);
      forall b | 0 < b < |cards| ensures cards[0].rank > cards[b].rank {
        if b > 1 {
          assert cards[1..][0].rank > cards[1..][b - 1].rank;
        }
      }
      assert Falling(cards);
    }
  }

  /** Distinct values are their own `[...new Set(s)]`. */
  lemma {:induction false} DedupOfDistinct(s: seq<int>)
    requires DistinctInts(s)
    ensures Dedup(s) == s
  {
    if s != [] {
      var prefix := s[..|s| - 1];
      assert DistinctInts(prefix);
      DedupOfDistinct(prefix);
      assert s == prefix + [s[|s| - 1]];
      assert s[|s| - 1] !in prefix by {
        forall i | 0 <= i < |prefix| ensures prefix[i] != s[|s| - 1] {
          assert s[i] != s[|s| - 1];
        }
      }
    }
  }

  /** In a falling hand, the card found for a rank is the one card of that rank. */
  lemma {:induction false} FirstOfFalling(cards: seq<Card>, j: nat)
    requires Falling(cards) && j < |cards|
    ensures cards[j].rank in Ranks(cards)
    ensures FirstOfRank(cards, cards[j].rank) == cards[j]
  {
    assert Ranks(cards)[j] == cards[j].rank;
    if j > 0 {
      assert Falling(cards[1..]);
      FirstOfFalling(cards[1..], j - 1);
      assert cards[1..][j - 1] == cards[j];
      assert Ranks(cards) == [cards[0].rank] + Ranks(cards[1..]);
    }
  }

  /** Picking the first five ranks of a falling hand gives back its first five cards. */
  lemma PickFalling(cards: seq<Card>)
    requires Falling(cards) && |cards| >= 5
    ensures forall k | k in Ranks(cards)[0..5] :: k in Ranks(cards)
    ensures PickRanks(cards, Ranks(cards)[0..5]) == cards[..5]
  {
    var w := Ranks(cards)[0..5];
    var picked := PickRanks(cards, w);
    forall j | 0 <= j < 5 ensures picked[j] == cards[..5][j] {
      FirstOfFalling(cards, j);
      assert w[j] == cards[j].rank;
    }
  }

  /** A falling hand is already sorted, its ranks are already distinct, and its first five ranks pick its first five cards. */
  lemma FallingHand(cards: seq<Card>)
    requires forall i | 0 <= i < |cards| - 1 :: cards[i].rank > cards[i + 1].rank
    requires |cards| >= 5
    ensures SortCards(cards) == cards
    ensures Dedup(Ranks(cards)) == Ranks(cards)
    ensures forall k | k in Ranks(cards)[0..5] :: k in Ranks(cards)
    ensures PickRanks(cards, Ranks(cards)[0..5]) == cards[..5]
  {
    FallingFromNeighbours(cards);
    SortDescendingSame(cards);
    DedupOfDistinct(Ranks(cards));
    PickFalling(cards);
  }

  /** A hand whose ranks fall card by card and whose first five ranks are consecutive is its own straight. */
  lemma StraightOfFallingRun(cards: seq<Card>)
    requires forall i | 0 <= i < |cards| - 1 :: cards[i].rank > cards[i + 1].rank
    requires |cards| >= 5 && RunAt(Ranks(cards), 0)
    ensures IsStraight(cards) == Some(cards[..5])
  {
    var u := Ranks(cards);
    FallingHand(cards);
    assert FirstRun(u, 0) == Some(0);
    var i: nat := 0;
    StraightAtRun(cards, u, i);
    assert u[i..i + 5] == u[0..5];
  }

  /**
   * The royal flush test looks at the straight's ranks only: a hand holding
   * any flush whose ranks fall card by card from ace, king, queen, jack, ten
   * is reported a royal flush, whatever the suits of those five cards.
   */
  lemma RoyalOfAceRun(cards: seq<Card>)
    requires forall i | 0 <= i < |cards| - 1 :: cards[i].rank > cards[i + 1].rank
    requires |cards| >= 5 && cards[0].rank == ACE && cards[4].rank == 10
    requires IsFlush(cards).Some?
    ensures IsStraight(cards) == Some(cards[..5])
    ensures Evaluate(cards) == Some(Ranked(ROYAL_FLUSH, []))
  {
    assert RunAt(Ranks(cards), 0) by {
      var u := Ranks(cards);
      assert u[0] == ACE && u[4] == 10;
      assert u[1] < ACE && u[1] > u[2] && u[2] > u[3] && u[3] > 10;
    }
    StraightOfFallingRun(cards);
    assert SortCards(cards) == cards by {
      FallingHand(cards);
    }
    EvaluateSorted(cards);
    var straight := IsStraight(cards).value;
    assert straight[0] == cards[0] && straight[4] == cards[4];
  }

  /** evaluateHand on cards that sorting leaves in place classifies them as they are. */
  lemma EvaluateSorted(cards: seq<Card>)
    requires SortCards(cards) == cards
    ensures Evaluate(cards) == Classify(cards, IsFlush(cards), IsStraight(cards), GroupCardsByRank(cards))
  {
  }

  /** Ace, king, queen and jack of suit h, the ten of suit c, then the 3 and 2 of suit h, in that order. */
  predicate MixedRoyal(hand: seq<Card>, h: string, c: string)
  {
    |hand| == 7 && hand[0] == Card(h, ACE) && hand[1] == Card(h, 13) && hand[2] == Card(h, 12) &&
    hand[3] == Card(h, 11) && hand[4] == Card(c, 10) && hand[5] == Card(h, 3) && hand[6] == Card(h, 2)
  }

  /** On such a hand, isFlush finds the first five cards of suit h, which leave out the ten. */
  lemma MixedRoyalFlush(hand: seq<Card>, h: string, c: string)
    requires MixedRoyal(hand, h, c) && h != c
    ensures IsFlush(hand).Some? && Card(c, 10) !in IsFlush(hand).value
  {
    assert hand[6..][1..] == [];
    assert |OfSuit(hand[6..], h)| == 1;
    assert hand[5..][1..] == hand[6..];
    assert |OfSuit(hand[5..], h)| == 2;
    assert hand[4..][1..] == hand[5..];
    assert |OfSuit(hand[4..], h)| == 2;
    assert hand[3..][1..] == hand[4..];
    assert |OfSuit(hand[3..], h)| == 3;
    assert hand[2..][1..] == hand[3..];
    assert |OfSuit(hand[2..], h)| == 4;
    assert hand[1..][1..] == hand[2..];
    assert |OfSuit(hand[1..], h)| == 5;
    assert |OfSuit(hand, h)| == 6;
    assert hand[0] in hand;
  }

  /**
   * An instance: with any two different suits h and c, the ace, king, queen,
   * jack, 3 and 2 of h and the ten of c make a flush in h and the straight ace
   * to ten, whose ten is not of suit h, and evaluateHand reports a royal flush
   * although no five cards of one suit run from ace to ten.
   */
  lemma RoyalOfMixedSuits(hand: seq<Card>, h: string, c: string)
    requires MixedRoyal(hand, h, c) && h != c
    ensures IsFlush(hand).Some? && Card(c, 10) !in IsFlush(hand).value
    ensures IsStraight(hand) == Some(hand[..5]) && Card(c, 10) in hand[..5]
    ensures Evaluate(hand) == Some(Ranked(ROYAL_FLUSH, []))
  {
    MixedRoyalFalls(hand, h, c);
    MixedRoyalFlush(hand, h, c);
    RoyalOfAceRun(hand);
  }

  /** Such a hand falls card by card from the ace, and its first five cards hold the ten of c. */
  lemma MixedRoyalFalls(hand: seq<Card>, h: string, c: string)
    requires MixedRoyal(hand, h, c)
    ensures forall i | 0 <= i < |hand| - 1 :: hand[i].rank > hand[i + 1].rank
    ensures Card(c, 10) in hand[..5]
  {
    assert hand[..5][4] == hand[4];
  }

  // ---------------------------------------------------------------------------
  // The wheel
  // ---------------------------------------------------------------------------

  /** A straight that evaluateHand reports carries the first rank of isStraight's answer as its high card. */
  lemma ClassifyStraightHigh(sorted: seq<Card>, flush: Option<seq<Card>>, straight: Option<seq<Card>>, groups: seq<Group>)
    requires flush.Some? ==> |flush.value| == 5
    requires straight.Some? ==> |straight.value| == 5 && straight.value[0].rank < straight.value[4].rank + 5
    requires Classify(sorted, flush, straight, groups).Some?
    requires Classify(sorted, flush, straight, groups).value.ranking == STRAIGHT
    ensures Classify(sorted, flush, straight, groups).value.highCard == straight.value[0].rank
  {
  }

  /**
   * As written, a wheel (ace to five) is scored with high card 2, not 5: isStraight
   * lists it from the 2 up, so the ace-first test in evaluateHand never holds.
   * Over ranks of at least 2 every other straight scores at least 6, so the wheel
   * still loses to every other straight and ties another wheel.
   */
  lemma WheelScoresTwo(all: seq<Card>)
    requires forall c | c in all :: c.rank >= 2
    requires Evaluate(all).Some? && Evaluate(all).value.ranking == STRAIGHT
    ensures IsStraight(SortCards(all)).Some?
    ensures var s := IsStraight(SortCards(all)).value;
      var h := Evaluate(all).value;
      (Ranks(s) == WheelRanks && h.highCard == 2) || (Ranks(s) != WheelRanks && h.highCard == s[0].rank >= 6)
  {
    var sorted := SortCards(all);
    EvaluateSound(all);
    var straight := IsStraight(sorted);
    StraightShape(sorted);
    var s := straight.value;
    if Ranks(s) == WheelRanks {
      assert s[0].rank == 2 && s[4].rank == ACE;
    } else {
      assert s[0].rank - 4 in Ranks(sorted);
      var k :| 0 <= k < |sorted| && sorted[k].rank == s[0].rank - 4;
      assert sorted[k] in multiset(all);
      assert s[4].rank == s[0].rank - 4;
    }
    ClassifyStraightHigh(sorted, IsFlush(sorted), straight, GroupCardsByRank(sorted));
  }

  // ---------------------------------------------------------------------------
  // findWinners
  // ---------------------------------------------------------------------------

  /** Keeping the entries that tie a hand keeps logins distinct. */
  lemma {:induction false} TiedWithDistinct(entries: seq<Winner>, best: HandResult)
    requires Distinct(Logins(entries))
    ensures Distinct(Logins(TiedWith(entries, best)))
  {
    if entries != [] {
      var rest := TiedWith(entries[1..], best);
      var tail := Logins(entries[1..]);
      assert Logins(entries) == [entries[0].login] + tail;
      assert Distinct(tail) by {
        forall i, j | 0 <= i < j < |tail| ensures tail[i] != tail[j] {
          assert Logins(entries)[i + 1] == tail[i] && Logins(entries)[j + 1] == tail[j];
        }
      }
      TiedWithDistinct(entries[1..], best);
      if CompareHands(entries[0].hand, best) == 0 {
        assert entries[0].login !in Logins(rest) by {
          LoginsOfSubset(rest, entries[1..]);
          forall k | 0 <= k < |tail| ensures tail[k] != entries[0].login {
            assert Logins(entries)[k + 1] == tail[k];
          }
        }
        assert Logins([entries[0]] + rest) == [entries[0].login] + Logins(rest);
        DistinctCons(entries[0].login, Logins(rest));
      }
    }
  }

  /** Putting in front a value not in a sequence of distinct values keeps them distinct. */
  lemma DistinctCons<T>(x: T, s: seq<T>)
    requires Distinct(s) && x !in s
    ensures Distinct([x] + s)
  {
    forall i, j | 0 <= i < j < |[x] + s| ensures ([x] + s)[i] != ([x] + s)[j] {
      assert ([x] + s)[j] == s[j - 1];
      if i > 0 {
        assert ([x] + s)[i] == s[i - 1];
      }
    }
  }

  /**
   * Over evaluated entries: the entries tying the best one are the best hands,
   * tie with each other, and include every entry tying one of them.
   */
  lemma TiedWithBest(entries: seq<Winner>)
    requires |entries| > 0
    ensures var ws := TiedWith(entries, entries[BestIndex(entries)].hand);
      |ws| > 0 &&
      (forall w | w in ws :: w in entries) &&
      (forall w, e | w in ws && e in entries :: CompareHands(e.hand, w.hand) <= 0) &&
      (forall w1, w2 | w1 in ws && w2 in ws :: CompareHands(w1.hand, w2.hand) == 0) &&
      (forall w, e | w in ws && e in entries && CompareHands(e.hand, w.hand) == 0 :: e in ws) &&
      (Distinct(Logins(entries)) ==> Distinct(Logins(ws)))
  {
    var b := BestIndex(entries);
    var best := entries[b].hand;
    var ws := TiedWith(entries, best);
    CompareReflexive(best);
    assert entries[b] in entries;
    forall w, e | w in ws && e in entries ensures CompareHands(e.hand, w.hand) <= 0 {
      var i :| 0 <= i < |entries| && entries[i] == e;
      CompareAntisymmetric(w.hand, best);
      CompareTransitive(e.hand, best, w.hand);
    }
    forall w1, w2 | w1 in ws && w2 in ws ensures CompareHands(w1.hand, w2.hand) == 0 {
      CompareAntisymmetric(w2.hand, best);
      CompareAntisymmetric(w1.hand, best);
      CompareTransitive(w1.hand, best, w2.hand);
      CompareTransitive(w2.hand, best, w1.hand);
      CompareAntisymmetric(w1.hand, w2.hand);
    }
    forall w, e | w in ws && e in entries && CompareHands(e.hand, w.hand) == 0 ensures e in ws {
      CompareAntisymmetric(e.hand, w.hand);
      CompareAntisymmetric(w.hand, best);
      CompareTransitive(best, w.hand, e.hand);
      CompareAntisymmetric(best, e.hand);
    }
    if Distinct(Logins(entries)) {
      TiedWithDistinct(entries, best);
    }
  }

  /**
   * findWinners fails exactly when there is no player or a hand cannot be
   * evaluated; otherwise every winner is an evaluated player, no player's hand
   * beats a winner's, the winners tie with each other, every player who ties a
   * winner is a winner, and distinct logins stay distinct.
   */
  lemma FindWinnersCorrect(players: seq<Contender>, communityCards: seq<RawCard>)
    ensures FindWinners(players, communityCards).None? <==>
      |players| == 0 || EvaluateAll(players, communityCards).None?
    ensures FindWinners(players, communityCards).Some? ==>
      var entries := EvaluateAll(players, communityCards).value;
      var ws := FindWinners(players, communityCards).value;
      |ws| > 0 &&
      (forall w | w in ws :: w in entries) &&
      (forall w, e | w in ws && e in entries :: CompareHands(e.hand, w.hand) <= 0) &&
      (forall w1, w2 | w1 in ws && w2 in ws :: CompareHands(w1.hand, w2.hand) == 0) &&
      (forall w, e | w in ws && e in entries && CompareHands(e.hand, w.hand) == 0 :: e in ws) &&
      (Distinct(Logins(entries)) ==> Distinct(Logins(ws)))
  {
    var all := EvaluateAll(players, communityCards);
    if all.Some? && |players| > 0 {
      TiedWithBest(all.value);
      assert FindWinners(players, communityCards) ==
        Some(TiedWith(all.value, all.value[BestIndex(all.value)].hand));
    }
  }

  /**
   * The winners found are at least one, each of them one of the players, and
   * distinct when the players' logins are.
   */
  lemma WinnersAmongPlayers(players: seq<Contender>, communityCards: seq<RawCard>)
    requires FindWinners(players, communityCards).Some?
    ensures var ws := FindWinners(players, communityCards).value;
      |ws| >= 1 && (forall q | q in Logins(ws) :: q in ContenderLogins(players)) &&
      (Distinct(ContenderLogins(players)) ==> Distinct(Logins(ws)))
  {
    var entries := EvaluateAll(players, communityCards).value;
    EvaluateAllLogins(players, communityCards);
    TiedWithBest(entries);
    var ws := TiedWith(entries, entries[BestIndex(entries)].hand);
    assert FindWinners(players, communityCards) == Some(ws);
    LoginsOfSubset(ws, entries);
    if Distinct(ContenderLogins(players)) {
      TiedWithDistinct(entries, entries[BestIndex(entries)].hand);
    }
  }

  /** The logins of winners drawn from `entries` are logins of `entries`. */
  lemma LoginsOfSubset(ws: seq<Winner>, entries: seq<Winner>)
    requires forall w | w in ws :: w in entries
    ensures forall q | q in Logins(ws) :: q in Logins(entries)
  {
    forall q | q in Logins(ws)
      ensures q in Logins(entries)
    {
      var i :| 0 <= i < |ws| && Logins(ws)[i] == q;
      assert ws[i] in ws;
      var j :| 0 <= j < |entries| && entries[j] == ws[i];
      assert Logins(entries)[j] == q;
    }
  }

  // ---------------------------------------------------------------------------
  // distributePot
  // ---------------------------------------------------------------------------

  /** After k steps the distribution holds exactly the first k winners, each with its share. */
  lemma {:induction false} DistributionAfter(winners: seq<string>, pot: int, k: nat)
    requires Distinct(winners) && 0 < |winners| && k <= |winners|
    ensures forall w :: w in Distribution(winners, pot, k) <==> w in winners[..k]
    ensures forall i | 0 <= i < k :: Distribution(winners, pot, k)[winners[i]] == ShareAt(pot, |winners|, i)
  {
    if k > 0 {
      DistributionAfter(winners, pot, k - 1);
      assert winners[..k] == winners[..k - 1] + [winners[k - 1]];
      forall i | 0 <= i < k - 1 ensures winners[i] != winners[k - 1] {
      }
    }
  }

  /**
   * With distinct winners and a non-negative pot, every winner gets the pot
   * divided by the number of winners, rounded down, and the first `pot % n`
   * winners one chip more; no one else gets anything.
   */
  lemma DistributePotShares(winners: seq<string>, pot: int)
    requires Distinct(winners) && |winners| > 0 && pot >= 0
    ensures forall w :: w in DistributePot(winners, pot) <==> w in winners
    ensures forall i | 0 <= i < |winners| ::
      DistributePot(winners, pot)[winners[i]] == pot / |winners| + (if i < pot % |winners| then 1 else 0)
  {
    DistributionAfter(winners, pot, |winners|);
    assert winners[..|winners|] == winners;
  }

  /** The shares from position j on add up to the rest of the pot. */
  lemma {:induction false} SharesFrom(winners: seq<string>, pot: int, j: nat)
    requires Distinct(winners) && |winners| > 0 && pot >= 0 && j <= |winners|
    ensures Sum(winners[j..], DistributePot(winners, pot)) ==
      (|winners| - j) * (pot / |winners|) + (if j < pot % |winners| then pot % |winners| - j else 0)
    decreases |winners| - j
  {
    DistributePotShares(winners, pot);
    var n := |winners|;
    var q := pot / n;
    var r := pot % n;
    if j < n {
      SharesFrom(winners, pot, j + 1);
      assert winners[j..][1..] == winners[j + 1..];
      assert winners[j..][0] == winners[j];
      assert Get(DistributePot(winners, pot), winners[j]) == q + (if j < r then 1 else 0);
      assert (n - j) * q == q + (n - (j + 1)) * q;
    }
  }

  /** distributePot hands out the whole pot: the shares of distinct winners add up to it. */
  lemma DistributePotTotal(winners: seq<string>, pot: int)
    requires Distinct(winners) && |winners| > 0 && pot >= 0
    ensures Sum(winners, DistributePot(winners, pot)) == pot
  {
    SharesFrom(winners, pot, 0);
    assert winners[0..] == winners;
    assert pot == |winners| * (pot / |winners|) + pot % |winners|;
  }
}
