/**
 * The hand evaluator of the poker server: parsing cards, detecting flushes,
 * straights and rank groups in up to seven cards, building a ranking record
 * with tie-break fields, comparing two records, finding the tied best hands
 * and splitting a pot between winners.
 *
 * The functions follow the branches of the JavaScript evaluator; the search
 * for the best hands is specified by what it finds rather than by the order of
 * the JavaScript sort. Where the JavaScript code would throw a TypeError
 * (reading a rank group that does not exist, or the best hand of an empty
 * field), the model returns None.
 */
module HandEvaluator {
  import opened Wrappers
  import opened Remainders
  import opened Ledger

  // Hand categories, numbered as in the HAND_RANKINGS table.
  const HIGH_CARD := 1
  const PAIR := 2
  const TWO_PAIR := 3
  const THREE_OF_A_KIND := 4
  const STRAIGHT := 5
  const FLUSH := 6
  const FULL_HOUSE := 7
  const FOUR_OF_A_KIND := 8
  const STRAIGHT_FLUSH := 9
  const ROYAL_FLUSH := 10

  const ACE := 14

  /** A rank as a card carries it: a number, or a name such as "J" or "10". */
  datatype RawRank = Number(n: int) | Name(text: string)

  /** A card as the table hands it to the evaluator. */
  datatype RawCard = RawCard(suit: string, rank: RawRank)

  /** A parsed card: pips 2..10, then J = 11, Q = 12, K = 13, A = 14. */
  datatype Card = Card(suit: string, rank: int)

  /** The rank names of a deck in ascending order; the name at position i has rank i + 2. */
  const RankNames: seq<string> := ["2", "3", "4", "5", "6", "7", "8", "9", "10", "J", "Q", "K", "A"]

  // ---------------------------------------------------------------------------
  // Parsing
  // ---------------------------------------------------------------------------

  /** The rank table of parseCard; a name outside it has no rank. */
  function RankOfName(text: string): Option<int>
  {
    if text == "2" then Some(2)
    else if text == "3" then Some(3)
    else if text == "4" then Some(4)
    else if text == "5" then Some(5)
    else if text == "6" then Some(6)
    else if text == "7" then Some(7)
    else if text == "8" then Some(8)
    else if text == "9" then Some(9)
    else if text == "10" then Some(10)
    else if text == "J" then Some(11)
    else if text == "Q" then Some(12)
    else if text == "K" then Some(13)
    else if text == "A" then Some(14)
    else None
  }

  /** parseCard: a numeric rank is kept as it is, a named rank is looked up. */
  function ParseCard(c: RawCard): (r: Option<Card>)
    ensures c.rank.Number? ==> r == Some(Card(c.suit, c.rank.n))
    ensures c.rank.Name? ==> (r.Some? <==> c.rank.text in RankNames)
    ensures r.Some? ==> r.value.suit == c.suit
    ensures c.rank.Name? && r.Some? ==> 2 <= r.value.rank <= ACE
  {
    match c.rank
    case Number(n) => Some(Card(c.suit, n))
    case Name(text) =>
      match RankOfName(text)
      case Some(k) => Some(Card(c.suit, k))
      case None => None
  }

  /** Every rank name parses to its position in RankNames plus two. */
  lemma RankNamesParse(i: nat, suit: string)
    requires i < |RankNames|
    ensures ParseCard(RawCard(suit, Name(RankNames[i]))) == Some(Card(suit, i + 2))
  {
  }

  /** Parses every card; None if one of them has no rank. */
  function ParseAll(cs: seq<RawCard>): (r: Option<seq<Card>>)
    ensures r.Some? <==> forall i | 0 <= i < |cs| :: ParseCard(cs[i]).Some?
    ensures r.Some? ==> |r.value| == |cs| && forall i | 0 <= i < |cs| :: ParseCard(cs[i]) == Some(r.value[i])
  {
    if cs == [] then Some([])
    else
      match ParseCard(cs[0])
      case None => None
      case Some(c) =>
        match ParseAll(cs[1..])
        case None => None
        case Some(rest) => Some([c] + rest)
  }

  // ---------------------------------------------------------------------------
  // Sorting by rank (Array.prototype.sort with `b.rank - a.rank`, which is stable)
  // ---------------------------------------------------------------------------

  /** The ranks of the cards, in order. */
  function Ranks(cards: seq<Card>): (r: seq<int>)
    ensures |r| == |cards| && forall i | 0 <= i < |cards| :: r[i] == cards[i].rank
  {
    if cards == [] then [] else [cards[0].rank] + Ranks(cards[1..])
  }

  /** The cards of rank k, in their order. */
  function OfRank(cards: seq<Card>, k: int): seq<Card>
  {
    if cards == [] then []
    else (if cards[0].rank == k then [cards[0]] else []) + OfRank(cards[1..], k)
  }

  /** Highest rank first. */
  predicate Descending(cards: seq<Card>)
  {
    forall i, j | 0 <= i < j < |cards| :: cards[i].rank >= cards[j].rank
  }

  lemma DescendingCons(c: Card, cards: seq<Card>)
    requires Descending(cards)
    requires forall d | d in multiset(cards) :: d.rank <= c.rank
    ensures Descending([c] + cards)
  {
    forall i, j | 0 <= i < j < |[c] + cards|
      ensures ([c] + cards)[i].rank >= ([c] + cards)[j].rank
    {
      if i == 0 {
        assert ([c] + cards)[j] == cards[j - 1];
        assert cards[j - 1] in multiset(cards);
      }
    }
  }

  /** Inserts c before the first card that does not outrank it. */
  function InsertByRank(c: Card, sorted: seq<Card>): (r: seq<Card>)
    ensures multiset(r) == multiset(sorted) + multiset{c}
  {
    if sorted == [] || sorted[0].rank <= c.rank then
      var r := [c] + sorted;
      assert r[1..] == sorted;
      r
    else
      var rest := InsertByRank(c, sorted[1..]);
      var r := [sorted[0]] + rest;
      assert r[1..] == rest;
      assert sorted == [sorted[0]] + sorted[1..];
      r
  }

  /** Inserting keeps the order of the cards of each rank, c going first among its own rank. */
  lemma {:induction false} InsertOfRank(c: Card, sorted: seq<Card>, k: int)
    ensures OfRank(InsertByRank(c, sorted), k) == (if c.rank == k then [c] else []) + OfRank(sorted, k)
  {
    if sorted == [] || sorted[0].rank <= c.rank {
      assert ([c] + sorted)[1..] == sorted;
    } else {
      var rest := InsertByRank(c, sorted[1..]);
      InsertOfRank(c, sorted[1..], k);
      assert ([sorted[0]] + rest)[1..] == rest;
    }
  }

  /** Inserting into a descending sequence keeps it descending. */
  lemma {:induction false} InsertKeepsDescending(c: Card, sorted: seq<Card>)
    requires Descending(sorted)
    ensures Descending(InsertByRank(c, sorted))
  {
    if sorted == [] || sorted[0].rank <= c.rank {
      forall d: Card | d in multiset(sorted) ensures d.rank <= c.rank {
        var i :| 0 <= i < |sorted| && sorted[i] == d;
      }
      DescendingCons(c, sorted);
    } else {
      var rest := InsertByRank(c, sorted[1..]);
      assert sorted == [sorted[0]] + sorted[1..];
      assert Descending(sorted[1..]);
      InsertKeepsDescending(c, sorted[1..]);
      forall d: Card | d in multiset(rest) ensures d.rank <= sorted[0].rank {
        if d != c {
          assert d in multiset(sorted[1..]);
          var i :| 0 <= i < |sorted[1..]| && sorted[1..][i] == d;
          assert sorted[i + 1] == d;
        }
      }
      DescendingCons(sorted[0], rest);
    }
  }

  /**
   * sortCards: a stable sort, highest rank first. The result is a permutation,
   * is descending, and keeps the input order of cards of equal rank.
   */
  function SortCards(cards: seq<Card>): (r: seq<Card>)
    ensures multiset(r) == multiset(cards)
    ensures Descending(r)
    ensures forall k :: OfRank(r, k) == OfRank(cards, k)
  {
    if cards == [] then []
    else
      assert cards == [cards[0]] + cards[1..];
      var rest := SortCards(cards[1..]);
      InsertKeepsDescending(cards[0], rest);
      forall k ensures OfRank(InsertByRank(cards[0], rest), k) == OfRank(cards, k) {
        InsertOfRank(cards[0], rest, k);
      }
      InsertByRank(cards[0], rest)
  }

  // ---------------------------------------------------------------------------
  // Flush
  // ---------------------------------------------------------------------------

  /** The cards of suit s, in their order. */
  function OfSuit(cards: seq<Card>, s: string): (r: seq<Card>)
    ensures forall c | c in r :: c in cards && c.suit == s
    ensures forall c | c in cards && c.suit == s :: c in r
  {
    if cards == [] then []
    else (if cards[0].suit == s then [cards[0]] else []) + OfSuit(cards[1..], s)
  }

  /**
   * The first suit, in order of first appearance among `scan`, that at least five
   * cards of `cards` carry. This is the order in which the JavaScript tally
   * object lists suits that do not look like array indices.
   */
  function FlushSuit(scan: seq<Card>, cards: seq<Card>): (r: Option<string>)
    ensures r.Some? ==> |OfSuit(cards, r.value)| >= 5
    ensures r.Some? ==>
      exists i | 0 <= i < |scan| ::
        scan[i].suit == r.value && forall j | 0 <= j < i :: |OfSuit(cards, scan[j].suit)| < 5
    ensures r.None? <==> forall c | c in scan :: |OfSuit(cards, c.suit)| < 5
  {
    if scan == [] then None
    else if |OfSuit(cards, scan[0].suit)| >= 5 then Some(scan[0].suit)
    else FlushSuit(scan[1..], cards)
  }

  /**
   * isFlush: the first five cards, in input order, of the first suit that has at
   * least five cards; None when no suit has five.
   */
  function IsFlush(cards: seq<Card>): (r: Option<seq<Card>>)
    ensures r.None? <==> forall c | c in cards :: |OfSuit(cards, c.suit)| < 5
    ensures r.Some? ==> |r.value| == 5 && forall c | c in r.value :: c in cards && c.suit == r.value[0].suit
    ensures r.Some? ==> FlushSuit(cards, cards) == Some(r.value[0].suit)
    ensures r.Some? ==> r.value == OfSuit(cards, r.value[0].suit)[..5]
  {
    match FlushSuit(cards, cards)
    case None => None
    case Some(s) =>
      var f := OfSuit(cards, s)[..5];
      assert forall c | c in f :: c in OfSuit(cards, s);
      assert f[0] in OfSuit(cards, s);
      Some(f)
  }

  // ---------------------------------------------------------------------------
  // Straight
  // ---------------------------------------------------------------------------

  predicate NonIncreasing(s: seq<int>)
  {
    forall i, j | 0 <= i < j < |s| :: s[i] >= s[j]
  }

  predicate StrictlyDecreasing(s: seq<int>)
  {
    forall i, j | 0 <= i < j < |s| :: s[i] > s[j]
  }

  predicate DistinctInts(s: seq<int>)
  {
    forall i, j | 0 <= i < j < |s| :: s[i] != s[j]
  }

  /** `[...new Set(s)]`: the distinct values of s in order of first occurrence. */
  function Dedup(s: seq<int>): (r: seq<int>)
    ensures forall x :: x in r <==> x in s
    ensures DistinctInts(r)
  {
    if s == [] then []
    else
      var init := Dedup(s[..|s| - 1]);
      var last := s[|s| - 1];
      assert s == s[..|s| - 1] + [last];
      if last in s[..|s| - 1] then init else init + [last]
  }

  /** The distinct ranks of a descending hand are strictly decreasing. */
  lemma {:induction false} DedupDecreasing(s: seq<int>)
    requires NonIncreasing(s)
    ensures StrictlyDecreasing(Dedup(s))
  {
    if s != [] {
      var prefix := s[..|s| - 1];
      var last := s[|s| - 1];
      assert NonIncreasing(prefix);
      DedupDecreasing(prefix);
      var init := Dedup(prefix);
      if last !in prefix {
        forall x | x in init ensures x > last {
          var i :| 0 <= i < |prefix| && prefix[i] == x;
          assert s[i] == x;
        }
        var r := init + [last];
        forall i, j | 0 <= i < j < |r| ensures r[i] > r[j] {
          if j == |r| - 1 {
            assert r[i] in init;
          }
        }
      }
    }
  }

  /** Five strictly consecutive ranks start at position i. */
  predicate RunAt(u: seq<int>, i: nat)
    requires i + 5 <= |u|
  {
    u[i + 1] == u[i] - 1 && u[i + 2] == u[i] - 2 && u[i + 3] == u[i] - 3 && u[i + 4] == u[i] - 4
  }

  /** The outer loop of isStraight: the first position from i where a run starts. */
  function FirstRun(u: seq<int>, i: nat): (r: Option<nat>)
    decreases |u| - i
    ensures r.Some? ==> i <= r.value && r.value + 5 <= |u| && RunAt(u, r.value)
    ensures r.Some? ==> forall k | i <= k < r.value :: !RunAt(u, k)
    ensures r.None? ==> forall k | i <= k && k + 5 <= |u| :: !RunAt(u, k)
  {
    if i + 5 > |u| then None
    else if RunAt(u, i) then Some(i)
    else FirstRun(u, i + 1)
  }

  /** `cards.find(card => card.rank === k)`. */
  function FirstOfRank(cards: seq<Card>, k: int): (c: Card)
    requires k in Ranks(cards)
    ensures c in cards && c.rank == k
    ensures exists i | 0 <= i < |cards| :: cards[i] == c && forall j | 0 <= j < i :: cards[j].rank != k
  {
    if cards[0].rank == k then cards[0]
    else
      assert Ranks(cards) == [cards[0].rank] + Ranks(cards[1..]);
      FirstOfRank(cards[1..], k)
  }

  /** The first card of each requested rank. */
  function PickRanks(cards: seq<Card>, ranks: seq<int>): (r: seq<Card>)
    requires forall k | k in ranks :: k in Ranks(cards)
    ensures |r| == |ranks|
    ensures forall j | 0 <= j < |r| :: r[j] == FirstOfRank(cards, ranks[j])
  {
    if ranks == [] then [] else [FirstOfRank(cards, ranks[0])] + PickRanks(cards, ranks[1..])
  }

  /** The five wheel ranks in the order isStraight returns them. */
  const WheelRanks: seq<int> := [2, 3, 4, 5, ACE]

  /** Every card picked is one of the cards searched. */
  lemma PickedFrom(cards: seq<Card>, ranks: seq<int>)
    requires forall k | k in ranks :: k in Ranks(cards)
    ensures forall c | c in PickRanks(cards, ranks) :: c in cards
  {
    forall c | c in PickRanks(cards, ranks) ensures c in cards {
      var j :| 0 <= j < |ranks| && PickRanks(cards, ranks)[j] == c;
    }
  }

  /** Sorting does not change the set of ranks present. */
  lemma SortedRanks(cards: seq<Card>)
    ensures forall x :: x in Ranks(SortCards(cards)) <==> x in Ranks(cards)
  {
    var sorted := SortCards(cards);
    forall x | x in Ranks(sorted) ensures x in Ranks(cards) {
      var i :| 0 <= i < |sorted| && sorted[i].rank == x;
      assert sorted[i] in multiset(cards);
      var j :| 0 <= j < |cards| && cards[j] == sorted[i];
    }
    forall x | x in Ranks(cards) ensures x in Ranks(sorted) {
      var i :| 0 <= i < |cards| && cards[i].rank == x;
      assert cards[i] in multiset(sorted);
      var j :| 0 <= j < |sorted| && sorted[j] == cards[i];
    }
  }

  /**
   * isStraight: over the distinct ranks, highest first, the first window of five
   * strictly consecutive ranks, as the first card of each of those ranks; failing
   * that, the wheel (ranks 14, 5, 4, 3, 2 present) as the cards of ranks 2, 3, 4, 5, 14.
   */
  function IsStraight(cards: seq<Card>): (r: Option<seq<Card>>)
    ensures r.Some? ==> |r.value| == 5 && forall c | c in r.value :: c in cards
  {
    var sorted := SortCards(cards);
    var u := Dedup(Ranks(sorted));
    match FirstRun(u, 0)
    case Some(i) =>
      PickedWindow(cards, i, i + 5);
      Some(PickRanks(sorted, u[i..i + 5]))
    case None =>
      if ACE in u && 5 in u && 4 in u && 3 in u && 2 in u then
        PickedFromHand(cards, WheelRanks);
        Some(PickRanks(sorted, WheelRanks))
      else None
  }

  /** A window of the hand's distinct sorted ranks can be picked from the sorted hand. */
  lemma PickedWindow(cards: seq<Card>, lo: nat, hi: nat)
    requires lo <= hi <= |Dedup(Ranks(SortCards(cards)))|
    ensures forall k | k in Dedup(Ranks(SortCards(cards)))[lo..hi] :: k in Ranks(SortCards(cards))
    ensures forall c | c in PickRanks(SortCards(cards), Dedup(Ranks(SortCards(cards)))[lo..hi]) :: c in cards
  {
    var u := Dedup(Ranks(SortCards(cards)));
    assert forall k | k in u[lo..hi] :: k in u;
    PickedFromHand(cards, u[lo..hi]);
  }

  /** Ranks among the distinct ranks of the sorted hand can be picked, and the cards picked are the hand's. */
  lemma PickedFromHand(cards: seq<Card>, ranks: seq<int>)
    requires forall k | k in ranks :: k in Dedup(Ranks(SortCards(cards)))
    ensures forall k | k in ranks :: k in Ranks(SortCards(cards))
    ensures forall c | c in PickRanks(SortCards(cards), ranks) :: c in cards
  {
    var sorted := SortCards(cards);
    PickedFrom(sorted, ranks);
    assert forall c | c in sorted :: c in multiset(cards);
  }

  // ---------------------------------------------------------------------------
  // Rank groups
  // ---------------------------------------------------------------------------

  /** The cards of one rank, in their order (one array of groupCardsByRank). */
  datatype Group = Group(rank: int, cards: seq<Card>)

  /** The comparator of groupCardsByRank: larger groups first, then higher ranks. */
  predicate GroupBefore(a: Group, b: Group)
  {
    |a.cards| > |b.cards| || (|a.cards| == |b.cards| && a.rank > b.rank)
  }

  predicate GroupsOrdered(gs: seq<Group>)
  {
    forall i, j | 0 <= i < j < |gs| :: GroupBefore(gs[i], gs[j])
  }

  predicate GroupRanksDistinct(gs: seq<Group>)
  {
    forall i, j | 0 <= i < j < |gs| :: gs[i].rank != gs[j].rank
  }

  lemma OrderedCons(g: Group, gs: seq<Group>)
    requires GroupsOrdered(gs)
    requires forall h | h in multiset(gs) :: GroupBefore(g, h)
    ensures GroupsOrdered([g] + gs)
  {
    forall i, j | 0 <= i < j < |[g] + gs| ensures GroupBefore(([g] + gs)[i], ([g] + gs)[j]) {
      if i == 0 {
        assert ([g] + gs)[j] == gs[j - 1];
        assert gs[j - 1] in multiset(gs);
      }
    }
  }

  /** Inserts g before the first group it sorts before. */
  function InsertGroup(g: Group, gs: seq<Group>): (r: seq<Group>)
    ensures multiset(r) == multiset(gs) + multiset{g}
  {
    if gs == [] || GroupBefore(g, gs[0]) then [g] + gs
    else
      assert gs == [gs[0]] + gs[1..];
      [gs[0]] + InsertGroup(g, gs[1..])
  }

  lemma {:induction false} InsertGroupOrdered(g: Group, gs: seq<Group>)
    requires GroupsOrdered(gs)
    requires forall h | h in gs :: h.rank != g.rank
    ensures GroupsOrdered(InsertGroup(g, gs))
  {
    if gs == [] || GroupBefore(g, gs[0]) {
      forall h | h in multiset(gs) ensures GroupBefore(g, h) {
        var j :| 0 <= j < |gs| && gs[j] == h;
      }
      OrderedCons(g, gs);
    } else {
      assert gs == [gs[0]] + gs[1..];
      OrderedTail(gs);
      InsertGroupOrdered(g, gs[1..]);
      var rest := InsertGroup(g, gs[1..]);
      forall h | h in multiset(rest) ensures GroupBefore(gs[0], h) {
        if h != g {
          assert h in multiset(gs[1..]);
          var j :| 0 <= j < |gs[1..]| && gs[1..][j] == h;
          assert gs[j + 1] == h;
        }
      }
      OrderedCons(gs[0], rest);
    }
  }

  lemma OrderedTail(gs: seq<Group>)
    requires GroupsOrdered(gs) && gs != []
    ensures GroupsOrdered(gs[1..])
  {
    forall i, j | 0 <= i < j < |gs[1..]| ensures GroupBefore(gs[1..][i], gs[1..][j]) {
      assert gs[1..][i] == gs[i + 1] && gs[1..][j] == gs[j + 1];
    }
  }

  /** Sorts groups by the groupCardsByRank comparator (insertion sort). */
  function SortGroups(gs: seq<Group>): (r: seq<Group>)
    ensures multiset(r) == multiset(gs)
  {
    if gs == [] then []
    else
      assert gs == [gs[0]] + gs[1..];
      InsertGroup(gs[0], SortGroups(gs[1..]))
  }

  /** Groups of distinct ranks come out of SortGroups strictly ordered. */
  lemma {:induction false} SortGroupsOrdered(gs: seq<Group>)
    requires GroupRanksDistinct(gs)
    ensures GroupsOrdered(SortGroups(gs))
  {
    if gs != [] {
      assert gs == [gs[0]] + gs[1..];
      var tail := gs[1..];
      assert GroupRanksDistinct(tail) by {
        forall i, j | 0 <= i < j < |tail| ensures tail[i].rank != tail[j].rank {
          assert tail[i] == gs[i + 1] && tail[j] == gs[j + 1];
        }
      }
      SortGroupsOrdered(tail);
      var rest := SortGroups(tail);
      forall h | h in rest ensures h.rank != gs[0].rank {
        assert h in multiset(tail);
        var j :| 0 <= j < |tail| && tail[j] == h;
        assert gs[j + 1] == h;
      }
      InsertGroupOrdered(gs[0], rest);
    }
  }

  /** A card of rank k exists exactly when the cards of rank k are not empty. */
  lemma {:induction false} OfRankNonEmpty(cards: seq<Card>, k: int)
    ensures k in Ranks(cards) <==> |OfRank(cards, k)| > 0
  {
    if cards != [] {
      assert Ranks(cards) == [cards[0].rank] + Ranks(cards[1..]);
      OfRankNonEmpty(cards[1..], k);
    }
  }

  /** One group per listed rank. */
  function GroupsOf(cards: seq<Card>, ranks: seq<int>): (r: seq<Group>)
    ensures |r| == |ranks|
    ensures forall i | 0 <= i < |r| :: r[i] == Group(ranks[i], OfRank(cards, ranks[i]))
  {
    seq(|ranks|, i requires 0 <= i < |ranks| => Group(ranks[i], OfRank(cards, ranks[i])))
  }

  /**
   * groupCardsByRank: the cards partitioned by rank, one group per rank present,
   * ordered by size (largest first) and then by rank (highest first).
   */
  function GroupCardsByRank(cards: seq<Card>): (r: seq<Group>)
    ensures forall g | g in r :: g.cards == OfRank(cards, g.rank) && |g.cards| > 0 && g.rank in Ranks(cards)
    ensures forall k | k in Ranks(cards) :: exists g :: g in r && g.rank == k
    ensures GroupsOrdered(r)
  {
    var u := Dedup(Ranks(cards));
    GroupsPartition(cards, u);
    SortGroupsOrdered(GroupsOf(cards, u));
    SortGroups(GroupsOf(cards, u))
  }

  lemma GroupsPartition(cards: seq<Card>, u: seq<int>)
    requires u == Dedup(Ranks(cards))
    ensures GroupRanksDistinct(GroupsOf(cards, u))
    ensures forall g | g in SortGroups(GroupsOf(cards, u)) ::
      g.cards == OfRank(cards, g.rank) && |g.cards| > 0 && g.rank in Ranks(cards)
    ensures forall k | k in Ranks(cards) :: exists g :: g in SortGroups(GroupsOf(cards, u)) && g.rank == k
  {
    var gs := GroupsOf(cards, u);
    var r := SortGroups(gs);
    forall g | g in r ensures g.cards == OfRank(cards, g.rank) && |g.cards| > 0 && g.rank in Ranks(cards) {
      assert g in multiset(gs);
      var i :| 0 <= i < |gs| && gs[i] == g;
      assert u[i] in u;
      OfRankNonEmpty(cards, g.rank);
    }
    forall k | k in Ranks(cards) ensures exists g :: g in r && g.rank == k {
      var i :| 0 <= i < |u| && u[i] == k;
      assert gs[i] in multiset(r);
    }
  }

  // ---------------------------------------------------------------------------
  // evaluateHand
  // ---------------------------------------------------------------------------

  /**
   * The record evaluateHand returns, without its description and card list: the
   * category, the category's tie-break fields (0 where the category has none)
   * and the kickers.
   */
  datatype HandResult = HandResult(
    ranking: int,
    highCard: int,
    quadRank: int,
    tripRank: int,
    pairRank: int,
    highPair: int,
    lowPair: int,
    kickers: seq<int>)

  /** A record of the given category with no tie-break field set. */
  function Ranked(ranking: int, kickers: seq<int>): HandResult
  {
    HandResult(ranking, 0, 0, 0, 0, 0, 0, kickers)
  }

  /** `groups.flat().map(card => card.rank)`. */
  function FlatRanks(gs: seq<Group>): seq<int>
  {
    if gs == [] then [] else Ranks(gs[0].cards) + FlatRanks(gs[1..])
  }

  /** `s.slice(0, n)`. */
  function Take(s: seq<int>, n: nat): (r: seq<int>)
    ensures |r| <= n && |r| <= |s| && r == s[..|r|]
  {
    if |s| <= n then s else s[..n]
  }

  /** The straight's cards that also appear among the flush's cards. */
  function InFlush(straight: seq<Card>, flush: seq<Card>): (r: seq<Card>)
    ensures |r| <= |straight|
    ensures forall c | c in r :: c in straight && c in flush
    ensures forall c | c in straight && c in flush :: c in r
  {
    if straight == [] then []
    else (if straight[0] in flush then [straight[0]] else []) + InFlush(straight[1..], flush)
  }

  /**
   * evaluateHand on parsed cards: sort them, look for a flush, a straight and
   * the rank groups, then classify.
   */
  function Evaluate(all: seq<Card>): Option<HandResult>
  {
    var sorted := SortCards(all);
    Classify(sorted, IsFlush(sorted), IsStraight(sorted), GroupCardsByRank(sorted))
  }

  /**
   * The chain of category tests of evaluateHand, highest category first. None
   * where the JavaScript code reads a rank group that does not exist and throws.
   */
  function Classify(sorted: seq<Card>, flush: Option<seq<Card>>, straight: Option<seq<Card>>, groups: seq<Group>): Option<HandResult>
    requires flush.Some? ==> |flush.value| == 5
    requires straight.Some? ==> |straight.value| == 5
  {
    if flush.Some? && straight.Some? && straight.value[0].rank == ACE && straight.value[4].rank == 10 then
      Some(Ranked(ROYAL_FLUSH, []))
    else if flush.Some? && straight.Some? && |InFlush(straight.value, flush.value)| == 5 then
      Some(Ranked(STRAIGHT_FLUSH, []).(highCard := InFlush(straight.value, flush.value)[0].rank))
    else if |groups| == 0 then None
    else if |groups[0].cards| == 4 then
      if |groups| < 2 then None
      else Some(Ranked(FOUR_OF_A_KIND, [groups[1].rank]).(quadRank := groups[0].rank))
    else if |groups[0].cards| == 3 && |groups| < 2 then None
    else if |groups[0].cards| == 3 && |groups[1].cards| >= 2 then
      Some(Ranked(FULL_HOUSE, []).(tripRank := groups[0].rank, pairRank := groups[1].rank))
    else if flush.Some? then
      Some(Ranked(FLUSH, Ranks(flush.value)))
    else if straight.Some? then
      var s := straight.value;
      Some(Ranked(STRAIGHT, []).(highCard := if s[0].rank == ACE && s[4].rank == 2 then 5 else s[0].rank))
    else if |groups[0].cards| == 3 then
      Some(Ranked(THREE_OF_A_KIND, Take(FlatRanks(groups[1..]), 2)).(tripRank := groups[0].rank))
    else if |groups[0].cards| == 2 && |groups| < 2 then None
    else if |groups[0].cards| == 2 && |groups[1].cards| == 2 then
      var a := groups[0].rank;
      var b := groups[1].rank;
      Some(Ranked(TWO_PAIR, Take(FlatRanks(groups[2..]), 1)).(
        highPair := if a >= b then a else b,
        lowPair := if a <= b then a else b))
    else if |groups[0].cards| == 2 then
      Some(Ranked(PAIR, Take(FlatRanks(groups[1..]), 3)).(pairRank := groups[0].rank))
    else
      Some(Ranked(HIGH_CARD, Take(Ranks(sorted), 5)))
  }

  /** evaluateHand(playerCards, communityCards): parse all cards, then evaluate them. */
  function EvaluateHand(playerCards: seq<RawCard>, communityCards: seq<RawCard>): Option<HandResult>
  {
    match ParseAll(playerCards + communityCards)
    case None => None
    case Some(all) => Evaluate(all)
  }

  // ---------------------------------------------------------------------------
  // compareHands
  // ---------------------------------------------------------------------------

  /** `kickers[i] || 0` at i = 0. */
  function Head0(s: seq<int>): int
  {
    if s == [] then 0 else s[0]
  }

  function Tail(s: seq<int>): seq<int>
  {
    if s == [] then [] else s[1..]
  }

  /** The kicker loop: position by position, a missing kicker counted as 0. */
  function CompareKickers(a: seq<int>, b: seq<int>): int
    decreases |a| + |b|
  {
    if a == [] && b == [] then 0
    else if Head0(a) != Head0(b) then Head0(a) - Head0(b)
    else CompareKickers(Tail(a), Tail(b))
  }

  /**
   * compareHands: positive when a is the better hand, negative when b is, 0 on
   * a tie. The value is a difference of the first fields that differ.
   */
  function CompareHands(a: HandResult, b: HandResult): int
  {
    if a.ranking != b.ranking then a.ranking - b.ranking
    else if a.ranking == STRAIGHT_FLUSH || a.ranking == STRAIGHT then a.highCard - b.highCard
    else if a.ranking == FOUR_OF_A_KIND then
      if a.quadRank != b.quadRank then a.quadRank - b.quadRank else Head0(a.kickers) - Head0(b.kickers)
    else if a.ranking == FULL_HOUSE then
      if a.tripRank != b.tripRank then a.tripRank - b.tripRank else a.pairRank - b.pairRank
    else if a.ranking == THREE_OF_A_KIND && a.tripRank != b.tripRank then a.tripRank - b.tripRank
    else if a.ranking == TWO_PAIR && a.highPair != b.highPair then a.highPair - b.highPair
    else if a.ranking == TWO_PAIR && a.lowPair != b.lowPair then a.lowPair - b.lowPair
    else if a.ranking == PAIR && a.pairRank != b.pairRank then a.pairRank - b.pairRank
    else CompareKickers(a.kickers, b.kickers)
  }

  // ---------------------------------------------------------------------------
  // findWinners
  // ---------------------------------------------------------------------------

  /** A player at showdown: a login and the player's hole cards. */
  datatype Contender = Contender(login: string, cards: seq<RawCard>)

  /** A player with the evaluated hand. */
  datatype Winner = Winner(login: string, hand: HandResult)

  function Logins(ws: seq<Winner>): (r: seq<string>)
    ensures |r| == |ws| && forall i | 0 <= i < |ws| :: r[i] == ws[i].login
  {
    if ws == [] then [] else [ws[0].login] + Logins(ws[1..])
  }

  function ContenderLogins(players: seq<Contender>): (r: seq<string>)
    ensures |r| == |players| && forall i | 0 <= i < |players| :: r[i] == players[i].login
  {
    if players == [] then [] else [players[0].login] + ContenderLogins(players[1..])
  }

  /** Every player's evaluated hand; None as soon as one evaluation fails. */
  function EvaluateAll(players: seq<Contender>, communityCards: seq<RawCard>): (r: Option<seq<Winner>>)
    ensures r.Some? <==> forall i | 0 <= i < |players| :: EvaluateHand(players[i].cards, communityCards).Some?
    ensures r.Some? ==> |r.value| == |players|
    ensures r.Some? ==> forall i | 0 <= i < |players| ::
      r.value[i] == Winner(players[i].login, EvaluateHand(players[i].cards, communityCards).value)
  {
    if forall i | 0 <= i < |players| :: EvaluateHand(players[i].cards, communityCards).Some? then
      Some(seq(|players|, i requires 0 <= i < |players| =>
        Winner(players[i].login, EvaluateHand(players[i].cards, communityCards).value)))
    else None
  }

  /** The evaluated entries carry the players' logins, in order. */
  lemma EvaluateAllLogins(players: seq<Contender>, communityCards: seq<RawCard>)
    requires EvaluateAll(players, communityCards).Some?
    ensures Logins(EvaluateAll(players, communityCards).value) == ContenderLogins(players)
  {
    var w := EvaluateAll(players, communityCards).value;
    assert forall i | 0 <= i < |players| :: Logins(w)[i] == ContenderLogins(players)[i];
  }

  /**
   * The position of the head of the list after sorting best first with a stable
   * sort: the first hand that no hand beats.
   */
  function BestIndex(entries: seq<Winner>): (b: nat)
    requires |entries| > 0
    ensures b < |entries|
    ensures forall i | 0 <= i < |entries| :: CompareHands(entries[i].hand, entries[b].hand) <= 0
    ensures forall i | 0 <= i < b :: CompareHands(entries[i].hand, entries[b].hand) < 0
  {
    if |entries| == 1 then
      CompareReflexive(entries[0].hand);
      0
    else
      var init := entries[..|entries| - 1];
      var b := BestIndex(init);
      var last := entries[|entries| - 1];
      if CompareHands(last.hand, entries[b].hand) > 0 then
        CompareReflexive(last.hand);
        forall i | 0 <= i < |init| ensures CompareHands(entries[i].hand, last.hand) < 0 {
          assert entries[i] == init[i];
          CompareAntisymmetric(last.hand, entries[b].hand);
          CompareTransitive(entries[i].hand, entries[b].hand, last.hand);
        }
        |entries| - 1
      else
        assert forall i | 0 <= i < |init| :: entries[i] == init[i];
        b
  }

  /** The entries whose hand ties `best`, in their order. */
  function TiedWith(entries: seq<Winner>, best: HandResult): (r: seq<Winner>)
    ensures forall w | w in r :: w in entries && CompareHands(w.hand, best) == 0
    ensures forall e | e in entries && CompareHands(e.hand, best) == 0 :: e in r
  {
    if entries == [] then []
    else (if CompareHands(entries[0].hand, best) == 0 then [entries[0]] else []) + TiedWith(entries[1..], best)
  }

  /**
   * findWinners: evaluates every player, takes the best hand and returns every
   * player whose hand ties it, in the players' order. None when a hand cannot be
   * evaluated or there is no player.
   */
  function FindWinners(players: seq<Contender>, communityCards: seq<RawCard>): Option<seq<Winner>>
  {
    match EvaluateAll(players, communityCards)
    case None => None
    case Some(entries) =>
      if entries == [] then None
      else Some(TiedWith(entries, entries[BestIndex(entries)].hand))
  }

  // ---------------------------------------------------------------------------
  // compareHands is a total preorder
  // ---------------------------------------------------------------------------

  lemma {:induction false} KickersReflexive(a: seq<int>)
    ensures CompareKickers(a, a) == 0
  {
    if a != [] {
      KickersReflexive(Tail(a));
    }
  }

  lemma {:induction false} KickersAntisymmetric(a: seq<int>, b: seq<int>)
    ensures CompareKickers(a, b) == -CompareKickers(b, a)
    decreases |a| + |b|
  {
    if !(a == [] && b == []) && Head0(a) == Head0(b) {
      KickersAntisymmetric(Tail(a), Tail(b));
    }
  }

  lemma {:induction false} KickersTransitive(a: seq<int>, b: seq<int>, c: seq<int>)
    ensures CompareKickers(a, b) <= 0 && CompareKickers(b, c) <= 0 ==> CompareKickers(a, c) <= 0
    ensures CompareKickers(a, b) < 0 && CompareKickers(b, c) <= 0 ==> CompareKickers(a, c) < 0
    ensures CompareKickers(a, b) <= 0 && CompareKickers(b, c) < 0 ==> CompareKickers(a, c) < 0
    decreases |a| + |b| + |c|
  {
    if a == [] && b == [] && c == [] {
    } else if Head0(a) == Head0(b) && Head0(b) == Head0(c) {
      KickersTransitive(Tail(a), Tail(b), Tail(c));
      KickersEmpty(a, b);
      KickersEmpty(b, c);
      KickersEmpty(a, c);
    } else {
      KickersEmpty(a, b);
      KickersEmpty(b, c);
      KickersEmpty(a, c);
    }
  }

  /** Two lists that agree at the head compare as their tails. */
  lemma KickersEmpty(a: seq<int>, b: seq<int>)
    ensures Head0(a) == Head0(b) ==> CompareKickers(a, b) == CompareKickers(Tail(a), Tail(b))
    ensures Head0(a) != Head0(b) ==> CompareKickers(a, b) == Head0(a) - Head0(b)
  {
    if a == [] && b == [] {
      assert Tail(a) == [] && Tail(b) == [];
    }
  }

  /** compareHands(a, a) is 0. */
  lemma CompareReflexive(a: HandResult)
    ensures CompareHands(a, a) == 0
  {
    KickersReflexive(a.kickers);
  }

  /** compareHands(a, b) is minus compareHands(b, a). */
  lemma CompareAntisymmetric(a: HandResult, b: HandResult)
    ensures CompareHands(a, b) == -CompareHands(b, a)
  {
    KickersAntisymmetric(a.kickers, b.kickers);
  }

  /** "At most as good as" is transitive, and so is "worse than". */
  lemma CompareTransitive(a: HandResult, b: HandResult, c: HandResult)
    ensures CompareHands(a, b) <= 0 && CompareHands(b, c) <= 0 ==> CompareHands(a, c) <= 0
    ensures CompareHands(a, b) < 0 && CompareHands(b, c) <= 0 ==> CompareHands(a, c) < 0
    ensures CompareHands(a, b) <= 0 && CompareHands(b, c) < 0 ==> CompareHands(a, c) < 0
  {
    KickersTransitive(a.kickers, b.kickers, c.kickers);
  }

  // ---------------------------------------------------------------------------
  // distributePot
  // ---------------------------------------------------------------------------

  /** JavaScript's `%`: the remainder takes the sign of the dividend. */
  function JsRem(a: int, n: int): (r: int)
    requires n > 0
    ensures a >= 0 ==> 0 <= r < n
    ensures a < 0 ==> -n < r <= 0
    ensures (a - r) % n == 0
  {
    if a >= 0 then
      assert a == (a / n) * n + a % n;
      ModUnique(a - a % n, a / n, 0, n);
      a % n
    else
      var q := (-a) / n;
      assert -a == q * n + (-a) % n;
      ModUnique(a + (-a) % n, -q, 0, n);
      -((-a) % n)
  }


  /** The share of the winner at position i among n: floor(pot / n), plus one for the first `pot % n`. */
  function ShareAt(pot: int, n: nat, i: nat): int
    requires n > 0
  {
    pot / n + (if i < JsRem(pot, n) then 1 else 0)
  }

  /** The distribution after the first k winners have been assigned their shares. */
  function Distribution(winners: seq<string>, pot: int, k: nat): map<string, int>
    requires 0 < |winners| && k <= |winners|
  {
    if k == 0 then map[]
    else Distribution(winners, pot, k - 1)[winners[k - 1] := ShareAt(pot, |winners|, k - 1)]
  }

  /** distributePot: each winner's share by login; no winners, no shares. */
  function DistributePot(winners: seq<string>, pot: int): map<string, int>
  {
    if winners == [] then map[] else Distribution(winners, pot, |winners|)
  }
}
