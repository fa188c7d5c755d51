/**
 * The 52-card deck: built suit by suit with running ids, shuffled, and dealt
 * from the end.
 */
module DeckModel {
  import opened Wrappers

  /** Hearts, diamonds, clubs, spades, in build order. */
  const Suits: seq<string> := ["\U{2665}", "\U{2666}", "\U{2663}", "\U{2660}"]

  const Values: seq<string> := ["2", "3", "4", "5", "6", "7", "8", "9", "10", "J", "Q", "K", "A"]

  const DeckSize := 52

  /** A playing card: suit symbol, value label and the id it was built with. */
  datatype Card = Card(suit: string, value: string, id: int)

  /** The card the nested build loops create with id `id`. */
  function FullDeckCard(id: nat): Card
    requires id < DeckSize
  {
    Card(Suits[id / 13], Values[id % 13], id)
  }

  /** The unshuffled deck in build order. */
  function FullDeck(): (r: seq<Card>)
    ensures |r| == DeckSize
    ensures forall i | 0 <= i < DeckSize :: r[i] == FullDeckCard(i)
  {
    seq(DeckSize, i requires 0 <= i < DeckSize => FullDeckCard(i))
  }

  /**
   * The nested loops of the constructor: for each suit, for each value, a card
   * with the next id.
   */
  method BuildCards() returns (cards: seq<Card>)
    ensures cards == FullDeck()
  {
    cards := [];
    var cardId := 0;
    for s := 0 to |Suits|
      invariant cardId == 13 * s
      invariant cards == FullDeck()[..cardId]
    {
      for v := 0 to |Values|
        invariant cardId == 13 * s + v
        invariant cards == FullDeck()[..cardId]
      {
        assert FullDeck()[cardId] == Card(Suits[s], Values[v], cardId);
        assert FullDeck()[..cardId + 1] == FullDeck()[..cardId] + [FullDeck()[cardId]];
        cards := cards + [Card(Suits[s], Values[v], cardId)];
        cardId := cardId + 1;
      }
    }
  }

  /** Position 13 * s + v of the built deck holds suit s and value v. */
  lemma CardAt(s: nat, v: nat)
    requires s < |Suits| && v < |Values|
    ensures 13 * s + v < DeckSize
    ensures FullDeck()[13 * s + v] == Card(Suits[s], Values[v], 13 * s + v)
  {
    var i := 13 * s + v;
    assert i / 13 == s && i % 13 == v;
  }

  /** Two positions of the built deck differ in suit or in value. */
  lemma CardsDiffer(i: nat, j: nat)
    requires i < DeckSize && j < DeckSize && i != j
    ensures FullDeck()[i].suit != FullDeck()[j].suit || FullDeck()[i].value != FullDeck()[j].value
  {
    if i / 13 != j / 13 {
      SuitsDistinct(i / 13, j / 13);
    } else {
      assert i % 13 != j % 13;
      ValuesDistinct(i % 13, j % 13);
    }
  }

  /**
   * Every suit and value pair is in the built deck exactly once, at position
   * 13 * suit + value, and the ids are the positions.
   */
  lemma FullDeckExactlyOnce()
    ensures forall s, v | 0 <= s < |Suits| && 0 <= v < |Values| ::
      13 * s + v < DeckSize && FullDeck()[13 * s + v] == Card(Suits[s], Values[v], 13 * s + v)
    ensures forall i, j | 0 <= i < DeckSize && 0 <= j < DeckSize && i != j ::
      FullDeck()[i].suit != FullDeck()[j].suit || FullDeck()[i].value != FullDeck()[j].value
    ensures forall i | 0 <= i < DeckSize :: FullDeck()[i].id == i
  {
    forall s, v | 0 <= s < |Suits| && 0 <= v < |Values|
      ensures 13 * s + v < DeckSize && FullDeck()[13 * s + v] == Card(Suits[s], Values[v], 13 * s + v)
    {
      CardAt(s, v);
    }
    forall i, j | 0 <= i < DeckSize && 0 <= j < DeckSize && i != j
      ensures FullDeck()[i].suit != FullDeck()[j].suit || FullDeck()[i].value != FullDeck()[j].value
    {
      CardsDiffer(i, j);
    }
  }

  lemma SuitsDistinct(a: nat, b: nat)
    requires a < |Suits| && b < |Suits| && a != b
    ensures Suits[a] != Suits[b]
  {
    assert Suits[a][0] != Suits[b][0];
  }

  lemma ValuesDistinct(a: nat, b: nat)
    requires a < |Values| && b < |Values| && a != b
    ensures Values[a] != Values[b]
  {
    assert Values[a] != Values[b] by {
      if |Values[a]| == |Values[b]| {
        assert Values[a][0] != Values[b][0];
      }
    }
  }

  /** No card occurs twice in the built deck. */
  lemma FullDeckCounts(c: Card)
    ensures multiset(FullDeck())[c] <= 1
  {
    var d := FullDeck();
    if 0 <= c.id < DeckSize && d[c.id] == c {
      assert forall i | 0 <= i < DeckSize && i != c.id :: d[i] != c;
      CountOnlyAt(d, c, c.id);
    } else {
      assert forall i | 0 <= i < DeckSize :: d[i] != c;
      assert c !in d;
    }
  }

  /** A value that occurs only at position k of s occurs once. */
  lemma {:induction false} CountOnlyAt(s: seq<Card>, c: Card, k: nat)
    requires k < |s| && s[k] == c
    requires forall i | 0 <= i < |s| && i != k :: s[i] != c
    ensures multiset(s)[c] == 1
  {
    assert s == s[..k] + [c] + s[k + 1..];
    assert c !in s[..k];
    assert c !in s[k + 1..];
  }

  /** The deck object: the cards still to be dealt, the top of the deck last. */
  class Deck {
    var cards: seq<Card>

    /** The cards left are distinct cards of the full deck. */
    ghost predicate Valid()
      reads this
    {
      multiset(cards) <= multiset(FullDeck())
    }

    /**
     * Builds the 52 cards and shuffles them. The random comparator sort only
     * permutes the cards; which permutation it produces is left open.
     */
    constructor()
      ensures Valid()
      ensures |cards| == DeckSize
      ensures multiset(cards) == multiset(FullDeck())
    {
      var built := BuildCards();
      var shuffled :| multiset(shuffled) == multiset(built);
      assert |shuffled| == |multiset(shuffled)| == |built|;
      cards := shuffled;
    }

    /**
     * getCard: pops the last card; on an empty deck there is none and the deck
     * stays empty. A dealt card is no longer in the deck.
     */
    method GetCard() returns (c: Option<Card>)
      requires Valid()
      modifies this
      ensures Valid()
      ensures old(cards) == [] ==> c.None? && cards == []
      ensures old(cards) != [] ==>
        c == Some(old(cards)[|old(cards)| - 1]) && cards == old(cards)[..|old(cards)| - 1]
      ensures c.Some? ==> c.value in multiset(FullDeck()) && c.value !in cards
    {
      if cards == [] {
        c := None;
      } else {
        var top := cards[|cards| - 1];
        assert cards == cards[..|cards| - 1] + [top];
        FullDeckCounts(top);
        cards := cards[..|cards| - 1];
        c := Some(top);
        assert multiset(old(cards)) == multiset(cards) + multiset{top};
      }
    }
  }
}
