/**
 * The in-memory player: a balance outside the table, a stack at the table,
 * the cards held, and the small chip operations on them.
 */
module PlayerModel {
  import opened Wrappers
  import opened DeckModel

  /** Every field of a player, to say what an operation changes. */
  datatype PlayerView = PlayerView(
    login: string,
    password: string,
    balance: int,
    stack: int,
    biggestGain: int,
    biggestLose: int,
    session: Option<string>,
    cards: seq<Card>,
    friends: seq<string>)

  class Player {
    var login: string
    var password: string
    var balance: int
    var stack: int
    var biggestGain: int
    var biggestLose: int
    var session: Option<string>
    var cards: seq<Card>
    var friends: seq<string>

    function View(): PlayerView
      reads this
    {
      PlayerView(login, password, balance, stack, biggestGain, biggestLose, session, cards, friends)
    }

    /** Chips are never negative. */
    predicate Valid()
      reads this
    {
      balance >= 0 && stack >= 0
    }

    /** A new player: nothing on balance or stack, no session, no cards, no friends. */
    constructor(login: string, password: string)
      ensures this.login == login && this.password == password
      ensures balance == 0 && stack == 0 && biggestGain == 0 && biggestLose == 0
      ensures session.None? && cards == [] && friends == []
      ensures Valid()
    {
      this.login := login;
      this.password := password;
      balance := 0;
      stack := 0;
      biggestGain := 0;
      biggestLose := 0;
      session := None;
      cards := [];
      friends := [];
    }

    /**
     * The stack setter: a new stack no larger than the balance is taken from
     * the balance; a larger one is ignored.
     */
    method SetStack(newStack: int)
      modifies this
      ensures newStack <= old(balance) ==> balance == old(balance) - newStack && stack == newStack
      ensures newStack > old(balance) ==> View() == old(View())
      ensures View() == old(View()).(balance := balance, stack := stack)
      ensures old(Valid()) && newStack >= 0 ==> Valid()
      ensures old(stack) == 0 ==> balance + stack == old(balance)
    {
      if newStack <= balance {
        balance := balance - newStack;
        stack := newStack;
      }
    }

    /** receiveCard: the card goes at the end of the hand. */
    method ReceiveCard(card: Card)
      modifies this
      ensures View() == old(View()).(cards := old(cards) + [card])
    {
      cards := cards + [card];
    }

    /** clearCards: the hand is emptied. */
    method ClearCards()
      modifies this
      ensures View() == old(View()).(cards := [])
    {
      cards := [];
    }

    /** pass: gives up the hand. */
    method Pass()
      modifies this
      ensures View() == old(View()).(cards := [])
    {
      ClearCards();
    }

    /** check: always allowed, nothing changes. */
    method Check() returns (ok: bool)
      ensures ok
    {
      ok := true;
    }

    /**
     * call: pays `amount` from the stack when it covers it; otherwise the
     * player passes, keeping the stack.
     */
    method Call(amount: int) returns (ok: bool)
      modifies this
      ensures ok <==> old(stack) >= amount
      ensures ok ==> View() == old(View()).(stack := old(stack) - amount)
      ensures !ok ==> View() == old(View()).(cards := [])
      ensures old(Valid()) ==> Valid()
    {
      if stack >= amount {
        stack := stack - amount;
        ok := true;
      } else {
        Pass();
        ok := false;
      }
    }

    /**
     * raise: pays `amount` from the stack when it covers it and answers true;
     * otherwise answers nothing and changes nothing.
     */
    method Raise(amount: int) returns (ok: Option<bool>)
      modifies this
      ensures old(stack) >= amount ==> ok == Some(true) && View() == old(View()).(stack := old(stack) - amount)
      ensures old(stack) < amount ==> ok.None? && View() == old(View())
      ensures old(Valid()) ==> Valid()
    {
      if stack >= amount {
        stack := stack - amount;
        ok := Some(true);
      } else {
        ok := None;
      }
    }

    /** allIn: the whole stack goes in. */
    method AllIn()
      modifies this
      ensures View() == old(View()).(stack := 0)
      ensures old(Valid()) ==> Valid()
    {
      stack := 0;
    }

    /** leaveSession: the player is in no session. */
    method LeaveSession()
      modifies this
      ensures View() == old(View()).(session := None)
    {
      session := None;
    }
  }
}
