/**
 * The betting engine of one table: seats, blinds, turns, the four betting
 * rounds and the settlement of the pot. One `Game` object is the in-memory
 * record a session keeps while a round is being played.
 */
module GameLogic {
  import opened Wrappers
  import opened Ledger
  import opened Remainders
  import HE = HandEvaluator
  import HP = HandProperties

  datatype Phase = Preflop | Flop | Turn | River | Showdown

  /** The four actions a player may send; any other name is refused. */
  datatype Action = Fold | Check | Call | Raise | Other(name: string)

  /** The refusals, in the order the checks are made. */
  datatype GameError =
    | NotInGame
    | NotYourTurn
    | CannotAct
    | CheckNotAllowed
    | BadRaiseAmount
    | RaiseTooSmall(minimum: int)
    | UnknownAction
    | NotEnoughPlayers

  /**
   * The session settings a round reads. A blind of 0 stands for a blind that
   * was never set.
   */
  datatype SessionConfig = SessionConfig(smallBlind: int, bigBlind: int, minBet: int, startBalance: int)

  predicate ConfigValid(cfg: SessionConfig)
  {
    cfg.smallBlind >= 0 && cfg.bigBlind >= 0 && cfg.minBet >= 0 && cfg.startBalance >= 0
  }

  /** An unset small blind falls back to the minimum bet. */
  function SmallBlindOf(cfg: SessionConfig): int
  {
    if cfg.smallBlind != 0 then cfg.smallBlind else cfg.minBet
  }

  /** An unset big blind falls back to twice the minimum bet. */
  function BigBlindOf(cfg: SessionConfig): int
  {
    if cfg.bigBlind != 0 then cfg.bigBlind else cfg.minBet * 2
  }

  function Min(a: int, b: int): int
  {
    if a <= b then a else b
  }

  // ---------------------------------------------------------------------------
  // Phases
  // ---------------------------------------------------------------------------

  /** How many betting rounds are still to come after this one. */
  function PhasesLeft(p: Phase): nat
  {
    match p
    case Preflop => 3
    case Flop => 2
    case Turn => 1
    case _ => 0
  }

  /** How many community cards are face up during a phase. */
  function CommunityCount(p: Phase): nat
  {
    match p
    case Preflop => 0
    case Flop => 3
    case Turn => 4
    case _ => 5
  }

  /** A phase before the river has a successor betting round. */
  predicate HasNextRound(p: Phase)
  {
    p == Preflop || p == Flop || p == Turn
  }

  /**
   * The phase after a betting round: one round fewer is left, and the flop
   * shows three cards, the turn and the river one more each.
   */
  function NextPhase(p: Phase): (r: Phase)
    requires HasNextRound(p)
    ensures PhasesLeft(r) + 1 == PhasesLeft(p)
    ensures r != Showdown
    ensures CommunityCount(r) == (if p == Preflop then 3 else CommunityCount(p) + 1)
  {
    match p
    case Preflop => Flop
    case Flop => Turn
    case Turn => River
  }

  // ---------------------------------------------------------------------------
  // Seating
  // ---------------------------------------------------------------------------

  /**
   * The players a round is dealt to: everybody on the roster except those
   * whose recorded stack is negative. A missing or zero stack keeps the player
   * (it is refilled).
   */
  function KeepForRound(roster: seq<string>, stacks: map<string, int>): (r: seq<string>)
    ensures forall p {:trigger p in r} :: p in r <==> p in roster && (p !in stacks || stacks[p] >= 0)
    ensures |r| <= |roster|
  {
    if roster == [] then []
    else
      var rest := KeepForRound(roster[1..], stacks);
      assert forall p :: p in roster <==> p == roster[0] || p in roster[1..];
      assert forall p :: p in [roster[0]] + rest <==> p == roster[0] || p in rest;
      if roster[0] !in stacks || stacks[roster[0]] >= 0 then [roster[0]] + rest else rest
  }

  /** Nobody is seated twice when nobody is on the roster twice. */
  lemma {:induction false} KeepForRoundDistinct(roster: seq<string>, stacks: map<string, int>)
    requires Distinct(roster)
    ensures Distinct(KeepForRound(roster, stacks))
  {
    if roster != [] {
      var rest := KeepForRound(roster[1..], stacks);
      assert Distinct(roster[1..]) && roster[0] !in roster[1..];
      KeepForRoundDistinct(roster[1..], stacks);
      assert roster[0] !in rest;
      if roster[0] !in stacks || stacks[roster[0]] >= 0 {
        var r := [roster[0]] + rest;
        forall i, j | 0 <= i < j < |r| ensures r[i] != r[j] {
          if i == 0 {
            assert r[j] == rest[j - 1] && r[j] in rest;
          } else {
            assert r[i] == rest[i - 1] && r[j] == rest[j - 1];
          }
        }
      }
    }
  }

  /** With no negative stack recorded, nobody on the roster is left out. */
  lemma {:induction false} KeepForRoundKeepsAll(roster: seq<string>, stacks: map<string, int>)
    requires forall p | p in stacks :: stacks[p] >= 0
    ensures KeepForRound(roster, stacks) == roster
  {
    if roster != [] {
      KeepForRoundKeepsAll(roster[1..], stacks);
    }
  }

  /** The stack a seated player starts the round with: a missing or zero stack is refilled. */
  function Refilled(stacks: map<string, int>, p: string, startBalance: int): int
  {
    if p !in stacks || stacks[p] == 0 then startBalance else stacks[p]
  }

  // ---------------------------------------------------------------------------
  // Active players and the end of a betting round
  // ---------------------------------------------------------------------------

  /** The players still in the hand, in seat order: those who have not folded. */
  function ActivePlayers(players: seq<string>, folded: set<string>): (r: seq<string>)
    ensures forall p {:trigger p in r} :: p in r <==> p in players && p !in folded
    ensures |r| <= |players|
  {
    if players == [] then []
    else
      var rest := ActivePlayers(players[1..], folded);
      assert forall p :: p in players <==> p == players[0] || p in players[1..];
      assert forall p :: p in [players[0]] + rest <==> p == players[0] || p in rest;
      if players[0] !in folded then [players[0]] + rest else rest
  }

  /** The active players of distinct players are distinct. */
  lemma {:induction false} ActiveDistinct(players: seq<string>, folded: set<string>)
    requires Distinct(players)
    ensures Distinct(ActivePlayers(players, folded))
  {
    if players != [] {
      var rest := ActivePlayers(players[1..], folded);
      assert Distinct(players[1..]) && players[0] !in players[1..];
      ActiveDistinct(players[1..], folded);
      assert players[0] !in rest;
      if players[0] !in folded {
        var r := [players[0]] + rest;
        forall i, j | 0 <= i < j < |r| ensures r[i] != r[j] {
          if i == 0 {
            assert r[j] == rest[j - 1] && r[j] in rest;
          } else {
            assert r[i] == rest[i - 1] && r[j] == rest[j - 1];
          }
        }
      }
    }
  }

  /** Nobody has folded yet: every player is active. */
  lemma {:induction false} ActiveWithoutFolds(players: seq<string>)
    ensures ActivePlayers(players, {}) == players
  {
    if players != [] {
      ActiveWithoutFolds(players[1..]);
    }
  }

  /** A fold by an active player leaves exactly one active player fewer. */
  lemma {:induction false} FoldRemovesOne(players: seq<string>, folded: set<string>, p: string)
    requires Distinct(players) && p in players && p !in folded
    ensures |ActivePlayers(players, folded + {p})| + 1 == |ActivePlayers(players, folded)|
  {
    assert Distinct(players[1..]);
    if players[0] == p {
      assert p !in players[1..];
      FoldOfAbsent(players[1..], folded, p);
    } else {
      FoldRemovesOne(players[1..], folded, p);
    }
  }

  /** Folding a login that is not seated changes nothing. */
  lemma {:induction false} FoldOfAbsent(players: seq<string>, folded: set<string>, p: string)
    requires p !in players
    ensures ActivePlayers(players, folded + {p}) == ActivePlayers(players, folded)
  {
    if players != [] {
      FoldOfAbsent(players[1..], folded, p);
    }
  }

  /**
   * Every active player has finished betting: all in, or has acted and matched
   * the current bet.
   */
  function AllSettled(active: seq<string>, acted: set<string>, allIn: set<string>,
                      bets: map<string, int>, currentBet: int): (r: bool)
    ensures r <==> forall p | p in active :: p in allIn || (p in acted && Get(bets, p) >= currentBet)
  {
    if active == [] then true
    else
      var p := active[0];
      if p !in acted && p !in allIn then false
      else if Get(bets, p) < currentBet && p !in allIn then false
      else AllSettled(active[1..], acted, allIn, bets, currentBet)
  }

  /**
   * A betting round is over when at most one player is left in the hand, or
   * when every active player is all in or has acted and matched the bet.
   */
  function BettingRoundComplete(active: seq<string>, acted: set<string>, allIn: set<string>,
                                bets: map<string, int>, currentBet: int): (r: bool)
    ensures r <==> (|active| <= 1 ||
      forall p | p in active :: p in allIn || (p in acted && Get(bets, p) >= currentBet))
  {
    if |active| <= 1 then true else AllSettled(active, acted, allIn, bets, currentBet)
  }

  // ---------------------------------------------------------------------------
  // The actions offered to a player
  // ---------------------------------------------------------------------------

  /**
   * The actions offered to a player with `bet` in front and `stack` behind:
   * fold always; check when nothing is owed, otherwise call when the stack
   * covers what is owed; raise when the stack is more than what is owed.
   */
  function AvailableActions(bet: int, stack: int, currentBet: int): (r: seq<Action>)
    ensures |r| >= 1 && r[0] == Fold
    ensures Check in r <==> currentBet - bet == 0
    ensures Call in r <==> currentBet - bet != 0 && stack >= currentBet - bet
    ensures Raise in r <==> stack > currentBet - bet
    ensures !(Check in r && Call in r)
    ensures forall a | a in r :: !a.Other?
  {
    var callAmount := currentBet - bet;
    [Fold]
      + (if callAmount == 0 then [Check] else if stack >= callAmount then [Call] else [])
      + (if stack > callAmount then [Raise] else [])
  }

  // ---------------------------------------------------------------------------
  // The first player of a betting round
  // ---------------------------------------------------------------------------

  /** The seat `j` places after `start` holds a player who has neither folded nor gone all in. */
  predicate EligibleAt(players: seq<string>, folded: set<string>, allIn: set<string>, start: nat, j: nat)
    requires |players| > 0
  {
    var idx := (start + j) % |players|;
    players[idx] !in folded && players[idx] !in allIn
  }

  /**
   * Scans the seats from `start + j` on, once round the table: the first seat
   * of a player who can still bet, or seat 0 when there is none.
   */
  function FirstEligible(players: seq<string>, folded: set<string>, allIn: set<string>, start: nat, j: nat): (r: nat)
    requires |players| > 0
    ensures r < |players|
    ensures (forall k | j <= k < |players| :: !EligibleAt(players, folded, allIn, start, k)) ==> r == 0
    ensures (exists k | j <= k < |players| :: EligibleAt(players, folded, allIn, start, k)) ==>
      exists k | j <= k < |players| ::
        EligibleAt(players, folded, allIn, start, k) && r == (start + k) % |players| &&
        forall m | j <= m < k :: !EligibleAt(players, folded, allIn, start, m)
    decreases |players| - j
  {
    if j >= |players| then 0
    else if EligibleAt(players, folded, allIn, start, j) then (start + j) % |players|
    else FirstEligible(players, folded, allIn, start, j + 1)
  }

  /**
   * The first player to act after the preflop: the first seat from the small
   * blind on whose player can still bet, or seat 0.
   */
  function FirstPlayerForPhase(players: seq<string>, folded: set<string>, allIn: set<string>, smallBlindPosition: nat): (r: nat)
    requires |players| > 0
    ensures r < |players|
    ensures (exists i | 0 <= i < |players| :: players[i] !in folded && players[i] !in allIn) ==>
      players[r] !in folded && players[r] !in allIn
    ensures (forall i | 0 <= i < |players| :: players[i] in folded || players[i] in allIn) ==> r == 0
  {
    EligibleSeatReached(players, folded, allIn, smallBlindPosition);
    FirstEligible(players, folded, allIn, smallBlindPosition, 0)
  }

  /** A scan once round the table from any start meets every seat. */
  lemma EligibleSeatReached(players: seq<string>, folded: set<string>, allIn: set<string>, start: nat)
    requires |players| > 0
    ensures (exists i | 0 <= i < |players| :: players[i] !in folded && players[i] !in allIn) ==>
      exists k | 0 <= k < |players| :: EligibleAt(players, folded, allIn, start, k)
    ensures (forall i | 0 <= i < |players| :: players[i] in folded || players[i] in allIn) ==>
      forall k | 0 <= k < |players| :: !EligibleAt(players, folded, allIn, start, k)
  {
    var n := |players|;
    if exists i | 0 <= i < n :: players[i] !in folded && players[i] !in allIn {
      var i :| 0 <= i < n && players[i] !in folded && players[i] !in allIn;
      var k := SeatDistance(start, i, n);
      assert EligibleAt(players, folded, allIn, start, k);
    } else {
      forall k | 0 <= k < n
        ensures !EligibleAt(players, folded, allIn, start, k)
      {
        var idx := (start + k) % n;
        assert players[idx] in folded || players[idx] in allIn;
      }
    }
  }

  /** The scan stops at the first eligible seat `k` places on. */
  lemma FirstEligibleAt(players: seq<string>, folded: set<string>, allIn: set<string>, start: nat, k: nat)
    requires |players| > 0 && k < |players|
    requires EligibleAt(players, folded, allIn, start, k)
    requires forall m | 0 <= m < k :: !EligibleAt(players, folded, allIn, start, m)
    ensures FirstEligible(players, folded, allIn, start, 0) == (start + k) % |players|
  {
    var r := FirstEligible(players, folded, allIn, start, 0);
    var k' :| 0 <= k' < |players| && EligibleAt(players, folded, allIn, start, k') &&
      r == (start + k') % |players| && forall m | 0 <= m < k' :: !EligibleAt(players, folded, allIn, start, m);
  }

  /** A scan that starts at an eligible seat stays there. */
  lemma FirstEligibleHere(players: seq<string>, folded: set<string>, allIn: set<string>, start: nat)
    requires start < |players| && players[start] !in folded && players[start] !in allIn
    ensures FirstEligible(players, folded, allIn, start, 0) == start
  {
    ModUnique(start, 0, start, |players|);
    assert EligibleAt(players, folded, allIn, start, 0);
    FirstEligibleAt(players, folded, allIn, start, 0);
  }

  /** A betting round that is not over has a player who can still bet. */
  lemma UnsettledHasEligible(players: seq<string>, folded: set<string>, allIn: set<string>,
                             acted: set<string>, bets: map<string, int>, currentBet: int)
    requires !BettingRoundComplete(ActivePlayers(players, folded), acted, allIn, bets, currentBet)
    ensures exists i | 0 <= i < |players| :: players[i] !in folded && players[i] !in allIn
  {
    var p :| p in ActivePlayers(players, folded) && !(p in allIn || (p in acted && Get(bets, p) >= currentBet));
    var i :| 0 <= i < |players| && players[i] == p;
  }

  /** Seat `i` lies `k` places after seat `start`, for some k below n. */
  lemma SeatDistance(start: nat, i: nat, n: nat) returns (k: nat)
    requires i < n
    ensures k < n && (start + k) % n == i
  {
    var q := start / n;
    var r := start % n;
    assert start == q * n + r;
    if r <= i {
      k := i - r;
      ModUnique(start + k, q, i, n);
    } else {
      k := i + n - r;
      assert start + k == (q + 1) * n + i;
      ModUnique(start + k, q + 1, i, n);
    }
  }

  // ---------------------------------------------------------------------------
  // Refused actions
  // ---------------------------------------------------------------------------

  /**
   * Why an action of a player with `bet` in front and `stack` behind is
   * refused, if it is: a check while something is owed, a raise by no positive
   * amount, a raise that covers less than the call while the stack could pay
   * more, or an unknown action. The minimum reported is twice what is owed.
   */
  function Refusal(action: Action, amount: int, bet: int, stack: int, currentBet: int): Option<GameError>
  {
    match action
    case Fold => None
    case Check => if currentBet - bet != 0 then Some(CheckNotAllowed) else None
    case Call => None
    case Raise =>
      if amount <= 0 then Some(BadRaiseAmount)
      else
        var minRaise := currentBet * 2 - bet;
        var totalBet := currentBet + amount;
        var toPay := totalBet - bet;
        if toPay > stack then None
        else if totalBet < minRaise && stack > toPay then Some(RaiseTooSmall(minRaise - bet))
        else None
    case Other(_) => Some(UnknownAction)
  }

  /**
   * Fold and call are never refused; a check is refused exactly when something
   * is owed; a positive raise is refused exactly when it is smaller than what is
   * owed and the player would still have chips left, and then the minimum
   * reported is twice what is owed.
   */
  lemma RefusalCases(amount: int, bet: int, stack: int, currentBet: int)
    ensures Refusal(Fold, amount, bet, stack, currentBet).None?
    ensures Refusal(Call, amount, bet, stack, currentBet).None?
    ensures Refusal(Check, amount, bet, stack, currentBet).None? <==> bet == currentBet
    ensures amount <= 0 ==> Refusal(Raise, amount, bet, stack, currentBet) == Some(BadRaiseAmount)
    ensures amount > 0 ==>
      (Refusal(Raise, amount, bet, stack, currentBet).Some? <==>
        amount < currentBet - bet && currentBet + amount - bet < stack)
    ensures amount > 0 && Refusal(Raise, amount, bet, stack, currentBet).Some? ==>
      Refusal(Raise, amount, bet, stack, currentBet) == Some(RaiseTooSmall(2 * (currentBet - bet)))
  {
  }

  // ---------------------------------------------------------------------------
  // Loops over the seats
  // ---------------------------------------------------------------------------

  /** The stacks every seated player starts the round with. */
  function SeatedStacks(players: seq<string>, stacks: map<string, int>, startBalance: int): map<string, int>
  {
    map p | p in players :: Refilled(stacks, p, startBalance)
  }

  /**
   * The seating loop of a new round: every seated player gets a zero bet and,
   * when the recorded stack is missing or zero, the starting balance. Other
   * recorded stacks are kept; nobody else has a bet.
   */
  method SeatPlayers(active: seq<string>, stacks: map<string, int>, startBalance: int)
    returns (seated: map<string, int>, bets: map<string, int>)
    ensures forall p | p in active :: p in seated && seated[p] == Refilled(stacks, p, startBalance)
    ensures forall p | p in active :: p in bets && bets[p] == 0
    ensures forall p | p !in active :: (p in seated <==> p in stacks) && (p in stacks ==> seated[p] == stacks[p])
    ensures forall p :: p in bets <==> p in active
  {
    seated := stacks;
    bets := map[];
    for i := 0 to |active|
      invariant forall p | p in active[..i] :: p in seated && seated[p] == Refilled(stacks, p, startBalance)
      invariant forall p | p in active[..i] :: p in bets && bets[p] == 0
      invariant forall p | p !in active[..i] :: (p in seated <==> p in stacks) && (p in stacks ==> seated[p] == stacks[p])
      invariant forall p :: p in bets <==> p in active[..i]
    {
      var login := active[i];
      assert active[..i + 1] == active[..i] + [login];
      bets := bets[login := 0];
      if login !in seated || seated[login] == 0 {
        seated := seated[login := startBalance];
      }
    }
    assert active[..|active|] == active;
  }

  /** The loop that clears the bets of every seated player between betting rounds. */
  method ZeroBets(players: seq<string>, bets: map<string, int>) returns (r: map<string, int>)
    ensures forall p | p in players :: p in r && r[p] == 0
    ensures forall p | p !in players :: (p in r <==> p in bets) && (p in bets ==> r[p] == bets[p])
  {
    r := bets;
    for i := 0 to |players|
      invariant forall p | p in players[..i] :: p in r && r[p] == 0
      invariant forall p | p !in players[..i] :: (p in r <==> p in bets) && (p in bets ==> r[p] == bets[p])
    {
      assert players[..i + 1] == players[..i] + [players[i]];
      r := r[players[i] := 0];
    }
    assert players[..|players|] == players;
  }

  /**
   * The loop that pays the winners: each payee's stack grows by its share.
   * Paying distinct seated players adds exactly the sum of their shares to the
   * chips of the table.
   */
  method Credit(players: seq<string>, stacks: map<string, int>, payees: seq<string>, shares: map<string, int>)
    returns (r: map<string, int>)
    requires Distinct(players) && Distinct(payees)
    requires forall q | q in payees :: q in players
    ensures forall p :: Get(r, p) == Get(stacks, p) + (if p in payees then Get(shares, p) else 0)
    ensures forall p :: p in r <==> p in stacks || p in payees
    ensures Sum(players, r) == Sum(players, stacks) + Sum(payees, shares)
  {
    r := stacks;
    for i := 0 to |payees|
      invariant forall p :: Get(r, p) == Get(stacks, p) + (if p in payees[..i] then Get(shares, p) else 0)
      invariant forall p :: p in r <==> p in stacks || p in payees[..i]
      invariant Sum(players, r) == Sum(players, stacks) + Sum(payees[..i], shares)
    {
      var w := payees[i];
      assert payees[..i + 1] == payees[..i] + [w];
      assert w !in payees[..i];
      var next := r[w := Get(r, w) + Get(shares, w)];
      assert Sum(players, next) == Sum(players, stacks) + Sum(payees[..i + 1], shares) by {
        assert w in players;
        SumUpdate(players, r, w, Get(r, w) + Get(shares, w));
        SumAppend(payees[..i], [w], shares);
      }
      r := next;
    }
    assert payees[..|payees|] == payees;
  }

  // ---------------------------------------------------------------------------
  // Settlement
  // ---------------------------------------------------------------------------

  /** The hands compared at showdown: each active player with the hole cards dealt, or none. */
  function ContendersOf(active: seq<string>, holeCards: map<string, seq<HE.RawCard>>): (r: seq<HE.Contender>)
    ensures |r| == |active|
    ensures forall i | 0 <= i < |r| :: r[i].login == active[i]
  {
    seq(|active|, i requires 0 <= i < |active| =>
      HE.Contender(active[i], if active[i] in holeCards then holeCards[active[i]] else []))
  }

  /** The winners found at showdown: none when a hand cannot be evaluated. */
  function FoundWinners(active: seq<string>, holeCards: map<string, seq<HE.RawCard>>,
                        communityCards: seq<HE.RawCard>): Option<seq<HE.Winner>>
  {
    HE.FindWinners(ContendersOf(active, holeCards), communityCards)
  }

  /** Winners, when found, are at least one, distinct, and all still in the hand. */
  predicate FoundAmong(active: seq<string>, found: Option<seq<HE.Winner>>)
  {
    found.Some? ==>
      |found.value| >= 1 && Distinct(HE.Logins(found.value)) &&
      forall q | q in HE.Logins(found.value) :: q in active
  }

  /** The winners found among distinct active players are distinct active players, at least one. */
  lemma WinnersAmongActive(active: seq<string>, holeCards: map<string, seq<HE.RawCard>>,
                           communityCards: seq<HE.RawCard>)
    requires Distinct(active)
    ensures FoundAmong(active, FoundWinners(active, holeCards, communityCards))
  {
    var contenders := ContendersOf(active, holeCards);
    if HE.FindWinners(contenders, communityCards).Some? {
      assert HE.ContenderLogins(contenders) == active;
      HP.WinnersAmongPlayers(contenders, communityCards);
    }
  }

  /**
   * Who is paid at the end of the hand: the last player in it; otherwise the
   * winners found, or every active player when the hands cannot be evaluated.
   */
  function PayeesOf(active: seq<string>, found: Option<seq<HE.Winner>>): seq<string>
  {
    if |active| == 1 then active
    else
      match found
      case Some(ws) => HE.Logins(ws)
      case None => active
  }

  /**
   * What each payee receives: the whole pot for a last player, otherwise the
   * pot split evenly with the odd chips going to the first payees.
   */
  function PayoutsOf(active: seq<string>, found: Option<seq<HE.Winner>>, pot: int): map<string, int>
  {
    if |active| == 1 then map[active[0] := pot]
    else HE.DistributePot(PayeesOf(active, found), pot)
  }

  /**
   * The payees are distinct players still in the hand, at least one, and
   * their payouts add up to the pot.
   */
  lemma PayeesSound(active: seq<string>, found: Option<seq<HE.Winner>>, pot: int)
    requires Distinct(active) && |active| >= 1 && pot >= 0 && FoundAmong(active, found)
    ensures |PayeesOf(active, found)| >= 1 && Distinct(PayeesOf(active, found))
    ensures forall q | q in PayeesOf(active, found) :: q in active
    ensures Sum(PayeesOf(active, found), PayoutsOf(active, found, pot)) == pot
  {
    if |active| == 1 {
      assert Sum(active[1..], map[active[0] := pot]) == 0;
    } else {
      HP.DistributePotTotal(PayeesOf(active, found), pot);
    }
  }

  // ---------------------------------------------------------------------------
  // The game record
  // ---------------------------------------------------------------------------

  /** Everything a game record holds, to say what an operation changes. */
  datatype Snapshot = Snapshot(
    players: seq<string>,
    stacks: map<string, int>,
    bets: map<string, int>,
    pot: int,
    currentBet: int,
    phase: Phase,
    currentPlayerIndex: int,
    smallBlindPosition: int,
    bigBlindPosition: int,
    foldedPlayers: set<string>,
    allInPlayers: set<string>,
    playersActed: set<string>,
    lastRaiser: Option<string>,
    holeCards: map<string, seq<HE.RawCard>>,
    board: seq<HE.RawCard>,
    communityCards: seq<HE.RawCard>,
    live: bool)

  /**
   * The record of one table. `live` is false when the session has no round in
   * progress (the record was never made or was discarded at the end of a
   * round). `board` holds the five community cards of the round, of which the
   * first `CommunityCount(phase)` are face up.
   */
  class Game {
    var players: seq<string>
    var stacks: map<string, int>
    var bets: map<string, int>
    var pot: int
    var currentBet: int
    var phase: Phase
    var currentPlayerIndex: int
    var smallBlindPosition: int
    var bigBlindPosition: int
    var foldedPlayers: set<string>
    var allInPlayers: set<string>
    var playersActed: set<string>
    var lastRaiser: Option<string>
    var holeCards: map<string, seq<HE.RawCard>>
    var board: seq<HE.RawCard>
    var communityCards: seq<HE.RawCard>
    var live: bool

    function View(): Snapshot
      reads this
    {
      Snapshot(players, stacks, bets, pot, currentBet, phase, currentPlayerIndex,
               smallBlindPosition, bigBlindPosition, foldedPlayers, allInPlayers, playersActed,
               lastRaiser, holeCards, board, communityCards, live)
    }

    /** The players who have not folded, in seat order. */
    function Active(): seq<string>
      reads this`players, this`foldedPlayers
    {
      ActivePlayers(players, foldedPlayers)
    }

    /** The chips of the round: the seated players' stacks and the pot. */
    function Chips(): int
      reads this`players, this`stacks, this`pot
    {
      Sum(players, stacks) + pot
    }

    /**
     * The invariant of a round in progress: at least two distinct players, each
     * with a stack and a bet, no negative stack or bet, the positions on the
     * table, a pot holding at least the bets, the revealed cards a prefix of the
     * board that matches the phase, and someone still in the hand.
     */
    ghost predicate Valid()
      reads this
    {
      live ==>
        |players| >= 2 && Distinct(players) &&
        (forall p | p in players :: p in stacks && p in bets && bets[p] >= 0) &&
        (forall p | p in stacks :: stacks[p] >= 0) &&
        0 <= currentPlayerIndex < |players| &&
        0 <= smallBlindPosition < |players| && 0 <= bigBlindPosition < |players| &&
        currentBet >= 0 && pot >= Sum(players, bets) &&
        phase != Phase.Showdown && |board| == 5 && communityCards == board[..CommunityCount(phase)] &&
        |Active()| >= 1
    }

    /** Between operations a round in progress has two players in the hand. */
    ghost predicate Playable()
      reads this
    {
      live ==> |Active()| >= 2
    }

    /** The player whose turn it is can act. */
    ghost predicate Ready()
      reads this
    {
      live ==>
        0 <= currentPlayerIndex < |players| &&
        players[currentPlayerIndex] !in foldedPlayers && players[currentPlayerIndex] !in allInPlayers
    }

    /** `login` passes the checks made before an action: seated, on turn, still able to bet. */
    predicate CanAct(login: string)
      reads this
    {
      live && login in players && 0 <= currentPlayerIndex < |players| &&
      login == players[currentPlayerIndex] && login !in foldedPlayers && login !in allInPlayers
    }

    /**
     * No chip was made or lost: while the round goes on the stacks and the pot
     * hold `before`; once it is settled the stacks alone do.
     */
    ghost predicate Conserved(before: int)
      reads this
    {
      if live then Chips() == before else Sum(players, stacks) == before
    }

    /** The stacks a new round starts from: none when no round is in progress. */
    function BaseStacks(): map<string, int>
      reads this`live, this`stacks
    {
      if live then stacks else map[]
    }

    /** The small blind position a new round moves on from. */
    function BasePosition(): int
      reads this`live, this`smallBlindPosition
    {
      if live then smallBlindPosition else 0
    }

    /** Some seated player has neither folded nor gone all in. */
    predicate AnyEligible()
      reads this`players, this`foldedPlayers, this`allInPlayers
    {
      exists i | 0 <= i < |players| :: players[i] !in foldedPlayers && players[i] !in allInPlayers
    }

    /** The seat the search for the next turn stops at when it starts from seat `start`. */
    function NextEligible(start: nat): (r: nat)
      reads this`players, this`foldedPlayers, this`allInPlayers
      requires |players| > 0
      ensures r < |players|
    {
      FirstEligible(players, foldedPlayers, allInPlayers, start, 0)
    }

    /** The betting round is over; see `BettingRoundComplete`. */
    predicate Settled()
      reads this`players, this`foldedPlayers, this`playersActed, this`allInPlayers, this`bets, this`currentBet
    {
      BettingRoundComplete(ActivePlayers(players, foldedPlayers), playersActed, allInPlayers, bets, currentBet)
    }

    /**
     * The table after some play from `before`, whose chips were `chips`: a
     * valid record with the same seats whose turn seat can act, no chip made
     * or lost, no betting round undone and no fold taken back.
     */
    ghost predicate Follows(before: Snapshot, chips: int)
      reads this
    {
      Valid() && Playable() && Ready() && players == before.players && Conserved(chips) &&
      PhasesLeft(phase) <= PhasesLeft(before.phase) && before.foldedPlayers <= foldedPlayers
    }

    /**
     * The turn of `before` went to the first seat from `start` on whose player
     * can bet (see `FirstEligible`): that player is awaited when connected,
     * and has been folded otherwise.
     */
    ghost predicate TurnGiven(before: Snapshot, start: nat, connected: set<string>)
      reads this
    {
      |before.players| > 0 &&
      var e := FirstEligible(before.players, before.foldedPlayers, before.allInPlayers, start, 0);
      (before.players[e] in connected ==> View() == before.(currentPlayerIndex := e)) &&
      (before.players[e] !in connected ==> before.players[e] in foldedPlayers)
    }

    /**
     * The positions of a round whose small blind moved on from seat `start`:
     * the small blind one seat after it, the big blind two seats after the
     * small blind, and the seat after the big blind on turn.
     */
    predicate SeatedFrom(start: int)
      reads this`players, this`smallBlindPosition, this`bigBlindPosition, this`currentPlayerIndex
    {
      |players| > 0 &&
      smallBlindPosition == (start + 1) % |players| &&
      bigBlindPosition == (smallBlindPosition + 2) % |players| &&
      currentPlayerIndex == (bigBlindPosition + 1) % |players|
    }

    /** The one player left in the hand of `before` took its pot, and the round is over. */
    ghost predicate WonUncontested(before: Snapshot)
      reads this
    {
      var active := ActivePlayers(before.players, before.foldedPlayers);
      |active| == 1 && View() == before.(stacks := stacks, live := false) &&
      stacks == before.stacks[active[0] := Get(before.stacks, active[0]) + before.pot]
    }

    /**
     * The showdown of `before` paid each payee of its hand its payout (see
     * `PayeesOf` and `PayoutsOf`), and the round is over.
     */
    ghost predicate ShownDown(before: Snapshot)
      reads this
    {
      var active := ActivePlayers(before.players, before.foldedPlayers);
      var found := FoundWinners(active, before.holeCards, before.communityCards);
      var payees, payouts := PayeesOf(active, found), PayoutsOf(active, found, before.pot);
      View() == before.(stacks := stacks, phase := Phase.Showdown, live := false) &&
      forall p :: Get(stacks, p) == Get(before.stacks, p) + (if p in payees then Get(payouts, p) else 0)
    }

    /**
     * The betting round of `before` was closed: a later betting round was
     * reached, or, after the river, the showdown paid the payees.
     */
    ghost predicate PhaseClosed(before: Snapshot)
      reads this
    {
      (HasNextRound(before.phase) ==> PhasesLeft(phase) < PhasesLeft(before.phase)) &&
      (!HasNextRound(before.phase) ==> ShownDown(before))
    }

    /** The record of a session that has no round yet. */
    constructor()
      ensures !live && players == [] && stacks == map[] && bets == map[]
      ensures pot == 0 && currentBet == 0 && currentPlayerIndex == 0 && phase == Preflop
      ensures smallBlindPosition == 0 && bigBlindPosition == 0
      ensures foldedPlayers == {} && allInPlayers == {} && playersActed == {} && lastRaiser.None?
      ensures holeCards == map[] && communityCards == []
      ensures Valid() && Playable()
    {
      players := [];
      stacks := map[];
      bets := map[];
      pot := 0;
      currentBet := 0;
      phase := Preflop;
      currentPlayerIndex := 0;
      smallBlindPosition := 0;
      bigBlindPosition := 0;
      foldedPlayers := {};
      allInPlayers := {};
      playersActed := {};
      lastRaiser := None;
      holeCards := map[];
      board := [];
      communityCards := [];
      live := false;
    }

    /**
     * A new round: the roster without negative stacks is seated when it has at
     * least two players, otherwise nothing changes. The small blind moves one
     * seat on and the big blind sits two seats after it (the same seat when two
     * play); missing or zero stacks are refilled; the blinds are posted, each
     * capped by the stack and putting an emptied stack all in; the big blind
     * sets the bet to match; the seat after the big blind is on turn, and then
     * the turn is looked for.
     */
    method StartRound(roster: seq<string>, cfg: SessionConfig, deal: map<string, seq<HE.RawCard>>,
                      board: seq<HE.RawCard>, connected: set<string>) returns (err: Option<GameError>)
      requires Valid() && Playable() && ConfigValid(cfg) && Distinct(roster) && |board| == 5
      modifies this
      ensures |KeepForRound(roster, old(BaseStacks()))| < 2 ==>
        err == Some(NotEnoughPlayers) && View() == old(View())
      ensures |KeepForRound(roster, old(BaseStacks()))| >= 2 ==>
        err.None? && players == KeepForRound(roster, old(BaseStacks())) &&
        Conserved(Sum(players, SeatedStacks(players, old(BaseStacks()), cfg.startBalance)))
      ensures Valid() && Playable() && (err.None? ==> Ready())
    {
      var sbAmount, bbAmount;
      err, sbAmount, bbAmount := PostBlinds(roster, cfg, deal, board);
      if err.None? {
        NextTurn(connected);
      }
    }

    /**
     * The seating and the blinds of a new round, up to the first turn. The
     * amounts posted for the small and the big blind are returned.
     */
    method PostBlinds(roster: seq<string>, cfg: SessionConfig, deal: map<string, seq<HE.RawCard>>,
                      board: seq<HE.RawCard>) returns (err: Option<GameError>, sbAmount: int, bbAmount: int)
      requires Valid() && ConfigValid(cfg) && Distinct(roster) && |board| == 5
      modifies this
      ensures |KeepForRound(roster, old(BaseStacks()))| < 2 ==>
        err == Some(NotEnoughPlayers) && View() == old(View())
      ensures |KeepForRound(roster, old(BaseStacks()))| >= 2 ==> err.None? && Valid() && Playable() && live
      ensures err.None? ==> SeatedFrom(old(BasePosition()))
      ensures err.None? ==> players == KeepForRound(roster, old(BaseStacks()))
      ensures err.None? ==>
        var base := old(BaseStacks());
        var sbPlayer := players[smallBlindPosition];
        var bbPlayer := players[bigBlindPosition];
        sbAmount == Min(SmallBlindOf(cfg), Refilled(base, sbPlayer, cfg.startBalance)) &&
        bbAmount == Min(BigBlindOf(cfg), Refilled(base, bbPlayer, cfg.startBalance) -
                                         (if bbPlayer == sbPlayer then sbAmount else 0)) &&
        (forall p | p in players ::
          stacks[p] == Refilled(base, p, cfg.startBalance) - (if p == sbPlayer then sbAmount else 0)
                                                           - (if p == bbPlayer then bbAmount else 0)) &&
        (forall p | p in players ::
          bets[p] == (if p == bbPlayer then bbAmount else if p == sbPlayer then sbAmount else 0)) &&
        (forall p :: p in allInPlayers <==> (p == sbPlayer || p == bbPlayer) && stacks[p] == 0)
      ensures err.None? ==>
        pot == sbAmount + bbAmount && currentBet == bbAmount &&
        foldedPlayers == {} && playersActed == {} && lastRaiser.None? && phase == Preflop &&
        communityCards == [] && holeCards == deal && this.board == board
      ensures err.None? ==> Chips() == Sum(players, SeatedStacks(players, old(BaseStacks()), cfg.startBalance))
    {
      var base := BaseStacks();
      var start := BasePosition();
      var active := KeepForRound(roster, base);
      if |active| < 2 {
        err, sbAmount, bbAmount := Some(NotEnoughPlayers), 0, 0;
      } else {
        KeepForRoundDistinct(roster, base);
        sbAmount, bbAmount := OpenRound(active, base, start, cfg, deal, board);
        err := None;
      }
    }

    /** Seats `active` and posts the blinds; see `Seat` and `Blinds`. */
    method OpenRound(active: seq<string>, base: map<string, int>, start: int, cfg: SessionConfig,
                     deal: map<string, seq<HE.RawCard>>, board: seq<HE.RawCard>) returns (sbAmount: int, bbAmount: int)
      requires |active| >= 2 && Distinct(active) && start >= 0 && ConfigValid(cfg) && |board| == 5
      requires forall p | p in base :: base[p] >= 0
      modifies this
      ensures Valid() && Playable() && live && players == active
      ensures SeatedFrom(start)
      ensures var sbPlayer := players[smallBlindPosition];
        var bbPlayer := players[bigBlindPosition];
        sbAmount == Min(SmallBlindOf(cfg), Refilled(base, sbPlayer, cfg.startBalance)) &&
        bbAmount == Min(BigBlindOf(cfg), Refilled(base, bbPlayer, cfg.startBalance) -
                                         (if bbPlayer == sbPlayer then sbAmount else 0)) &&
        (forall p | p in players ::
          stacks[p] == Refilled(base, p, cfg.startBalance) - (if p == sbPlayer then sbAmount else 0)
                                                           - (if p == bbPlayer then bbAmount else 0)) &&
        (forall p | p in players ::
          bets[p] == (if p == bbPlayer then bbAmount else if p == sbPlayer then sbAmount else 0)) &&
        (forall p :: p in allInPlayers <==> (p == sbPlayer || p == bbPlayer) && stacks[p] == 0)
      ensures pot == sbAmount + bbAmount && currentBet == bbAmount &&
        foldedPlayers == {} && playersActed == {} && lastRaiser.None? && phase == Preflop &&
        communityCards == [] && holeCards == deal && this.board == board
      ensures Chips() == Sum(players, SeatedStacks(players, base, cfg.startBalance))
    {
      Seat(active, base, start, cfg.startBalance, deal, board);
      ghost var seated := stacks;
      ghost var sb, bb := smallBlindPosition, bigBlindPosition;
      sbAmount, bbAmount := Blinds(cfg);
      assert smallBlindPosition == sb && bigBlindPosition == bb;
      assert forall p | p in players :: seated[p] == Refilled(base, p, cfg.startBalance);
    }

    /**
     * Seats `active` for a new round: the small blind one seat after `start`,
     * the big blind two seats after the small blind, the seat after the big
     * blind on turn; missing or zero stacks refilled, no bets, nothing folded,
     * all in, acted or revealed.
     */
    method Seat(active: seq<string>, base: map<string, int>, start: int, startBalance: int,
                deal: map<string, seq<HE.RawCard>>, board: seq<HE.RawCard>)
      requires |active| >= 2 && Distinct(active) && start >= 0 && startBalance >= 0 && |board| == 5
      requires forall p | p in base :: base[p] >= 0
      modifies this
      ensures Valid() && Playable() && live
      ensures players == active && smallBlindPosition == (start + 1) % |active| &&
              bigBlindPosition == (smallBlindPosition + 2) % |active| &&
              currentPlayerIndex == (bigBlindPosition + 1) % |active|
      ensures forall p | p in players :: stacks[p] == Refilled(base, p, startBalance) && bets[p] == 0
      ensures pot == 0 && phase == Preflop && foldedPlayers == {} && allInPlayers == {} &&
              playersActed == {} && lastRaiser.None? && communityCards == [] &&
              holeCards == deal && this.board == board
      ensures Chips() == Sum(active, SeatedStacks(active, base, startBalance))
    {
      var n := |active|;
      var sb := (start + 1) % n;
      var bb := (sb + 2) % n;
      var seated, zeroBets := SeatPlayers(active, base, startBalance);
      SumAgree(active, seated, SeatedStacks(active, base, startBalance));
      ResetHand(deal, board);
      SeatRound(active, seated, zeroBets, sb, bb);
    }

    /**
     * Posts the blinds on a freshly seated table: the small blind, capped by
     * its stack, then the big blind, capped by what is left of its stack (the
     * same stack when both blinds fall on one seat, whose bet is then the big
     * blind alone). The big blind is the bet to match.
     */
    method Blinds(cfg: SessionConfig) returns (sbAmount: int, bbAmount: int)
      requires Valid() && live && ConfigValid(cfg)
      requires pot == 0 && allInPlayers == {} && forall p | p in players :: bets[p] == 0
      modifies this
      ensures Valid() && live && Chips() == old(Chips())
      ensures unchanged(this`players, this`smallBlindPosition, this`bigBlindPosition, this`currentPlayerIndex,
                        this`phase, this`foldedPlayers, this`playersActed, this`lastRaiser, this`holeCards,
                        this`board, this`communityCards)
      ensures var sbPlayer := players[smallBlindPosition];
              var bbPlayer := players[bigBlindPosition];
              sbAmount == Min(SmallBlindOf(cfg), old(stacks[sbPlayer])) &&
              bbAmount == Min(BigBlindOf(cfg), old(stacks[bbPlayer]) - (if bbPlayer == sbPlayer then sbAmount else 0)) &&
              (forall p | p in players ::
                stacks[p] == old(stacks[p]) - (if p == sbPlayer then sbAmount else 0)
                                            - (if p == bbPlayer then bbAmount else 0)) &&
              (forall p | p in players ::
                bets[p] == (if p == bbPlayer then bbAmount else if p == sbPlayer then sbAmount else 0)) &&
              (forall p :: p in allInPlayers <==> (p == sbPlayer || p == bbPlayer) && stacks[p] == 0)
      ensures pot == sbAmount + bbAmount && currentBet == bbAmount
    {
      var sbPlayer := players[smallBlindPosition];
      var bbPlayer := players[bigBlindPosition];
      sbAmount := Min(SmallBlindOf(cfg), stacks[sbPlayer]);
      PostBlind(sbPlayer, sbAmount);
      bbAmount := Min(BigBlindOf(cfg), stacks[bbPlayer]);
      PostBlind(bbPlayer, bbAmount);
      SetCurrentBet(bbAmount);
    }

    /**
     * The record of a freshly seated round, before the blinds: the seating part,
     * on a record whose round state is already reset.
     */
    method SeatRound(active: seq<string>, seated: map<string, int>, zeroBets: map<string, int>,
                     sb: nat, bb: nat)
      requires |active| >= 2 && Distinct(active) && sb < |active| && bb < |active|
      requires forall p | p in active :: p in seated && p in zeroBets && zeroBets[p] == 0
      requires forall p | p in seated :: seated[p] >= 0
      requires phase == Preflop && foldedPlayers == {} && communityCards == [] && |board| == 5 && currentBet >= 0
      modifies this
      ensures players == active && stacks == seated && bets == zeroBets && pot == 0 && live
      ensures currentPlayerIndex == (bb + 1) % |active| && smallBlindPosition == sb && bigBlindPosition == bb
      ensures unchanged(this`currentBet, this`phase, this`foldedPlayers, this`allInPlayers, this`playersActed,
                        this`lastRaiser, this`holeCards, this`board, this`communityCards)
      ensures Valid() && Playable() && Chips() == Sum(active, seated)
    {
      SumZero(active, zeroBets);
      assert |ActivePlayers(active, foldedPlayers)| == |active| by {
        ActiveWithoutFolds(active);
      }
      players, stacks, bets, pot, live := active, seated, zeroBets, 0, true;
      currentPlayerIndex, smallBlindPosition, bigBlindPosition := (bb + 1) % |active|, sb, bb;
    }

    /** The round state of a new hand: nothing bet, folded, all in, acted or revealed. */
    method ResetHand(deal: map<string, seq<HE.RawCard>>, board: seq<HE.RawCard>)
      modifies this
      ensures currentBet == 0 && phase == Preflop && foldedPlayers == {} && allInPlayers == {}
      ensures playersActed == {} && lastRaiser == None && holeCards == deal && this.board == board && communityCards == []
    {
      currentBet := 0;
      phase := Preflop;
      foldedPlayers := {};
      allInPlayers := {};
      playersActed := {};
      lastRaiser := None;
      holeCards := deal;
      this.board := board;
      communityCards := [];
    }

    /**
     * A blind of `amount` from player `p`: taken from the stack, recorded as the
     * bet (replacing any earlier one) and added to the pot; an emptied stack is
     * all in.
     */
    method PostBlind(p: string, amount: int)
      requires Valid() && live && p in players && 0 <= amount <= stacks[p]
      modifies this
      ensures stacks == old(stacks)[p := old(stacks[p]) - amount] && bets == old(bets)[p := amount]
      ensures pot == old(pot) + amount
      ensures allInPlayers == if old(stacks[p]) == amount then old(allInPlayers) + {p} else old(allInPlayers)
      ensures unchanged(this`players, this`smallBlindPosition, this`bigBlindPosition, this`currentPlayerIndex,
                        this`currentBet, this`phase, this`foldedPlayers, this`playersActed, this`lastRaiser,
                        this`holeCards, this`board, this`communityCards, this`live)
      ensures Valid() && Chips() == old(Chips())
    {
      TakeBlind(p, amount);
      if stacks[p] == 0 {
        allInPlayers := allInPlayers + {p};
      }
    }

    /** Moves a blind from the stack to the pot; it replaces the player's bet. */
    method TakeBlind(p: string, amount: int)
      requires Valid() && live && p in players && 0 <= amount <= stacks[p]
      modifies this
      ensures stacks == old(stacks)[p := old(stacks[p]) - amount] && bets == old(bets)[p := amount]
      ensures pot == old(pot) + amount
      ensures unchanged(this`players, this`smallBlindPosition, this`bigBlindPosition, this`currentPlayerIndex,
                        this`currentBet, this`phase, this`foldedPlayers, this`allInPlayers, this`playersActed,
                        this`lastRaiser, this`holeCards, this`board, this`communityCards, this`live)
      ensures Valid() && Chips() == old(Chips())
    {
      SumUpdate(players, stacks, p, stacks[p] - amount);
      SumUpdate(players, bets, p, amount);
      pot, stacks, bets := pot + amount, stacks[p := stacks[p] - amount], bets[p := amount];
    }

    /** The bet to match. */
    method SetCurrentBet(amount: int)
      requires Valid() && live && amount >= 0
      modifies this
      ensures currentBet == amount
      ensures unchanged(this`players, this`stacks, this`bets, this`pot, this`smallBlindPosition,
                        this`bigBlindPosition, this`currentPlayerIndex, this`phase, this`foldedPlayers,
                        this`allInPlayers, this`playersActed, this`lastRaiser, this`holeCards, this`board,
                        this`communityCards, this`live)
      ensures Valid()
    {
      currentBet := amount;
    }

    /**
     * An action sent by `login`. Refused with nothing changed when no round is
     * in progress or the player is not seated, when it is not the player's
     * turn, or when the player has folded or is all in. Otherwise the action is
     * applied; a refused action leaves only the mark that the player acted. An
     * accepted action moves the game on to the next turn, the next betting
     * round or the settlement, keeping every chip.
     */
    method HandleAction(login: string, action: Action, amount: int, connected: set<string>)
      returns (err: Option<GameError>)
      requires Valid() && Playable()
      modifies this
      ensures !old(live) || login !in old(players) ==> err == Some(NotInGame) && View() == old(View())
      ensures old(live) && login in old(players) && login != old(players[currentPlayerIndex]) ==>
        err == Some(NotYourTurn) && View() == old(View())
      ensures old(live) && login in old(players) && login == old(players[currentPlayerIndex]) &&
              (login in old(foldedPlayers) || login in old(allInPlayers)) ==>
        err == Some(CannotAct) && View() == old(View())
      ensures old(CanAct(login)) ==>
        err == Refusal(action, amount, old(bets[login]), old(stacks[login]), old(currentBet)) &&
        (err.Some? ==> View() == old(View()).(playersActed := old(playersActed) + {login}))
      ensures Valid() && Playable()
      ensures err.Some? ==> (Ready() <==> old(Ready()))
      ensures err.None? ==> Ready() && players == old(players) && Conserved(old(Chips()))
    {
      if !live || login !in players {
        return Some(NotInGame);
      }
      if login != players[currentPlayerIndex] {
        return Some(NotYourTurn);
      }
      if login in foldedPlayers || login in allInPlayers {
        return Some(CannotAct);
      }
      err := ApplyAction(login, action, amount);
      if err.None? {
        AfterAction(connected);
      }
    }

    /**
     * The switch of an action by the player on turn. The player is marked as
     * having acted before anything is refused, so a refused action leaves that
     * mark and nothing else. A fold leaves the hand; a check changes nothing
     * else; a call and a raise move chips as `CallAction` and `RaiseAction`
     * say.
     */
    method ApplyAction(login: string, action: Action, amount: int) returns (err: Option<GameError>)
      requires Valid() && Playable() && CanAct(login)
      modifies this
      ensures err == Refusal(action, amount, old(bets[login]), old(stacks[login]), old(currentBet))
      ensures err.Some? ==> View() == old(View()).(playersActed := old(playersActed) + {login})
      ensures action == Fold ==>
        View() == old(View()).(playersActed := old(playersActed) + {login},
                               foldedPlayers := old(foldedPlayers) + {login})
      ensures action == Check ==> View() == old(View()).(playersActed := old(playersActed) + {login})
      ensures action == Call || (action == Raise && err.None?) ==> foldedPlayers == old(foldedPlayers)
      ensures players == old(players)
      ensures Valid() && live
      ensures Chips() == old(Chips())
      ensures Get(stacks, login) + Get(bets, login) == old(Get(stacks, login) + Get(bets, login))
      ensures action == Fold ==> |Active()| + 1 == old(|Active()|)
      ensures action != Fold ==> Active() == old(Active())
    {
      var stack := stacks[login];
      var bet := bets[login];
      var callAmount := currentBet - bet;
      MarkActed(login);
      err := None;
      match action {
        case Fold =>
          FoldRemovesOne(players, foldedPlayers, login);
          foldedPlayers := foldedPlayers + {login};
        case Check =>
          if callAmount != 0 {
            err := Some(CheckNotAllowed);
          }
        case Call =>
          CallAction(login);
        case Raise =>
          err := RaiseAction(login, amount);
        case Other(_) =>
          err := Some(UnknownAction);
      }
    }

    /**
     * A call: pays what is owed when the stack covers it, otherwise the whole
     * stack goes in and the player is all in. What is owed can be negative
     * after an all-in raise lowered the current bet; the call then takes chips
     * back from the pot.
     */
    method CallAction(login: string)
      requires Valid() && live && login in players
      modifies this
      ensures old(currentBet - bets[login] > stacks[login]) ==>
        View() == old(View()).(stacks := old(stacks)[login := 0],
                               bets := old(bets)[login := old(bets[login] + stacks[login])],
                               pot := old(pot + stacks[login]),
                               allInPlayers := old(allInPlayers) + {login})
      ensures old(currentBet - bets[login] <= stacks[login]) ==>
        View() == old(View()).(stacks := old(stacks)[login := old(stacks[login] - (currentBet - bets[login]))],
                               bets := old(bets)[login := old(currentBet)],
                               pot := old(pot + (currentBet - bets[login])))
      ensures Valid() && Chips() == old(Chips())
      ensures Get(stacks, login) + Get(bets, login) == old(Get(stacks, login) + Get(bets, login))
      ensures players == old(players) && foldedPlayers == old(foldedPlayers)
    {
      var stack := stacks[login];
      var bet := bets[login];
      var callAmount := currentBet - bet;
      if callAmount > stack {
        Commit(login, 0, bet + stack);
        MarkAllIn(login);
      } else {
        Commit(login, stack - callAmount, bet + callAmount);
      }
    }

    /**
     * A raise by `amount` over the current bet. Refused when the amount is not
     * positive, or when it is smaller than the call and the stack could pay
     * more. A raise the stack cannot cover puts the whole stack in.
     */
    method RaiseAction(login: string, amount: int) returns (err: Option<GameError>)
      requires Valid() && live && login in players
      modifies this
      ensures err == Refusal(Raise, amount, old(bets[login]), old(stacks[login]), old(currentBet))
      ensures err.Some? ==> View() == old(View())
      ensures err.None? && old(currentBet + amount - bets[login] > stacks[login]) ==>
        View() == old(View()).(playersActed := {login},
                               currentBet := old(bets[login] + stacks[login]),
                               stacks := old(stacks)[login := 0],
                               bets := old(bets)[login := old(bets[login] + stacks[login])],
                               pot := old(pot + stacks[login]),
                               allInPlayers := old(allInPlayers) + {login},
                               lastRaiser := Some(login))
      ensures err.None? && old(currentBet + amount - bets[login] <= stacks[login]) ==>
        View() == old(View()).(playersActed := {login},
                               currentBet := old(currentBet) + amount,
                               stacks := old(stacks)[login := old(stacks[login] - (currentBet + amount - bets[login]))],
                               bets := old(bets)[login := old(currentBet) + amount],
                               pot := old(pot + (currentBet + amount - bets[login])),
                               lastRaiser := Some(login))
      ensures Valid() && Chips() == old(Chips())
      ensures Get(stacks, login) + Get(bets, login) == old(Get(stacks, login) + Get(bets, login))
      ensures players == old(players) && foldedPlayers == old(foldedPlayers)
    {
      var stack := stacks[login];
      var bet := bets[login];
      if amount <= 0 {
        return Some(BadRaiseAmount);
      }
      var minRaise := currentBet * 2 - bet;
      var totalBet := currentBet + amount;
      var toPay := totalBet - bet;
      if toPay > stack {
        RaiseAllIn(login);
        err := None;
      } else if totalBet < minRaise && stack > toPay {
        err := Some(RaiseTooSmall(minRaise - bet));
      } else {
        RaiseTo(login, totalBet);
        err := None;
      }
    }

    /** A raise the stack cannot cover: the whole stack goes in and becomes the bet to match. */
    method RaiseAllIn(login: string)
      requires Valid() && live && login in players
      modifies this
      ensures View() == old(View()).(playersActed := {login},
                                     currentBet := old(bets[login] + stacks[login]),
                                     stacks := old(stacks)[login := 0],
                                     bets := old(bets)[login := old(bets[login] + stacks[login])],
                                     pot := old(pot + stacks[login]),
                                     allInPlayers := old(allInPlayers) + {login},
                                     lastRaiser := Some(login))
      ensures Valid() && live && Chips() == old(Chips())
    {
      var total := bets[login] + stacks[login];
      Commit(login, 0, total);
      MarkAllIn(login);
      Reopen(login, total);
    }

    /**
     * A raise the stack covers: the bet becomes `totalBet`, the difference paid
     * from the stack (or returned to it, when an earlier all-in raise lowered
     * the bet to match below this player's bet).
     */
    method RaiseTo(login: string, totalBet: int)
      requires Valid() && live && login in players
      requires totalBet >= 0 && totalBet - bets[login] <= stacks[login]
      modifies this
      ensures View() == old(View()).(playersActed := {login},
                                     currentBet := totalBet,
                                     stacks := old(stacks)[login := old(stacks[login] - (totalBet - bets[login]))],
                                     bets := old(bets)[login := totalBet],
                                     pot := old(pot + (totalBet - bets[login])),
                                     lastRaiser := Some(login))
      ensures Valid() && live && Chips() == old(Chips())
    {
      Commit(login, stacks[login] - (totalBet - bets[login]), totalBet);
      Reopen(login, totalBet);
    }

    /** The winners the hands of the active players give; see `FoundWinners`. */
    function Found(): Option<seq<HE.Winner>>
      reads this`players, this`foldedPlayers, this`holeCards, this`communityCards
    {
      FoundWinners(Active(), holeCards, communityCards)
    }

    /** Who is paid at the end of the hand; see `PayeesOf`. */
    function Payees(): seq<string>
      reads this`players, this`foldedPlayers, this`holeCards, this`communityCards
    {
      PayeesOf(Active(), Found())
    }

    /** What each payee receives; see `PayoutsOf`. */
    function Payouts(): map<string, int>
      reads this`players, this`foldedPlayers, this`holeCards, this`communityCards, this`pot
    {
      PayoutsOf(Active(), Found(), pot)
    }

    /**
     * The end of a hand that nobody else is left in: the last active player
     * takes the pot, and the round is over.
     */
    method EndRound()
      requires Valid() && live
      modifies this
      ensures |old(Active())| == 1 ==>
        stacks == old(stacks)[old(Active())[0] := Get(old(stacks), old(Active())[0]) + old(pot)]
      ensures |old(Active())| != 1 ==> stacks == old(stacks)
      ensures View() == old(View()).(stacks := stacks, live := false)
      ensures |old(Active())| == 1 ==> Sum(players, stacks) == old(Chips()) && WonUncontested(old(View()))
      ensures |old(Active())| == 1 ==> Follows(old(View()), old(Chips()))
      ensures Valid() && Playable() && Ready()
    {
      var active := Active();
      if |active| == 1 {
        var winner := active[0];
        assert winner in active;
        SumUpdate(players, stacks, winner, stacks[winner] + pot);
        stacks := stacks[winner := stacks[winner] + pot];
      }
      live := false;
    }

    /**
     * The showdown: every payee's stack grows by its payout, the pot is used up
     * exactly, and the round is over.
     */
    method Showdown()
      requires Valid() && live
      modifies this
      ensures forall p :: Get(stacks, p) == Get(old(stacks), p) + (if p in old(Payees()) then Get(old(Payouts()), p) else 0)
      ensures View() == old(View()).(stacks := stacks, phase := Phase.Showdown, live := false)
      ensures ShownDown(old(View()))
      ensures Sum(players, stacks) == old(Chips())
      ensures Valid() && Playable() && Ready() && phase == Phase.Showdown && !live
    {
      var active := Active();
      var found := Found();
      SumNonNegative(players, bets);
      ActiveDistinct(players, foldedPlayers);
      WinnersAmongActive(active, holeCards, communityCards);
      PayeesSound(active, found, pot);
      Settle(PayeesOf(active, found), PayoutsOf(active, found, pot));
      phase := Phase.Showdown;
    }

    /**
     * Pays each payee its share and closes the round. Shares of distinct seated
     * players that add up to the pot leave the table's chips unchanged.
     */
    method Settle(payees: seq<string>, shares: map<string, int>)
      requires Valid() && live
      requires Distinct(payees) && (forall q | q in payees :: q in players) && Sum(payees, shares) == pot
      modifies this
      ensures forall p :: Get(stacks, p) == Get(old(stacks), p) + (if p in payees then Get(shares, p) else 0)
      ensures View() == old(View()).(stacks := stacks, live := false)
      ensures Sum(players, stacks) == old(Chips())
    {
      stacks := Credit(players, stacks, payees, shares);
      live := false;
    }

    /**
     * The next betting round: the phase moves on, every bet is cleared, nobody
     * has acted or raised, the first player who can bet from the small blind
     * on is on turn, and the next community cards are turned face up.
     */
    method AdvancePhase()
      requires Valid() && live && HasNextRound(phase)
      modifies this
      ensures Valid() && live && Active() == old(Active()) && Chips() == old(Chips())
      ensures phase == NextPhase(old(phase))
      ensures forall p | p in players :: p in bets && bets[p] == 0
      ensures forall p | p !in players :: (p in bets <==> p in old(bets)) && (p in bets ==> bets[p] == old(bets)[p])
      ensures View() == old(View()).(phase := phase, bets := bets, currentBet := 0, lastRaiser := None,
                                     playersActed := {},
                                     currentPlayerIndex := FirstPlayerForPhase(players, foldedPlayers, allInPlayers, smallBlindPosition),
                                     communityCards := communityCards)
      ensures old(communityCards) <= communityCards && communityCards == board[..CommunityCount(phase)]
    {
      ClearBets();
      RevealNext();
      currentPlayerIndex := FirstPlayerForPhase(players, foldedPlayers, allInPlayers, smallBlindPosition);
    }

    /** Every bet is cleared and nobody has acted or raised in the new betting round. */
    method ClearBets()
      requires Valid() && live
      modifies this
      ensures Valid() && live && Chips() == old(Chips())
      ensures forall p | p in players :: p in bets && bets[p] == 0
      ensures forall p | p !in players :: (p in bets <==> p in old(bets)) && (p in bets ==> bets[p] == old(bets)[p])
      ensures View() == old(View()).(bets := bets, currentBet := 0, lastRaiser := None, playersActed := {})
    {
      SumNonNegative(players, bets);
      var cleared := ZeroBets(players, bets);
      SumZero(players, cleared);
      bets := cleared;
      ResetRaise();
    }

    /** Nothing is to be matched and nobody has acted or raised. */
    method ResetRaise()
      requires Valid() && live
      modifies this
      ensures Valid() && live
      ensures View() == old(View()).(currentBet := 0, lastRaiser := None, playersActed := {})
    {
      currentBet := 0;
      lastRaiser := None;
      playersActed := {};
    }

    /** The phase moves on and its community cards are turned: three on the flop, then one at a time. */
    method RevealNext()
      requires Valid() && live && HasNextRound(phase)
      modifies this
      ensures Valid() && live
      ensures phase == NextPhase(old(phase))
      ensures old(communityCards) <= communityCards && communityCards == board[..CommunityCount(phase)]
      ensures View() == old(View()).(phase := phase, communityCards := communityCards)
    {
      var next := NextPhase(phase);
      if next == Flop {
        communityCards := board[..3];
      } else {
        assert board[..|communityCards| + 1] == communityCards + [board[|communityCards|]];
        communityCards := communityCards + [board[|communityCards|]];
      }
      phase := next;
    }

    /**
     * What follows an accepted action: the round ends when one player is left
     * in the hand; otherwise the turn passes to the next seat, from which the
     * betting round either closes or goes on.
     */
    method AfterAction(connected: set<string>)
      requires Valid() && live
      modifies this
      decreases |Active()|, PhasesLeft(phase), 3
      ensures Follows(old(View()), old(Chips()))
      ensures old(|Active()|) == 1 ==> WonUncontested(old(View()))
      ensures old(|Active()|) >= 2 && old(Settled()) ==>
        PhaseClosed(old(View()).(currentPlayerIndex := (old(currentPlayerIndex) + 1) % |players|))
      ensures old(|Active()|) >= 2 && !old(Settled()) ==>
        TurnGiven(old(View()).(currentPlayerIndex := (old(currentPlayerIndex) + 1) % |players|),
                  (old(currentPlayerIndex) + 1) % |players|, connected)
    {
      if |Active()| == 1 {
        EndRound();
        return;
      }
      ghost var moved := old(View()).(currentPlayerIndex := (old(currentPlayerIndex) + 1) % |players|);
      MoveTurn();
      assert View() == moved && Chips() == old(Chips());
      CloseOrContinue(connected);
    }

    /**
     * A betting round that is complete closes; otherwise the search for the
     * next turn starts from the seat on turn.
     */
    method CloseOrContinue(connected: set<string>)
      requires Valid() && live && |Active()| >= 2
      modifies this
      decreases |Active()|, PhasesLeft(phase), 2
      ensures Follows(old(View()), old(Chips()))
      ensures old(Settled()) ==> PhaseClosed(old(View()))
      ensures !old(Settled()) ==> TurnGiven(old(View()), old(currentPlayerIndex), connected)
    {
      if BettingRoundComplete(Active(), playersActed, allInPlayers, bets, currentBet) {
        ProceedToNextPhase(connected);
      } else {
        UnsettledHasEligible(players, foldedPlayers, allInPlayers, playersActed, bets, currentBet);
        NextTurn(connected);
      }
    }

    /** The turn passes to the next seat round the table. */
    method MoveTurn()
      requires Valid() && live
      modifies this
      ensures Valid() && live
      ensures View() == old(View()).(currentPlayerIndex := (old(currentPlayerIndex) + 1) % |players|)
    {
      currentPlayerIndex := (currentPlayerIndex + 1) % |players|;
    }

    /**
     * Finds the next player to act. With at most one player in the hand the
     * round ends. The first player met from the seat on turn who can bet is
     * awaited when connected and folded otherwise. When nobody can bet the
     * betting round closes.
     */
    method NextTurn(connected: set<string>)
      requires Valid() && live
      modifies this
      decreases |Active()|, PhasesLeft(phase), 1
      ensures Follows(old(View()), old(Chips()))
      ensures old(|Active()|) <= 1 ==> WonUncontested(old(View()))
      ensures old(|Active()|) >= 2 && old(AnyEligible()) ==>
        TurnGiven(old(View()), old(currentPlayerIndex), connected)
      ensures old(|Active()|) >= 2 && !old(AnyEligible()) ==> PhaseClosed(old(View()))
    {
      if |Active()| <= 1 {
        EndRound();
        return;
      }
      var found := SeekTurn();
      assert Chips() == old(Chips());
      if found {
        var current := players[currentPlayerIndex];
        if current !in connected {
          var refused := ApplyAction(current, Fold, 0);
          assert Chips() == old(Chips());
          AfterAction(connected);
        }
      } else {
        ProceedToNextPhase(connected);
      }
    }

    /**
     * Scans at most once round the table from the seat on turn for a player
     * who can bet, moving the turn seat by seat. When there is one, the scan
     * stops at the first; otherwise the turn is back where it started.
     */
    method SeekTurn() returns (found: bool)
      requires Valid() && live
      modifies this
      ensures Valid() && live
      ensures found == old(AnyEligible())
      ensures found ==> View() == old(View()).(currentPlayerIndex := old(NextEligible(currentPlayerIndex)))
      ensures found ==> players[currentPlayerIndex] !in foldedPlayers && players[currentPlayerIndex] !in allInPlayers
      ensures !found ==> View() == old(View())
    {
      ghost var start: nat := currentPlayerIndex;
      ghost var n := |players|;
      var attempts := 0;
      while attempts < |players|
        invariant 0 <= attempts <= |players|
        invariant Valid() && live
        invariant View() == old(View()).(currentPlayerIndex := currentPlayerIndex)
        invariant currentPlayerIndex == (start + attempts) % n
        invariant forall m | 0 <= m < attempts :: !EligibleAt(players, foldedPlayers, allInPlayers, start, m)
        decreases |players| - attempts
      {
        var current := players[currentPlayerIndex];
        if current !in foldedPlayers && current !in allInPlayers {
          assert EligibleAt(players, foldedPlayers, allInPlayers, start, attempts);
          FirstEligibleAt(players, foldedPlayers, allInPlayers, start, attempts);
          return true;
        }
        ModSucc(start + attempts, n);
        MoveTurn();
        attempts := attempts + 1;
      }
      EligibleSeatReached(players, foldedPlayers, allInPlayers, start);
      ModUnique(start + n, 1, start, n);
      return false;
    }

    /**
     * Closes a betting round: before the river the next round starts, and the
     * first player from the small blind on who can bet is awaited if
     * connected; after the river comes the showdown.
     */
    method ProceedToNextPhase(connected: set<string>)
      requires Valid() && live && |Active()| >= 2
      modifies this
      decreases |Active()|, PhasesLeft(phase), 0
      ensures Follows(old(View()), old(Chips()))
      ensures PhaseClosed(old(View()))
      ensures var first := old(FirstPlayerForPhase(players, foldedPlayers, allInPlayers, smallBlindPosition));
        old(HasNextRound(phase) && AnyEligible()) && old(players[first]) in connected ==>
        live && phase == NextPhase(old(phase)) && currentPlayerIndex == first &&
        currentBet == 0 && playersActed == {} && lastRaiser.None? && foldedPlayers == old(foldedPlayers) &&
        stacks == old(stacks) && pot == old(pot) && communityCards == board[..CommunityCount(phase)] &&
        forall p | p in players :: bets[p] == 0
    {
      if HasNextRound(phase) {
        AdvancePhase();
        ghost var advanced := View();
        assert PhasesLeft(advanced.phase) < old(PhasesLeft(phase)) && Chips() == old(Chips());
        if AnyEligible() {
          FirstEligibleHere(players, foldedPlayers, allInPlayers, currentPlayerIndex);
        }
        NextTurn(connected);
        assert Follows(advanced, old(Chips()));
        assert Follows(old(View()), old(Chips()));
      } else {
        Showdown();
        assert PhasesLeft(phase) == 0;
        assert Follows(old(View()), old(Chips()));
      }
    }

    /** The player is counted as having acted in this betting round. */
    method MarkActed(login: string)
      requires Valid() && live
      modifies this
      ensures View() == old(View()).(playersActed := old(playersActed) + {login})
      ensures Valid() && Active() == old(Active()) && Chips() == old(Chips())
    {
      playersActed := playersActed + {login};
    }

    /** An all-in player stays in the hand but bets no more. */
    method MarkAllIn(login: string)
      requires Valid() && live
      modifies this
      ensures View() == old(View()).(allInPlayers := old(allInPlayers) + {login})
      ensures Valid()
    {
      allInPlayers := allInPlayers + {login};
    }

    /** A raise sets the bet to match and reopens the betting: only the raiser has acted. */
    method Reopen(login: string, newBet: int)
      requires Valid() && live && newBet >= 0
      modifies this
      ensures View() == old(View()).(currentBet := newBet, lastRaiser := Some(login), playersActed := {login})
      ensures Valid()
    {
      currentBet := newBet;
      lastRaiser := Some(login);
      playersActed := {login};
    }

    /**
     * Moves chips of one seated player from the stack into the bet and the pot:
     * the new stack and bet hold what the old ones held, and the pot grows by
     * what the bet grew.
     */
    method Commit(login: string, newStack: int, newBet: int)
      requires Valid() && live && login in players
      requires newStack >= 0 && newBet >= 0 && newStack + newBet == stacks[login] + bets[login]
      modifies this
      ensures View() == old(View()).(stacks := old(stacks)[login := newStack],
                                     bets := old(bets)[login := newBet],
                                     pot := old(pot) + (newBet - old(bets[login])))
      ensures Valid() && Chips() == old(Chips())
    {
      SumUpdate(players, stacks, login, newStack);
      SumUpdate(players, bets, login, newBet);
      pot := pot + (newBet - bets[login]);
      stacks := stacks[login := newStack];
      bets := bets[login := newBet];
    }
  }
}
