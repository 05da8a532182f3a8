/**
  * Round bookkeeping and the claim path: the RivalRounds contract embedded in
  * apps/agen/scripts/seed-rival.ts.
  *
  * The contract's storage is a class; what each entry point does to it is a function on
  * the stored values, so that whole runs can be reasoned about. Calls arrive already
  * authenticated, and uint256 is unbounded.
  */
module RivalLedger {
  import opened Basics
  import opened RivalSums
  import opened SetSums

  type Wallet = nat

  /** Winners: nobody, buyers, sellers. */
  const NOBODY: int := 0
  const BUYERS: int := 1
  const SELLERS: int := 2

  datatype Round = Round(buyVolume: nat, sellVolume: nat, pool: nat, settled: bool, winner: int, distributable: nat)

  const EMPTY: Round := Round(0, 0, 0, false, NOBODY, 0)

  datatype ClaimError = RoundNotSettled | AlreadyClaimed | NothingOwed

  datatype Ledger = Ledger(rounds: map<nat, Round>, bought: map<nat, map<Wallet, nat>>, claimed: set<(nat, Wallet)>,
                           carriedOver: nat, buybackReserve: nat) {

    /** Storage never written reads as zero. */
    function RoundAt(round: nat): Round { if round in rounds then rounds[round] else EMPTY }

    function Buyers(round: nat): map<Wallet, nat> { if round in bought then bought[round] else map[] }

    function Bought(round: nat, wallet: Wallet): nat {
      if wallet in Buyers(round) then Buyers(round)[wallet] else 0
    }

    /** Everyone's bought amounts in a round, and what they come to. */
    function Holdings(round: nat): nat -> nat { (w: nat) => Bought(round, w) }

    ghost function TotalBought(round: nat): nat { SumOver(Buyers(round).Keys, Holdings(round)) }

    /** A trade adds to its side's volume and to the pool, settled or not; a buy also to its wallet. */
    function Recorded(round: nat, wallet: Wallet, isBuy: bool, amount: nat, contribution: nat): Ledger {
      var current := RoundAt(round);
      var traded := if isBuy then current.(buyVolume := current.buyVolume + amount)
                    else current.(sellVolume := current.sellVolume + amount);
      var entered := this.(rounds := rounds[round := traded.(pool := current.pool + contribution)]);
      if isBuy then entered.(bought := bought[round := Buyers(round)[wallet := Bought(round, wallet) + amount]])
      else entered
    }

    /** Buyers need strictly more volume; sellers take a tie; no volume has no winner. */
    function Decide(round: nat): int {
      var current := RoundAt(round);
      if current.buyVolume == 0 && current.sellVolume == 0 then NOBODY
      else if current.buyVolume > current.sellVolume then BUYERS
      else SELLERS
    }

    /** Settling happens once: buyers get the pool, nobody carries it over, sellers halve it. */
    function Settled(round: nat): Ledger {
      var current := RoundAt(round);
      if current.settled then this
      else
        var pool, winner := current.pool + carriedOver, Decide(round);
        var closed := current.(settled := true, winner := winner,
                               distributable := if winner == BUYERS then pool else current.distributable);
        this.(rounds := rounds[round := closed],
              carriedOver := if winner == NOBODY then pool else if winner == BUYERS then 0 else pool / 2,
              buybackReserve := buybackReserve + if winner == SELLERS then pool - pool / 2 else 0)
    }

    /** A buyer's share of a round its side won, until it is claimed. */
    function Owed(round: nat, wallet: Wallet): nat {
      var current := RoundAt(round);
      if !current.settled || current.winner != BUYERS then 0
      else if (round, wallet) in claimed then 0
      else if current.buyVolume == 0 then 0
      else Share(current.distributable, Bought(round, wallet), current.buyVolume)
    }

    function Claimable(round: nat, sender: Wallet): Result<nat, ClaimError> {
      if !RoundAt(round).settled then Err(RoundNotSettled)
      else if (round, sender) in claimed then Err(AlreadyClaimed)
      else if Owed(round, sender) == 0 then Err(NothingOwed)
      else Ok(Owed(round, sender))
    }

    function AfterClaim(round: nat, sender: Wallet): Ledger {
      if Claimable(round, sender).Ok? then this.(claimed := claimed + {(round, sender)}) else this
    }
  }

  const FRESH: Ledger := Ledger(map[], map[], {}, 0, 0)

  // ----- the contract --------------------------------------------------------------------

  class RivalRounds {
    var rounds: map<nat, Round>
    var boughtInRound: map<nat, map<Wallet, nat>>
    var claimed: set<(nat, Wallet)>
    var carriedOver: nat
    var buybackReserve: nat

    function State(): Ledger
      reads this
    {
      Ledger(rounds, boughtInRound, claimed, carriedOver, buybackReserve)
    }

    constructor ()
      ensures State() == FRESH
    {
      rounds, boughtInRound, claimed, carriedOver, buybackReserve := map[], map[], {}, 0, 0;
    }

    method Record(round: nat, wallet: Wallet, isBuy: bool, amount: nat, contribution: nat)
      modifies this
      ensures State() == old(State()).Recorded(round, wallet, isBuy, amount, contribution)
    {
      var current := State().RoundAt(round);
      if isBuy {
        current := current.(buyVolume := current.buyVolume + amount);
        boughtInRound := boughtInRound[round := State().Buyers(round)[wallet := State().Bought(round, wallet) + amount]];
      } else {
        current := current.(sellVolume := current.sellVolume + amount);
      }
      current := current.(pool := current.pool + contribution);
      rounds := rounds[round := current];
    }

    method Settle(round: nat) returns (winner: int)
      modifies this
      ensures State() == old(State()).Settled(round)
      ensures winner == State().RoundAt(round).winner
    {
      var current := State().RoundAt(round);
      if current.settled { return current.winner; }
      current := current.(settled := true);

      var pool := current.pool + carriedOver;
      carriedOver := 0;
      if current.buyVolume == 0 && current.sellVolume == 0 {
        winner := NOBODY;
        carriedOver := pool;
      } else if current.buyVolume > current.sellVolume {
        winner := BUYERS;
        current := current.(distributable := pool);
      } else {
        winner := SELLERS;
        var half := pool / 2;
        carriedOver := half;
        buybackReserve := buybackReserve + (pool - half);
      }
      rounds := rounds[round := current.(winner := winner)];
    }

    method Claim(round: nat, sender: Wallet) returns (amount: Result<nat, ClaimError>)
      modifies this
      ensures amount == old(State()).Claimable(round, sender)
      ensures State() == old(State()).AfterClaim(round, sender)
    {
      if !State().RoundAt(round).settled { return Err(RoundNotSettled); }
      if (round, sender) in claimed { return Err(AlreadyClaimed); }
      var owed := State().Owed(round, sender);
      if owed == 0 { return Err(NothingOwed); }
      claimed := claimed + {(round, sender)};
      amount := Ok(owed);
    }
  }

  // ----- what recording does to a round --------------------------------------------------

  /** Nothing in the ledger itself protects a settled round: recording into one changes it. */
  lemma RecordingIsUnguarded(l: Ledger, round: nat, wallet: Wallet, isBuy: bool, amount: nat, contribution: nat)
    ensures l.Recorded(round, wallet, isBuy, amount, contribution).RoundAt(round) == l.RoundAt(round)
       <==> amount == 0 && contribution == 0
    ensures forall r | r != round ::
              l.Recorded(round, wallet, isBuy, amount, contribution).RoundAt(r) == l.RoundAt(r)
    ensures forall r | r != round ::
              l.Recorded(round, wallet, isBuy, amount, contribution).Buyers(r) == l.Buyers(r)
  {
  }

  /** A recorded buy adds to the buyer's amount and to nobody else's. */
  lemma RecordedHoldings(l: Ledger, round: nat, wallet: Wallet, isBuy: bool, amount: nat, contribution: nat)
    ensures
      var m := l.Recorded(round, wallet, isBuy, amount, contribution);
      && (forall w: nat :: m.Bought(round, w) == l.Bought(round, w) + if isBuy && w == wallet then amount else 0)
      && m.Buyers(round).Keys == l.Buyers(round).Keys + (if isBuy then {wallet} else {})
      && m.RoundAt(round).buyVolume == l.RoundAt(round).buyVolume + (if isBuy then amount else 0)
  {
  }

  /** So the wallets' amounts keep adding up to the round's buy volume. */
  lemma RecordingAddsUp(l: Ledger, round: nat, wallet: Wallet, isBuy: bool, amount: nat, contribution: nat)
    requires l.TotalBought(round) == l.RoundAt(round).buyVolume
    ensures
      var m := l.Recorded(round, wallet, isBuy, amount, contribution);
      m.TotalBought(round) == m.RoundAt(round).buyVolume
  {
    var m := l.Recorded(round, wallet, isBuy, amount, contribution);
    RecordedHoldings(l, round, wallet, isBuy, amount, contribution);
    hide SumOver, Ledger.Recorded, Ledger.Bought, Ledger.Buyers, Ledger.RoundAt;
    var keys, before, after := l.Buyers(round).Keys, l.Holdings(round), m.Holdings(round);
    if isBuy {
      var others := keys - {wallet};
      SumOverRemove(keys + {wallet}, wallet, after);
      assert keys + {wallet} - {wallet} == others;
      SumOverAgrees(others, before, after);
      NotBought(l, round, wallet);
      if wallet in keys {
        SumOverRemove(keys, wallet, before);
      } else {
        assert keys == others;
      }
    } else {
      assert m.Buyers(round).Keys == keys;
      SumOverAgrees(keys, before, after);
    }
  }

  lemma NotBought(l: Ledger, round: nat, wallet: Wallet)
    ensures wallet !in l.Buyers(round).Keys ==> l.Bought(round, wallet) == 0
  {
  }
}
