// The betting and payout rules of the slot machine game in slot.py: bet
// acceptance (42-45), the reels (47-60), the payout chain (76-105) and the
// bank and totals it keeps (122, 43-44, 77-103), across the restarts of
// start() (121-123, 137-140).

module Slots {

  const START_BANK := 10000

  /** The symbols each reel is drawn from. */
  const REEL: seq<char> := ['$', '@', '@', '#', '#', '#', '&', '&', '&', '&', '%', '%', '%', '%', '%']

  /** The reels of a player named "Admin". */
  const ADMIN_REEL: seq<char> := ['$', '$']

  /** The symbols shown by the three reels after a spin. */
  datatype Spin = Spin(r1: char, r2: char, r3: char)

  function ReelFor(admin: bool): seq<char>
  {
    if admin then ADMIN_REEL else REEL
  }

  /** A spin the reels of the player can show. */
  predicate Drawn(admin: bool, s: Spin)
  {
    s.r1 in ReelFor(admin) && s.r2 in ReelFor(admin) && s.r3 in ReelFor(admin)
  }

  /** How many times the bet a spin pays back. */
  function Multiplier(s: Spin): nat
  {
    if s.r1 == '$' && s.r2 == '$' && s.r3 == '$' then 100
    else if s.r1 == '@' && s.r2 == '@' && s.r3 == '@' then 50
    else if s.r1 == '#' && s.r2 == '#' && s.r3 == '#' then 20
    else if s.r1 == '&' && s.r2 == '&' && s.r3 == '&' then 10
    else if s.r1 == '%' && s.r2 == '%' && s.r3 == '%' then 5
    else if s.r1 == '%' && s.r2 == '%' then 1
    else if s.r1 == '%' && s.r3 == '%' then 1
    else 0
  }

  /** The payout table: three of a kind pays 100, 50, 20, 10 or 5 times the
    * bet for $, @, #, & and %; a % on the first reel matched by a % on
    * exactly one of the others pays the bet back; nothing else pays, so
    * %%% pays 5 times and not once. */
  lemma PayoutTable(s: Spin)
    ensures Multiplier(s) == 100 <==> s == Spin('$', '$', '$')
    ensures Multiplier(s) == 50 <==> s == Spin('@', '@', '@')
    ensures Multiplier(s) == 20 <==> s == Spin('#', '#', '#')
    ensures Multiplier(s) == 10 <==> s == Spin('&', '&', '&')
    ensures Multiplier(s) == 5 <==> s == Spin('%', '%', '%')
    ensures Multiplier(s) == 1 <==> s.r1 == '%' && (s.r2 == '%') != (s.r3 == '%')
    ensures Multiplier(s) in {0, 1, 5, 10, 20, 50, 100}
  {
  }

  /** A winning spin has a % on the first reel or three equal symbols. */
  lemma WinsNeedMatch(s: Spin)
    requires Multiplier(s) > 0
    ensures s.r1 == '%' || (s.r1 == s.r2 == s.r3)
  {
  }

  /** Every spin with the Admin reels is the jackpot. */
  lemma AdminJackpot(s: Spin)
    requires Drawn(true, s)
    ensures Multiplier(s) == 100
  {
    assert s.r1 == '$' && s.r2 == '$' && s.r3 == '$';
  }

  /** The money the game keeps track of. */
  datatype Account = Account(bank: int, totalWon: int, totalLost: int, currentBet: int)

  /** After `games` starts the bank is 10000 for each of them plus all
    * winnings minus all bets: start() refills the bank but keeps the
    * totals (slot.py:121-123). */
  predicate ConservedOver(a: Account, games: nat)
  {
    a.bank == games * START_BANK + a.totalWon - a.totalLost && a.bank >= 0 && a.totalWon >= 0 && a.totalLost >= 0
  }

  /** In the first game the bank is the starting money plus all winnings
    * minus all bets. */
  predicate Conserved(a: Account)
  {
    ConservedOver(a, 1)
  }

  predicate Accepts(a: Account, bet: int)
  {
    0 <= bet <= a.bank
  }

  /** An accepted bet leaves the bank and counts as lost. */
  function Stake(a: Account, bet: int): Account
  {
    Account(a.bank - bet, a.totalWon, a.totalLost + bet, bet)
  }

  /** The win of a spin goes to the bank and to the winnings. */
  function Payout(a: Account, s: Spin): Account
  {
    var win := Multiplier(s) * a.currentBet;
    Account(a.bank + win, a.totalWon + win, a.totalLost, a.currentBet)
  }

  /** One pass of the game loop with the bet the player gives: a bet that
    * is not accepted changes nothing, an accepted one is staked and the
    * spin paid out. */
  function Round(a: Account, bet: int, s: Spin): Account
  {
    if Accepts(a, bet) then Payout(Stake(a, bet), s) else a
  }

  /** Staking and paying out keep the bank equal to the starting money plus
    * winnings minus bets, and never let it go negative. */
  lemma {:induction false} RoundConserves(a: Account, bet: int, s: Spin)
    requires Conserved(a)
    ensures Conserved(Round(a, bet, s))
    ensures Accepts(a, bet) ==> Round(a, bet, s).bank == a.bank - bet + Multiplier(s) * bet
    ensures Accepts(a, bet) ==> Round(a, bet, s).totalWon - a.totalWon == Round(a, bet, s).bank - (a.bank - bet)
    ensures !Accepts(a, bet) ==> Round(a, bet, s) == a
  {
    if Accepts(a, bet) {
      var b := Stake(a, bet);
      assert Conserved(b);
      assert Multiplier(s) * bet >= 0;
    }
  }

  /** A round keeps the bookkeeping of any number of games. */
  lemma {:induction false} RoundConservesOver(a: Account, bet: int, s: Spin, games: nat)
    requires ConservedOver(a, games)
    ensures ConservedOver(Round(a, bet, s), games)
  {
    if Accepts(a, bet) {
      assert ConservedOver(Stake(a, bet), games);
      assert Multiplier(s) * bet >= 0;
    }
  }

  /** A zero bet, which the loop stakes after the nested game_loop of a
    * 'NO' answer returns (slot.py:33-35), is accepted whenever the bank is
    * not negative and changes no money; only the current bet becomes 0. */
  lemma {:induction false} ZeroBetRound(a: Account, s: Spin)
    requires a.bank >= 0
    ensures Accepts(a, 0) && Round(a, 0, s) == a.(currentBet := 0)
  {
  }

  /** The money after the rounds of bets and spins, one Round each, in
    * order. */
  function Play(a: Account, bets: seq<int>, spins: seq<Spin>): Account
    requires |bets| == |spins|
    decreases |bets|
  {
    if |bets| == 0 then a
    else
      var n := |bets| - 1;
      Round(Play(a, bets[..n], spins[..n]), bets[n], spins[n])
  }

  /** How many of those rounds accept their bet, and so spin the reels. */
  function Accepted(a: Account, bets: seq<int>, spins: seq<Spin>): nat
    requires |bets| == |spins|
    decreases |bets|
  {
    if |bets| == 0 then 0
    else
      var n := |bets| - 1;
      Accepted(a, bets[..n], spins[..n]) + if Accepts(Play(a, bets[..n], spins[..n]), bets[n]) then 1 else 0
  }

  /** One more round extends the fold by one Round and counts its spin. */
  lemma {:induction false} PlayStep(a: Account, bets: seq<int>, spins: seq<Spin>, n: nat)
    requires |bets| == |spins| && n < |bets|
    ensures Play(a, bets[..n + 1], spins[..n + 1]) == Round(Play(a, bets[..n], spins[..n]), bets[n], spins[n])
    ensures Accepted(a, bets[..n + 1], spins[..n + 1]) ==
            Accepted(a, bets[..n], spins[..n]) + if Accepts(Play(a, bets[..n], spins[..n]), bets[n]) then 1 else 0
  {
    assert bets[..n + 1][..n] == bets[..n];
    assert spins[..n + 1][..n] == spins[..n];
  }

  /** The bank was positive before each of the first n rounds, so the loop
    * went on to play them. */
  predicate KeptPlaying(a: Account, bets: seq<int>, spins: seq<Spin>, n: nat)
    requires |bets| == |spins| && n <= |bets|
    decreases n
  {
    n == 0 || (KeptPlaying(a, bets, spins, n - 1) && Play(a, bets[..n - 1], spins[..n - 1]).bank > 0)
  }

  /** KeptPlaying spelled out: before each round k < n the bank was
    * positive. */
  lemma {:induction false} KeptPlayingEach(a: Account, bets: seq<int>, spins: seq<Spin>, n: nat, k: nat)
    requires |bets| == |spins| && n <= |bets| && KeptPlaying(a, bets, spins, n) && k < n
    ensures Play(a, bets[..k], spins[..k]).bank > 0
    decreases n
  {
    if k < n - 1 {
      KeptPlayingEach(a, bets, spins, n - 1, k);
    }
  }

  /** Any sequence of rounds keeps the bookkeeping, never lets the bank go
    * negative, and spins at most once per round. */
  lemma {:induction false} PlayConserves(a: Account, bets: seq<int>, spins: seq<Spin>, games: nat)
    requires |bets| == |spins| && ConservedOver(a, games)
    ensures ConservedOver(Play(a, bets, spins), games)
    ensures Accepted(a, bets, spins) <= |bets|
    decreases |bets|
  {
    if |bets| > 0 {
      var n := |bets| - 1;
      PlayConserves(a, bets[..n], spins[..n], games);
      RoundConservesOver(Play(a, bets[..n], spins[..n]), bets[n], spins[n], games);
    }
  }

  /** After a lost game the restart fills the bank to 10000 again, so the
    * bookkeeping counts one more game, and the single-game form holds
    * again only if no game had been started before. */
  lemma {:induction false} RestartAfterLoss(a: Account, games: nat)
    requires ConservedOver(a, games) && a.bank == 0
    ensures ConservedOver(a.(bank := START_BANK), games + 1)
    ensures Conserved(a.(bank := START_BANK)) <==> games == 0
  {
  }

  /** The game's state: its account, the spin count and whether
    * the player is Admin. */
  class SlotMachine {
    var bank: int
    var totalWon: int
    var totalLost: int
    var currentBet: int
    var spinCount: int
    var admin: bool

    function Money(): Account
      reads this
    {
      Account(bank, totalWon, totalLost, currentBet)
    }

    /** start with ENTER: the bank starts at 10000. */
    constructor (name: string)
      ensures Money() == Account(START_BANK, 0, 0, 0) && spinCount == 0 && admin == (name == "Admin")
      ensures Conserved(Money())
    {
      bank := START_BANK;
      totalWon := 0;
      totalLost := 0;
      currentBet := 0;
      spinCount := 0;
      admin := name == "Admin";
    }

    /** A bet is accepted only when it is between 0 and the bank; it then
      * moves from the bank to the money lost and becomes the current bet. */
    method PlaceBet(bet: int) returns (accepted: bool)
      modifies this
      ensures accepted == Accepts(old(Money()), bet)
      ensures accepted ==> Money() == Stake(old(Money()), bet)
      ensures !accepted ==> Money() == old(Money())
      ensures spinCount == old(spinCount) && admin == old(admin)
    {
      accepted := bet >= 0 && bank >= bet;
      if accepted {
        bank := bank - bet;
        totalLost := totalLost + bet;
        currentBet := bet;
      }
    }

    /** The spin: the count goes up and the win for the current bet is
      * added to the bank and to the winnings. */
    method Settle(s: Spin)
      modifies this
      ensures Money() == Payout(old(Money()), s)
      ensures spinCount == old(spinCount) + 1 && admin == old(admin)
    {
      spinCount := spinCount + 1;
      var m := Multiplier(s);
      if m > 0 {
        bank := bank + m * currentBet;
        totalWon := totalWon + m * currentBet;
      }
    }

    /** One pass of the game loop with the player's bet and the symbols the
      * reels show. */
    method PlayRound(bet: int, s: Spin) returns (accepted: bool)
      requires Drawn(admin, s)
      modifies this
      ensures Money() == Round(old(Money()), bet, s) && accepted == Accepts(old(Money()), bet)
      ensures spinCount == old(spinCount) + (if accepted then 1 else 0) && admin == old(admin)
    {
      accepted := PlaceBet(bet);
      if accepted {
        Settle(s);
      }
    }

    /** start() after a game is over and ENTER: the bank is 10000 again,
      * and the totals, the spin count and the player carry over. */
    method Restart()
      modifies this
      ensures Money() == old(Money()).(bank := START_BANK)
      ensures spinCount == old(spinCount) && admin == old(admin)
    {
      bank := START_BANK;
    }

    /** game_loop over the bets and spins the player and the reels supply:
      * it plays the rounds while there is money in the bank, so the money
      * is that of Play over the rounds it played, it spins once per
      * accepted bet, it played every round while the bank was positive, and
      * it stops early only with an empty bank. */
    method GameLoop(bets: seq<int>, spins: seq<Spin>, ghost games: nat) returns (rounds: nat)
      requires |bets| == |spins| && forall k | 0 <= k < |spins| :: Drawn(admin, spins[k])
      requires ConservedOver(Money(), games)
      modifies this
      ensures rounds <= |bets|
      ensures Money() == Play(old(Money()), bets[..rounds], spins[..rounds])
      ensures spinCount == old(spinCount) + Accepted(old(Money()), bets[..rounds], spins[..rounds])
      ensures KeptPlaying(old(Money()), bets, spins, rounds)
      ensures rounds < |bets| ==> bank <= 0
      ensures ConservedOver(Money(), games) && admin == old(admin)
    {
      ghost var a0, c0 := Money(), spinCount;
      rounds := 0;
      while rounds < |bets| && bank > 0
        invariant rounds <= |bets| && admin == old(admin)
        invariant Money() == Play(a0, bets[..rounds], spins[..rounds])
        invariant spinCount == c0 + Accepted(a0, bets[..rounds], spins[..rounds])
        invariant KeptPlaying(a0, bets, spins, rounds)
      {
        PlayStep(a0, bets, spins, rounds);
        var _ := PlayRound(bets[rounds], spins[rounds]);
        rounds := rounds + 1;
      }
      PlayConserves(a0, bets[..rounds], spins[..rounds], games);
    }
  }
}
