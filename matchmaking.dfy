/** Match bookkeeping (Matchmaking/Matchmaking.py): players keep a fixed player
    index, take a seat (game index) in each game, play until the game is over,
    and have their results moved from seat order to player order, tallied as
    [win, lose, draw] and accumulated while the player list rotates. */
module Matchmaking {
  import opened Outcomes
  import opened GameLogic

  // ---------------------------------------------------------------------------
  // Players
  // ---------------------------------------------------------------------------

  /** The part of a player Matchmaking touches. Players/Players.py is not part of
      this model: a player's own move is the `policy` parameter below and its
      self-play training is counted in `trainingRuns`. */
  class Player {
    var index: int
    var gameIndex: int
    const isExIt: bool
    var trainingRuns: nat

    constructor (isExIt: bool)
      ensures this.isExIt == isExIt && trainingRuns == 0
    {
      this.isExIt := isExIt;
      index := 0;
      gameIndex := 0;
      trainingRuns := 0;
    }
  }

  predicate Distinct(players: seq<Player>)
  {
    forall i, j :: 0 <= i < j < |players| ==> players[i] != players[j]
  }

  // ---------------------------------------------------------------------------
  // Results
  // ---------------------------------------------------------------------------

  /** get_index_result: the result list indexed by player index, each player's
      slot holding the result of its seat; a slot no player claims stays
      empty, and when two players claim one slot the later player wins. */
  method GetIndexResult(gameIndexResult: seq<GameResult>, players: seq<Player>)
    returns (result: seq<Option<GameResult>>)
    requires forall i :: 0 <= i < |players| ==>
      0 <= players[i].index < |gameIndexResult| && 0 <= players[i].gameIndex < |gameIndexResult|
    ensures |result| == |gameIndexResult|
    ensures forall i :: 0 <= i < |players| ==>
      (forall j :: i < j < |players| ==> players[j].index != players[i].index) ==>
        result[players[i].index] == Some(gameIndexResult[players[i].gameIndex])
    ensures forall k :: 0 <= k < |result| ==>
      (forall i :: 0 <= i < |players| ==> players[i].index != k) ==> result[k] == None
  {
    result := PlaceResults(gameIndexResult, SeatedIndexes(players), GameIndexesOf(players));
  }

  function GameIndexesOf(players: seq<Player>): (seats: seq<int>)
    reads set p | p in players
    ensures |seats| == |players|
    ensures forall i :: 0 <= i < |players| ==> seats[i] == players[i].gameIndex
  {
    seq(|players|, i reads set p | p in players requires 0 <= i < |players| => players[i].gameIndex)
  }

  /** What slot k holds after the first n writes of get_index_result's loop:
      the last write aimed at it, if any. */
  ghost function LastWrite(gameIndexResult: seq<GameResult>, index: seq<int>, gameIndex: seq<int>,
                           n: nat, k: int): Option<GameResult>
    requires n <= |index| == |gameIndex|
    requires forall i :: 0 <= i < |index| ==> 0 <= gameIndex[i] < |gameIndexResult|
  {
    if n == 0 then None
    else if index[n - 1] == k then Some(gameIndexResult[gameIndex[n - 1]])
    else LastWrite(gameIndexResult, index, gameIndex, n - 1, k)
  }

  /** A write that no later write overwrites is what its slot holds. */
  lemma {:induction false} LastWriteWins(gameIndexResult: seq<GameResult>, index: seq<int>, gameIndex: seq<int>,
                                         n: nat, i: nat)
    requires n <= |index| == |gameIndex|
    requires forall i :: 0 <= i < |index| ==> 0 <= gameIndex[i] < |gameIndexResult|
    requires i < n && forall j :: i < j < n ==> index[j] != index[i]
    ensures LastWrite(gameIndexResult, index, gameIndex, n, index[i]) == Some(gameIndexResult[gameIndex[i]])
  {
    if i < n - 1 {
      LastWriteWins(gameIndexResult, index, gameIndex, n - 1, i);
    }
  }

  /** A slot no write aims at stays empty. */
  lemma {:induction false} LastWriteNone(gameIndexResult: seq<GameResult>, index: seq<int>, gameIndex: seq<int>,
                                         n: nat, k: int)
    requires n <= |index| == |gameIndex|
    requires forall i :: 0 <= i < |index| ==> 0 <= gameIndex[i] < |gameIndexResult|
    requires forall i :: 0 <= i < n ==> index[i] != k
    ensures LastWrite(gameIndexResult, index, gameIndex, n, k) == None
  {
    if n > 0 {
      LastWriteNone(gameIndexResult, index, gameIndex, n - 1, k);
    }
  }

  /** get_index_result's loop on the players' indices: the result of seat
      gameIndex[i] is written to slot index[i], in list order. */
  method PlaceResults(gameIndexResult: seq<GameResult>, index: seq<int>, gameIndex: seq<int>)
    returns (result: seq<Option<GameResult>>)
    requires |index| == |gameIndex|
    requires forall i :: 0 <= i < |index| ==>
      0 <= index[i] < |gameIndexResult| && 0 <= gameIndex[i] < |gameIndexResult|
    ensures |result| == |gameIndexResult|
    ensures forall i :: 0 <= i < |index| ==>
      (forall j :: i < j < |index| ==> index[j] != index[i]) ==>
        result[index[i]] == Some(gameIndexResult[gameIndex[i]])
    ensures forall k :: 0 <= k < |result| ==>
      (forall i :: 0 <= i < |index| ==> index[i] != k) ==> result[k] == None
  {
    result := seq(|gameIndexResult|, _ => None);
    var n := 0;
    while n < |index|
      invariant 0 <= n <= |index|
      invariant |result| == |gameIndexResult|
      invariant forall k :: 0 <= k < |result| ==> result[k] == LastWrite(gameIndexResult, index, gameIndex, n, k)
    {
      result := result[index[n] := Some(gameIndexResult[gameIndex[n]])];
      n := n + 1;
    }
    forall i | 0 <= i < |index| && forall j :: i < j < |index| ==> index[j] != index[i]
      ensures result[index[i]] == Some(gameIndexResult[gameIndex[i]])
    {
      LastWriteWins(gameIndexResult, index, gameIndex, n, i);
    }
    forall k | 0 <= k < |result| && forall i :: 0 <= i < |index| ==> index[i] != k
      ensures result[k] == None
    {
      LastWriteNone(gameIndexResult, index, gameIndex, n, k);
    }
  }

  /** A player's running [win, lose, draw] totals. */
  datatype Tally = Tally(win: nat, lose: nat, draw: nat)
  {
    function Plus(other: Tally): Tally
    {
      Tally(win + other.win, lose + other.lose, draw + other.draw)
    }

    function Games(): nat
    {
      win + lose + draw
    }
  }

  /** One game's result as a [win, lose, draw] list. GameResult's own
      conversion is not part of this model; a result counts once in its own
      column. */
  function TallyOf(g: GameResult): (t: Tally)
    ensures t.Games() == 1
    ensures (t.win == 1 <==> g == Win) && (t.lose == 1 <==> g == Loss) && (t.draw == 1 <==> g == Draw)
  {
    match g
    case Win => Tally(1, 0, 0)
    case Loss => Tally(0, 1, 0)
    case Draw => Tally(0, 0, 1)
  }

  /** The totals of player k over the games of `history` (each a result list in
      player order). */
  function TotalFor(history: seq<seq<GameResult>>, k: nat): Tally
    requires forall m :: 0 <= m < |history| ==> k < |history[m]|
  {
    if |history| == 0 then Tally(0, 0, 0)
    else TotalFor(history[..|history| - 1], k).Plus(TallyOf(history[|history| - 1][k]))
  }

  lemma TotalForSnoc(history: seq<seq<GameResult>>, played: seq<GameResult>, k: nat)
    requires forall m :: 0 <= m < |history| ==> k < |history[m]|
    requires k < |played|
    ensures TotalFor(history + [played], k) == TotalFor(history, k).Plus(TallyOf(played[k]))
  {
    assert (history + [played])[..|history|] == history;
  }

  /** Every game of the history counts exactly once in each player's totals. */
  lemma {:induction false} TotalCountsEveryGame(history: seq<seq<GameResult>>, k: nat)
    requires forall m :: 0 <= m < |history| ==> k < |history[m]|
    ensures TotalFor(history, k).Games() == |history|
  {
    if |history| > 0 {
      TotalCountsEveryGame(history[..|history| - 1], k);
    }
  }

  // ---------------------------------------------------------------------------
  // Rotation
  // ---------------------------------------------------------------------------

  /** __rearrange_players on a list: the head moves to the tail. */
  function RotateOnce<T>(s: seq<T>): (r: seq<T>)
    requires |s| > 0
    ensures |r| == |s|
  {
    s[1..] + [s[0]]
  }

  /** The list after k rearrangements. */
  function Rotated<T>(s: seq<T>, k: nat): (r: seq<T>)
    requires |s| > 0
    ensures |r| == |s|
  {
    if k == 0 then s else RotateOnce(Rotated(s, k - 1))
  }

  lemma RotateOnceShifts<T>(s: seq<T>, r: nat)
    requires r < |s|
    ensures RotateOnce(s[r..] + s[..r]) == s[r + 1..] + s[..r + 1]
  {
    var prev := s[r..] + s[..r];
    assert prev[0] == s[r];
    assert prev[1..] == s[r + 1..] + s[..r];
    assert s[..r] + [s[r]] == s[..r + 1];
  }

  /** Up to a full round, r rearrangements move the first r elements to the back. */
  lemma {:induction false} RotatedWithinRound<T>(s: seq<T>, r: nat)
    requires r <= |s| && |s| > 0
    ensures Rotated(s, r) == s[r..] + s[..r]
  {
    if r == 0 {
      assert s[0..] + s[..0] == s;
    } else {
      RotatedWithinRound(s, r - 1);
      RotateOnceShifts(s, r - 1);
    }
  }

  lemma {:induction false} RotatedTwice<T>(s: seq<T>, a: nat, b: nat)
    requires |s| > 0
    ensures Rotated(s, a + b) == Rotated(Rotated(s, a), b)
  {
    if b == 0 {
      if a > 0 {
        RotatedTwice(s, a - 1, 0);
      }
    } else {
      RotatedTwice(s, a, b - 1);
    }
  }

  lemma MulStep(n: nat, q: nat)
    requires q > 0
    ensures n * q == n * (q - 1) + n
  {
  }

  /** q full rounds and r more rearrangements equal r rearrangements. */
  lemma {:induction false} RotatedRounds<T>(s: seq<T>, q: nat, r: nat)
    requires r < |s|
    ensures Rotated(s, |s| * q + r) == s[r..] + s[..r]
  {
    if q == 0 {
      RotatedWithinRound(s, r);
    } else {
      var n := |s|;
      var a := n * (q - 1) + r;
      MulStep(n, q);
      assert n * q + r == a + n;
      RotatedRounds(s, q - 1, r);
      RotatedTwice(s, a, n);
      FullRoundRestoresOrder(s[r..] + s[..r]);
    }
  }

  lemma DivMod(k: nat, n: nat) returns (q: nat, r: nat)
    requires n > 0
    ensures q == k / n && r == k % n && r < n && k == n * q + r
  {
    q, r := k / n, k % n;
  }

  lemma SwappedHalvesSameElements<T>(s: seq<T>, r: nat)
    requires r <= |s|
    ensures multiset(s[r..] + s[..r]) == multiset(s)
  {
    assert s == s[..r] + s[r..];
  }

  /** k rearrangements rotate the list by k mod its length, keeping every
      element. */
  lemma RotatedByRemainder<T>(s: seq<T>, k: nat)
    requires |s| > 0
    ensures Rotated(s, k) == s[k % |s|..] + s[..k % |s|]
    ensures multiset(Rotated(s, k)) == multiset(s)
  {
    var q, r := DivMod(k, |s|);
    RotatedRounds(s, q, r);
    SwappedHalvesSameElements(s, r);
  }

  /** A full round of rearrangements gives back the original order. */
  lemma FullRoundRestoresOrder<T>(s: seq<T>)
    requires |s| > 0
    ensures Rotated(s, |s|) == s
  {
    RotatedWithinRound(s, |s|);
    assert s[|s|..] + s[..|s|] == s;
  }

  // ---------------------------------------------------------------------------
  // One game
  // ---------------------------------------------------------------------------

  datatype MatchError = NoSuchSeat | IllegalMove | NoPlayers

  /** The seat Python's `players[t]` reads in a list of n players: t itself
      when 0 <= t < n, t + n for a negative t down to -n (counting from the
      end), and none otherwise (an IndexError). */
  function SeatAt(t: int, n: nat): (s: Option<nat>)
    ensures s.Some? <==> -(n as int) <= t < n
    ensures s.Some? ==> s.value < n && (if t >= 0 then s.value == t else s.value == t + n)
  {
    if 0 <= t < n then Some(t as nat)
    else if -(n as int) <= t < 0 then Some((t + n) as nat)
    else None
  }

  /** start_game as a value: the player in the seat whose turn it is moves until
      the game is over. `seats[s]` is the player index of the player in seat s,
      the turn t selects seat SeatAt(t, |seats|), and `policy` gives that
      player's action in a state. */
  function Playout<G(!new)>(rules: Rules<G>, game: G, seats: seq<int>, policy: (int, G) -> int): (r: Result<G, MatchError>)
    requires Finite(rules)
    decreases rules.movesLeft(game)
    ensures r.Success? ==> rules.isGameOver(r.value)
    ensures r.Failure? ==> r.error != NoPlayers
  {
    if rules.isGameOver(game) then Success(game)
    else
      match SeatAt(rules.turn(game), |seats|)
      case None => Failure(NoSuchSeat)
      case Some(s) =>
        match rules.advance(game, policy(seats[s], game))
        case None => Failure(IllegalMove)
        case Some(next) =>
          AdvanceDecreases(rules, game, policy(seats[s], game));
          Playout(rules, next, seats, policy)
  }

  function SeatedIndexes(players: seq<Player>): (seats: seq<int>)
    reads set p | p in players
    ensures |seats| == |players|
    ensures forall i :: 0 <= i < |players| ==> seats[i] == players[i].index
  {
    seq(|players|, i reads set p | p in players requires 0 <= i < |players| => players[i].index)
  }

  /** The first seat in which player index k sits; |seats| when none does. */
  function SeatOf(seats: seq<int>, k: int): (i: nat)
    ensures i <= |seats|
    ensures i < |seats| ==> seats[i] == k
    ensures forall j :: 0 <= j < i ==> seats[j] != k
  {
    if |seats| == 0 then 0
    else if seats[0] == k then 0
    else 1 + SeatOf(seats[1..], k)
  }

  /** match as a value: the game played from the start with `seats`, and
      then the result of each player index k, read off at the seat where k
      sits. */
  function MatchResults<G(!new)>(rules: Rules<G>, seats: seq<int>, policy: (int, G) -> int)
    : (r: Result<seq<GameResult>, MatchError>)
    requires Finite(rules)
    ensures r.Success? ==> |r.value| == |seats|
  {
    match Playout(rules, rules.initial, seats, policy)
    case Failure(e) => Failure(e)
    case Success(final) => Success(seq(|seats|, k => rules.result(final, SeatOf(seats, k))))
  }

  /** __compare as a value: `count` games, game m played with the seats
      rotated m times, each game's results in player order. With nobody
      seated the first game is played and the rotation then fails. */
  function Comparison<G(!new)>(rules: Rules<G>, seats: seq<int>, policy: (int, G) -> int, count: nat)
    : (r: Result<seq<seq<GameResult>>, MatchError>)
    requires Finite(rules)
    ensures r.Success? ==> |r.value| == count
    ensures r.Success? ==> forall m :: 0 <= m < count ==> |r.value[m]| == |seats|
  {
    if count == 0 then Success([])
    else match Comparison(rules, seats, policy, count - 1)
      case Failure(e) => Failure(e)
      case Success(history) =>
        if |seats| == 0 then
          (match MatchResults(rules, seats, policy)
           case Failure(e) => Failure(e)
           case Success(_) => Failure(NoPlayers))
        else
          (match MatchResults(rules, Rotated(seats, count - 1), policy)
           case Failure(e) => Failure(e)
           case Success(played) => Success(history + [played]))
  }

  /** Once a comparison has failed, playing on does not change its outcome. */
  lemma {:induction false} ComparisonFailureSticks<G(!new)>(rules: Rules<G>, seats: seq<int>,
                                                           policy: (int, G) -> int, c: nat, d: nat)
    requires Finite(rules) && c <= d
    requires Comparison(rules, seats, policy, c).Failure?
    ensures Comparison(rules, seats, policy, d) == Comparison(rules, seats, policy, c)
    decreases d - c
  {
    if c < d {
      ComparisonFailureSticks(rules, seats, policy, c, d - 1);
    }
  }

  /** A comparison that succeeds has played every one of its games: game m
      is the match with the seats rotated m times. */
  lemma {:induction false} ComparisonPlaysEveryGame<G(!new)>(rules: Rules<G>, seats: seq<int>,
                                                            policy: (int, G) -> int, count: nat)
    requires Finite(rules) && |seats| > 0
    ensures Comparison(rules, seats, policy, count).Success? ==>
      forall m :: 0 <= m < count ==>
        && MatchResults(rules, Rotated(seats, m), policy).Success?
        && Comparison(rules, seats, policy, count).value[m] == MatchResults(rules, Rotated(seats, m), policy).value
  {
    if count > 0 && Comparison(rules, seats, policy, count).Success? {
      ComparisonPlaysEveryGame(rules, seats, policy, count - 1);
    }
  }

  /** A comparison whose games can all be played succeeds. */
  lemma {:induction false} ComparisonSucceedsWhenEveryGameDoes<G(!new)>(rules: Rules<G>, seats: seq<int>,
                                                                       policy: (int, G) -> int, count: nat)
    requires Finite(rules) && |seats| > 0
    requires forall m :: 0 <= m < count ==> MatchResults(rules, Rotated(seats, m), policy).Success?
    ensures Comparison(rules, seats, policy, count).Success?
  {
    if count > 0 {
      ComparisonSucceedsWhenEveryGameDoes(rules, seats, policy, count - 1);
      assert MatchResults(rules, Rotated(seats, count - 1), policy).Success?;
    }
  }

  /** The totals of a comparison, in player order. */
  function Totals(history: seq<seq<GameResult>>, n: nat): (totals: seq<Tally>)
    requires forall m :: 0 <= m < |history| ==> |history[m]| == n
    ensures |totals| == n
  {
    seq(n, k requires 0 <= k < n => TotalFor(history, k))
  }

  /** compare_ex_it with a finite iteration count, as a value: `rounds`
      comparisons of `numMatches` games each, every one starting from the
      seats the previous one left, each contributing its totals. */
  function Tournament<G(!new)>(rules: Rules<G>, seats: seq<int>, policy: (int, G) -> int,
                               numMatches: nat, rounds: nat): (r: Result<seq<seq<Tally>>, MatchError>)
    requires Finite(rules)
    ensures r.Success? ==> |r.value| == rounds
    ensures r.Success? ==> forall i :: 0 <= i < rounds ==> |r.value[i]| == |seats|
    decreases rounds
  {
    if rounds == 0 then Success([])
    else match Comparison(rules, seats, policy, numMatches)
      case Failure(e) => Failure(e)
      case Success(history) =>
        var next := if |seats| == 0 then seats else Rotated(seats, numMatches);
        match Tournament(rules, next, policy, numMatches, rounds - 1)
        case Failure(e) => Failure(e)
        case Success(rest) => Success([Totals(history, |seats|)] + rest)
  }

  /** A tournament runs every comparison: it succeeds exactly when its first
      comparison and the rest of the tournament do, and round i's totals
      count numMatches games for every player. */
  lemma {:induction false} TournamentCountsEveryGame<G(!new)>(rules: Rules<G>, seats: seq<int>,
                                                             policy: (int, G) -> int, numMatches: nat, rounds: nat)
    requires Finite(rules)
    ensures Tournament(rules, seats, policy, numMatches, rounds).Success? ==>
      forall i, k :: 0 <= i < rounds && 0 <= k < |seats| ==>
        Tournament(rules, seats, policy, numMatches, rounds).value[i][k].Games() == numMatches
    decreases rounds
  {
    if rounds > 0 && Comparison(rules, seats, policy, numMatches).Success? {
      var history := Comparison(rules, seats, policy, numMatches).value;
      forall k | 0 <= k < |seats|
        ensures Totals(history, |seats|)[k].Games() == numMatches
      {
        TotalCountsEveryGame(history, k);
      }
      var next := if |seats| == 0 then seats else Rotated(seats, numMatches);
      TournamentCountsEveryGame(rules, next, policy, numMatches, rounds - 1);
    }
  }

  lemma PrefixedNothing<T, E>(r: Result<seq<T>, E>)
    ensures Prefixed([], r) == r
  {
    if r.Success? {
      assert [] + r.value == r.value;
    }
  }

  lemma PrefixedTwice<T, E>(a: seq<T>, b: seq<T>, r: Result<seq<T>, E>)
    ensures Prefixed(a, Prefixed(b, r)) == Prefixed(a + b, r)
  {
    if r.Success? {
      assert a + (b + r.value) == (a + b) + r.value;
    }
  }

  /** Prefix a successful result with what has already been collected. */
  function Prefixed<T, E>(prefix: seq<T>, r: Result<seq<T>, E>): (p: Result<seq<T>, E>)
    ensures p.Success? <==> r.Success?
    ensures p.Failure? ==> p.error == r.error
    ensures p.Success? ==> p.value == prefix + r.value
  {
    match r
    case Success(v) => Success(prefix + v)
    case Failure(e) => Failure(e)
  }

  class GameHandler<G(!new)> {
    var game: G
    const players: seq<Player>

    /** The handler takes the game and the players and gives each player its
        seat: the seat of a player is its position in the list
        (BasePlayers.assign_game_index is not part of this model). */
    constructor (game: G, players: seq<Player>)
      modifies (set p | p in players)`gameIndex
      ensures this.game == game && this.players == players
      ensures Distinct(players) ==> forall i :: 0 <= i < |players| ==> players[i].gameIndex == i
    {
      this.game := game;
      this.players := players;
      new;
      var n := 0;
      while n < |players|
        invariant 0 <= n <= |players|
        invariant this.game == game && this.players == players
        invariant Distinct(players) ==> forall i :: 0 <= i < n ==> players[i].gameIndex == i
      {
        players[n].gameIndex := n;
        n := n + 1;
      }
    }

    /** start_game: the game is played until it is over, exactly as Playout
        describes (a negative turn counts seats from the end, as Python list
        indexing does); a turn with no seat or an illegal move fails. */
    method StartGame(rules: Rules<G>, policy: (int, G) -> int) returns (r: Outcome<MatchError>)
      requires Finite(rules)
      modifies this`game
      ensures var spec := Playout(rules, old(game), SeatedIndexes(players), policy);
        && (r.Pass? <==> spec.Success?)
        && (r.Pass? ==> game == spec.value && rules.isGameOver(game))
        && (r.Fail? ==> r.error == spec.error)
    {
      ghost var seats := SeatedIndexes(players);
      while !rules.isGameOver(game)
        invariant Playout(rules, game, seats, policy) == Playout(rules, old(game), seats, policy)
        decreases rules.movesLeft(game)
      {
        var seat := SeatAt(rules.turn(game), |players|);
        if seat.None? {
          return Fail(NoSuchSeat);
        }
        var player := players[seat.value];
        var next := rules.advance(game, policy(player.index, game));
        if next.None? {
          return Fail(IllegalMove);
        }
        AdvanceDecreases(rules, game, policy(player.index, game));
        game := next.value;
      }
      r := Pass;
    }

    /** get_game_index_result: one result per player, in seat order, each asked
        for with that player's seat. */
    method GetGameIndexResult(rules: Rules<G>) returns (result: seq<GameResult>)
      ensures |result| == |players|
      ensures forall i :: 0 <= i < |players| ==> result[i] == rules.result(game, players[i].gameIndex)
    {
      result := [];
      var n := 0;
      while n < |players|
        invariant 0 <= n <= |players| && |result| == n
        invariant forall i :: 0 <= i < n ==> result[i] == rules.result(game, players[i].gameIndex)
      {
        result := result + [rules.result(game, players[n].gameIndex)];
        n := n + 1;
      }
    }
  }

  // ---------------------------------------------------------------------------
  // Matchmaking
  // ---------------------------------------------------------------------------

  /** Position i of a list rotated left by `shift` holds the element that
      started at this position. */
  function Wrap(i: int, shift: int, n: int): int
  {
    if i + shift < n then i + shift else i + shift - n
  }

  /** Moving the first of a list of indices numbered from `shift` to the
      back gives the list numbered from the next shift. */
  lemma WrapAdvances(indexes: seq<int>, shift: nat)
    requires 0 < |indexes| && shift < |indexes|
    requires forall i :: 0 <= i < |indexes| ==> indexes[i] == Wrap(i, shift, |indexes|)
    ensures forall i :: 0 <= i < |indexes| ==>
      RotateOnce(indexes)[i] == Wrap(i, if shift + 1 < |indexes| then shift + 1 else 0, |indexes|)
  {
    var n := |indexes|;
    forall i | 0 <= i < n
      ensures RotateOnce(indexes)[i] == Wrap(i, if shift + 1 < n then shift + 1 else 0, n)
    {
      if i < n - 1 {
        assert RotateOnce(indexes)[i] == indexes[i + 1];
      } else {
        assert RotateOnce(indexes)[i] == indexes[0];
      }
    }
  }

  /** __compare's accumulation step: each player's totals plus the tally of
      that player's result in the game just played. */
  method Accumulate(results: seq<Tally>, played: seq<GameResult>) returns (updated: seq<Tally>)
    requires |results| == |played|
    ensures |updated| == |results|
    ensures forall k :: 0 <= k < |results| ==> updated[k] == results[k].Plus(TallyOf(played[k]))
  {
    updated := results;
    var i := 0;
    while i < |results|
      invariant 0 <= i <= |results| && |updated| == |results|
      invariant forall k :: 0 <= k < i ==> updated[k] == results[k].Plus(TallyOf(played[k]))
      invariant updated[i..] == results[i..]
    {
      updated := updated[i := results[i].Plus(TallyOf(played[i]))];
      i := i + 1;
    }
  }

  /** The constructor's loop: each player's index becomes its position; a
      player listed twice keeps the later position. */
  method NumberPlayers(players: seq<Player>)
    modifies (set p | p in players)`index
    ensures forall i :: 0 <= i < |players| ==>
      0 <= players[i].index < |players| && players[players[i].index] == players[i]
    ensures Distinct(players) ==> forall i :: 0 <= i < |players| ==> players[i].index == i
  {
    var n := 0;
    while n < |players|
      invariant 0 <= n <= |players|
      invariant forall i :: 0 <= i < n ==>
        0 <= players[i].index < n && players[players[i].index] == players[i]
      invariant Distinct(players) ==> forall i :: 0 <= i < n ==> players[i].index == i
    {
      players[n].index := n;
      n := n + 1;
    }
  }

  /** Where __compare's loop stands after m games that started from the
      list `start`, seated as `seats`: the list (`players`, with indices
      `indexes`) rotated m times, the games of Comparison played, and every
      player's totals summed over them. */
  ghost predicate Progress<G(!new)>(rules: Rules<G>, policy: (int, G) -> int, start: seq<Player>,
                                    seats: seq<int>, m: nat, history: seq<seq<GameResult>>, results: seq<Tally>,
                                    players: seq<Player>, indexes: seq<int>)
    requires Finite(rules)
  {
    && |players| == |start| && |seats| == |start| && |indexes| == |start| && |results| == |start|
    && (|start| > 0 ==> players == Rotated(start, m) && indexes == Rotated(seats, m))
    && (|start| == 0 ==> m == 0)
    && Comparison(rules, seats, policy, m) == Success(history)
    && forall k :: 0 <= k < |start| ==> results[k] == TotalFor(history, k)
  }

  /** A game played from where the loop stands, its results added and the
      list rotated, takes the loop one game further. */
  lemma ProgressStep<G(!new)>(rules: Rules<G>, policy: (int, G) -> int, start: seq<Player>,
                              seats: seq<int>, m: nat, history: seq<seq<GameResult>>, results: seq<Tally>,
                              players: seq<Player>, indexes: seq<int>,
                              played: seq<GameResult>, updated: seq<Tally>)
    requires Finite(rules) && Progress(rules, policy, start, seats, m, history, results, players, indexes)
    requires |players| > 0 && MatchResults(rules, indexes, policy) == Success(played)
    requires |updated| == |results|
    requires forall k :: 0 <= k < |results| ==> updated[k] == results[k].Plus(TallyOf(played[k]))
    ensures Progress(rules, policy, start, seats, m + 1, history + [played], updated,
                     RotateOnce(players), RotateOnce(indexes))
  {
    forall k | 0 <= k < |start|
      ensures TotalFor(history + [played], k) == updated[k]
    {
      TotalForSnoc(history, played, k);
    }
  }

  /** A game that cannot be played from where the loop stands, or a list
      that cannot be rotated, is where Comparison fails. */
  lemma ProgressStops<G(!new)>(rules: Rules<G>, policy: (int, G) -> int, start: seq<Player>,
                               seats: seq<int>, m: nat, history: seq<seq<GameResult>>, results: seq<Tally>,
                               players: seq<Player>, indexes: seq<int>, error: MatchError, count: nat)
    requires Finite(rules) && Progress(rules, policy, start, seats, m, history, results, players, indexes)
    requires !(MatchResults(rules, indexes, policy).Success? && |players| > 0)
    requires error == if MatchResults(rules, indexes, policy).Failure? then MatchResults(rules, indexes, policy).error else NoPlayers
    requires m < count
    ensures Comparison(rules, seats, policy, count) == Failure(error)
  {
    assert Comparison(rules, seats, policy, m + 1) == Failure(error);
    ComparisonFailureSticks(rules, seats, policy, m + 1, count);
  }

  /** The loop starts with no game played and nothing counted. */
  lemma ProgressStarts<G(!new)>(rules: Rules<G>, policy: (int, G) -> int, start: seq<Player>,
                                seats: seq<int>, results: seq<Tally>)
    requires Finite(rules) && |seats| == |start| && |results| == |start|
    requires forall k :: 0 <= k < |results| ==> results[k] == Tally(0, 0, 0)
    ensures Progress(rules, policy, start, seats, 0, [], results, start, seats)
  {
  }

  /** When the loop ends, the totals it holds are those of the games played. */
  lemma ProgressTotals<G(!new)>(rules: Rules<G>, policy: (int, G) -> int, start: seq<Player>,
                                seats: seq<int>, m: nat, history: seq<seq<GameResult>>, results: seq<Tally>,
                                players: seq<Player>, indexes: seq<int>)
    requires Finite(rules) && Progress(rules, policy, start, seats, m, history, results, players, indexes)
    ensures Comparison(rules, seats, policy, m) == Success(history)
    ensures results == Totals(history, |start|)
  {
  }

  class Matchmaking {
    var players: seq<Player>
    /** What was handed to the statistics collector, one entry per comparison
        (Matchmaking/Statistics.py is not part of this model). */
    var statistics: seq<seq<Tally>>
    /** How far the list has been rotated since the constructor. */
    ghost var shift: nat

    /** The player indices are the constructor's positions, rotated by `shift`. */
    ghost predicate Valid()
      reads this, (set p | p in players)`index
    {
      && (shift < |players| || shift == 0)
      && forall i :: 0 <= i < |players| ==> players[i].index == Wrap(i, shift, |players|)
    }

    /** The position of the player whose index is k. */
    ghost function PositionOf(k: int): int
      reads this
    {
      if k >= shift then k - shift else k - shift + |players|
    }

    /** The constructor numbers the players by position; distinct players thus
        get the distinct indices 0 .. n-1. */
    constructor (players: seq<Player>)
      modifies (set p | p in players)`index
      ensures this.players == players && statistics == []
      ensures forall i :: 0 <= i < |players| ==>
        0 <= players[i].index < |players| && players[players[i].index] == players[i]
      ensures Distinct(players) ==> Valid() && forall i :: 0 <= i < |players| ==> players[i].index == i
    {
      NumberPlayers(players);
      this.players := players;
      statistics := [];
      shift := 0;
    }

    /** Under Valid the player indices are distinct and cover 0 .. n-1 (index k
        sits at PositionOf(k)), and so the players are distinct objects. */
    lemma IndicesArePermutation()
      requires Valid()
      ensures forall i :: 0 <= i < |players| ==> 0 <= players[i].index < |players|
      ensures forall i, j :: 0 <= i < j < |players| ==> players[i].index != players[j].index
      ensures forall k :: 0 <= k < |players| ==>
        0 <= PositionOf(k) < |players| && players[PositionOf(k)].index == k
      ensures Distinct(players)
    {
    }

    /** Under Valid player index k sits first (and only) at PositionOf(k). */
    lemma SeatOfIsPositionOf()
      requires Valid()
      ensures forall k :: 0 <= k < |players| ==> SeatOf(SeatedIndexes(players), k) == PositionOf(k)
    {
      IndicesArePermutation();
      var seats := SeatedIndexes(players);
      forall k | 0 <= k < |players|
        ensures SeatOf(seats, k) == PositionOf(k)
      {
        assert seats[PositionOf(k)] == k;
      }
    }

    /** Under Valid the results MatchResults lists are those of the finished
        game read at each player's seat PositionOf(k), and MatchResults fails
        exactly when the game cannot be played out. */
    lemma MatchResultsByPosition<G(!new)>(rules: Rules<G>, policy: (int, G) -> int)
      requires Valid() && Finite(rules)
      ensures var game := MatchResults(rules, SeatedIndexes(players), policy);
        var spec := Playout(rules, rules.initial, SeatedIndexes(players), policy);
        && (game.Success? <==> spec.Success?)
        && (game.Failure? ==> game.error == spec.error)
        && (game.Success? ==> forall k :: 0 <= k < |players| ==>
              game.value[k] == rules.result(spec.value, PositionOf(k)))
    {
      SeatOfIsPositionOf();
    }

    /** __rearrange_players: the first player moves to the last position. */
    method RearrangePlayers()
      requires Valid() && |players| > 0
      modifies this`players, this`shift
      ensures players == RotateOnce(old(players))
      ensures SeatedIndexes(players) == RotateOnce(old(SeatedIndexes(players)))
      ensures Valid()
    {
      ghost var seats := SeatedIndexes(players);
      WrapAdvances(seats, shift);
      var player := players[0];
      players := players[1..];
      players := players + [player];
      shift := if shift + 1 < |players| then shift + 1 else 0;
      assert SeatedIndexes(players) == RotateOnce(seats);
    }

    /** match: a fresh game, seats by position, play, then the results moved
        to player order: under Valid the player with index k receives the
        result of its seat PositionOf(k) in the finished game, which is what
        MatchResults says. */
    method Match<G(!new)>(rules: Rules<G>, policy: (int, G) -> int)
      returns (r: Result<seq<Option<GameResult>>, MatchError>, ghost final: G)
      requires Valid() && Finite(rules)
      modifies (set p | p in players)`gameIndex
      ensures Valid() && SeatedIndexes(players) == old(SeatedIndexes(players))
      ensures var spec := Playout(rules, rules.initial, SeatedIndexes(players), policy);
        && (r.Success? <==> spec.Success?)
        && (r.Failure? ==> r.error == spec.error)
        && (r.Success? ==>
              && final == spec.value && rules.isGameOver(final)
              && |r.value| == |players|
              && forall k :: 0 <= k < |players| ==> r.value[k] == Some(rules.result(final, PositionOf(k))))
      ensures var game := MatchResults(rules, SeatedIndexes(players), policy);
        && (r.Success? <==> game.Success?)
        && (r.Failure? ==> r.error == game.error)
        && (r.Success? ==> forall k :: 0 <= k < |players| ==> r.value[k] == Some(game.value[k]))
    {
      var outcome, gameIndexResult;
      outcome, gameIndexResult, final := PlayGame(rules, policy);
      if outcome.Fail? {
        MatchResultsByPosition(rules, policy);
        return Failure(outcome.error), final;
      }
      IndicesArePermutation();
      var result := GetIndexResult(gameIndexResult, players);
      forall k | 0 <= k < |players|
        ensures result[k] == Some(rules.result(final, PositionOf(k)))
      {
        var i := PositionOf(k);
        assert players[i].index == k && players[i].gameIndex == i;
      }
      r := Success(result);
      MatchResultsByPosition(rules, policy);
    }

    /** match up to the results by seat: a fresh game handed to a
        GameHandler, which seats the players by position, plays the game out
        and reads off every seat's result. */
    method PlayGame<G(!new)>(rules: Rules<G>, policy: (int, G) -> int)
      returns (r: Outcome<MatchError>, gameIndexResult: seq<GameResult>, ghost final: G)
      requires Valid() && Finite(rules)
      modifies (set p | p in players)`gameIndex
      ensures Valid() && SeatedIndexes(players) == old(SeatedIndexes(players))
      ensures forall i :: 0 <= i < |players| ==> players[i].gameIndex == i
      ensures var spec := Playout(rules, rules.initial, SeatedIndexes(players), policy);
        && (r.Pass? <==> spec.Success?)
        && (r.Fail? ==> r.error == spec.error)
        && (r.Pass? ==>
              && final == spec.value && rules.isGameOver(final)
              && |gameIndexResult| == |players|
              && forall i :: 0 <= i < |players| ==> gameIndexResult[i] == rules.result(final, i))
    {
      IndicesArePermutation();
      ghost var seats := SeatedIndexes(players);
      final := rules.initial;
      gameIndexResult := [];
      var handler := new GameHandler(rules.initial, players);
      assert Valid();
      assert SeatedIndexes(players) == seats;
      r := handler.StartGame(rules, policy);
      if r.Fail? {
        return;
      }
      final := handler.game;
      gameIndexResult := handler.GetGameIndexResult(rules);
    }

    /** __compare: num_matches games, each player's [win, lose, draw] totals
        summed game by game in player order, the list rearranged after every
        game. It does what Comparison describes for the seating it starts
        from: it fails with the first game's error, and otherwise every
        player's totals are those of the games Comparison lists. */
    method Compare<G(!new)>(numMatches: nat, rules: Rules<G>, policy: (int, G) -> int)
      returns (r: Result<seq<Tally>, MatchError>)
      requires Valid() && Finite(rules)
      modifies this`players, this`shift, (set p | p in players)`gameIndex
      ensures Valid() && statistics == old(statistics) && |players| == |old(players)|
      ensures forall p :: p in players <==> p in old(players)
      ensures r.Success? && |old(players)| > 0 ==>
        && players == Rotated(old(players), numMatches)
        && SeatedIndexes(players) == Rotated(old(SeatedIndexes(players)), numMatches)
      ensures var spec := Comparison(rules, old(SeatedIndexes(players)), policy, numMatches);
        && (r.Success? <==> spec.Success?)
        && (r.Failure? ==> r.error == spec.error)
        && (r.Success? ==> r.value == Totals(spec.value, |players|))
    {
      ghost var seats := SeatedIndexes(players);
      var n := |players|;
      var results := seq(n, _ => Tally(0, 0, 0));
      ghost var history: seq<seq<GameResult>> := [];
      ProgressStarts(rules, policy, players, seats, results);
      var m := 0;
      while m < numMatches
        invariant 0 <= m <= numMatches && Valid()
        invariant forall p :: p in players <==> p in old(players)
        invariant Progress(rules, policy, old(players), seats, m, history, results, players, SeatedIndexes(players))
      {
        ghost var before := players;
        ghost var indexes := SeatedIndexes(players);
        var round, played := CompareRound(rules, policy, results);
        if round.Failure? {
          ProgressStops(rules, policy, old(players), seats, m, history, results, before, indexes, round.error, numMatches);
          return Failure(round.error);
        }
        ProgressStep(rules, policy, old(players), seats, m, history, results, before, indexes, played, round.value);
        history := history + [played];
        results := round.value;
        m := m + 1;
      }
      ProgressTotals(rules, policy, old(players), seats, m, history, results, players, SeatedIndexes(players));
      r := Success(results);
    }

    /** One pass of __compare's loop: a match, its results added to every
        player's totals, then the first player moved to the back; with no
        players the move fails. */
    method CompareRound<G(!new)>(rules: Rules<G>, policy: (int, G) -> int, results: seq<Tally>)
      returns (r: Result<seq<Tally>, MatchError>, played: seq<GameResult>)
      requires Valid() && Finite(rules) && |results| == |players|
      modifies this`players, this`shift, (set p | p in players)`gameIndex
      ensures Valid() && statistics == old(statistics) && |players| == |old(players)|
      ensures forall p :: p in players <==> p in old(players)
      ensures var game := MatchResults(rules, old(SeatedIndexes(players)), policy);
        && (r.Success? <==> game.Success? && |old(players)| > 0)
        && (r.Failure? ==> r.error == if game.Failure? then game.error else NoPlayers)
        && (r.Success? ==> played == game.value)
      ensures r.Success? ==>
        && players == RotateOnce(old(players))
        && SeatedIndexes(players) == RotateOnce(old(SeatedIndexes(players)))
        && |r.value| == |players|
        && forall k :: 0 <= k < |players| ==> r.value[k] == results[k].Plus(TallyOf(played[k]))
    {
      var n := |players|;
      var gameResult, _ := Match(rules, policy);
      played := [];
      if gameResult.Failure? {
        return Failure(gameResult.error), played;
      }
      played := Played(gameResult.value);
      var updated := Accumulate(results, played);
      if n == 0 {
        return Failure(NoPlayers), played;
      }
      RearrangePlayers();
      r := Success(updated);
    }

    /** __train: every ExIt player runs one self-play training session; other
        players are left alone. */
    method Train()
      requires Valid()
      modifies (set p | p in players && p.isExIt)`trainingRuns
      ensures Valid() && SeatedIndexes(players) == old(SeatedIndexes(players))
      ensures forall p :: p in players ==>
        p.trainingRuns == old(p.trainingRuns) + (if p.isExIt then 1 else 0)
    {
      IndicesArePermutation();
      ghost var seats := SeatedIndexes(players);
      var n := 0;
      while n < |players|
        invariant 0 <= n <= |players|
        invariant forall i :: 0 <= i < n ==>
          players[i].trainingRuns == old(players[i].trainingRuns) + (if players[i].isExIt then 1 else 0)
        invariant forall i :: n <= i < |players| ==> players[i].trainingRuns == old(players[i].trainingRuns)
      {
        var player := players[n];
        if player.isExIt {
          player.trainingRuns := player.trainingRuns + 1;
        }
        n := n + 1;
      }
      assert SeatedIndexes(players) == seats;
    }

    /** compare_ex_it with a finite iteration count N: starts fresh
        statistics, compares, hands the totals to the statistics, and stops
        after the comparison numbered N; in between, trains. It does what
        Tournament describes for N + 1 rounds: it fails with the first
        failing comparison's error, and otherwise the statistics hold every
        round's totals and nothing else. */
    method CompareExIt<G(!new)>(numMatches: nat, numIteration: nat, rules: Rules<G>, policy: (int, G) -> int)
      returns (r: Outcome<MatchError>)
      requires Valid() && Finite(rules)
      modifies this, (set p | p in players)`gameIndex, (set p | p in players && p.isExIt)`trainingRuns
      ensures Valid()
      ensures var spec := Tournament(rules, old(SeatedIndexes(players)), policy, numMatches, numIteration + 1);
        && (r.Pass? <==> spec.Success?)
        && (r.Fail? ==> r.error == spec.error)
        && (r.Pass? ==> statistics == spec.value)
      ensures r.Pass? ==> forall p :: p in old(players) && p.isExIt ==>
        p.trainingRuns == old(p.trainingRuns) + numIteration
    {
      statistics := [];
      ghost var base := 0;
      ghost var rest := Tournament(rules, SeatedIndexes(players), policy, numMatches, numIteration + 1);
      ghost var spec := rest;
      PrefixedNothing(spec);
      var i := 0;
      while true
        invariant 0 <= i <= numIteration && Valid()
        invariant forall p :: p in players <==> p in old(players)
        invariant |statistics| == i
        invariant forall p :: p in old(players) && p.isExIt ==> p.trainingRuns == old(p.trainingRuns) + i
        invariant rest == Tournament(rules, SeatedIndexes(players), policy, numMatches, numIteration + 1 - i)
        invariant spec == Prefixed(statistics[base..], rest)
        decreases numIteration - i
      {
        var outcome, next := Iteration(numMatches, numIteration + 1 - i, i >= numIteration, rules, policy, rest, base, spec);
        if outcome.Fail? {
          return outcome;
        }
        rest := next;
        if i >= numIteration {
          break;
        }
        i := i + 1;
      }
      assert statistics[base..] == statistics;
      r := Pass;
    }

    /** One pass of compare_ex_it's loop: compare and save, then, unless this
        is the last pass, train the ExIt players. */
    method Iteration<G(!new)>(numMatches: nat, rounds: nat, last: bool, rules: Rules<G>, policy: (int, G) -> int,
                              ghost rest: Result<seq<seq<Tally>>, MatchError>,
                              ghost base: nat, ghost spec: Result<seq<seq<Tally>>, MatchError>)
      returns (r: Outcome<MatchError>, ghost next: Result<seq<seq<Tally>>, MatchError>)
      requires Valid() && Finite(rules) && rounds > 0 && base <= |statistics|
      requires rest == Tournament(rules, SeatedIndexes(players), policy, numMatches, rounds)
      requires spec == Prefixed(statistics[base..], rest)
      modifies this, (set p | p in players)`gameIndex, (set p | p in players && p.isExIt)`trainingRuns
      ensures Valid()
      ensures forall p :: p in players <==> p in old(players)
      ensures old(statistics) <= statistics
      ensures r.Fail? ==> rest.Failure? && r.error == rest.error
      ensures r.Pass? ==>
        && |statistics| == |old(statistics)| + 1
        && next == Tournament(rules, SeatedIndexes(players), policy, numMatches, rounds - 1)
        && spec == Prefixed(statistics[base..], next)
      ensures r.Pass? ==> forall p :: p in old(players) && p.isExIt ==>
        p.trainingRuns == old(p.trainingRuns) + (if last then 0 else 1)
    {
      r, next := CompareAndSave(numMatches, rounds, rules, policy, rest, base, spec);
      if r.Pass? && !last {
        ghost var seats := SeatedIndexes(players);
        Train();
        assert SeatedIndexes(players) == seats;
      }
    }

    /** One pass of compare_ex_it's loop up to the training: a comparison
        whose totals are handed to the statistics. It is the first round of
        the tournament `rest` left to play from the current seating, and
        `next` is what is left after it. */
    method CompareAndSave<G(!new)>(numMatches: nat, rounds: nat, rules: Rules<G>, policy: (int, G) -> int,
                                   ghost rest: Result<seq<seq<Tally>>, MatchError>,
                                   ghost base: nat, ghost spec: Result<seq<seq<Tally>>, MatchError>)
      returns (r: Outcome<MatchError>, ghost next: Result<seq<seq<Tally>>, MatchError>)
      requires Valid() && Finite(rules) && rounds > 0 && base <= |statistics|
      requires rest == Tournament(rules, SeatedIndexes(players), policy, numMatches, rounds)
      requires spec == Prefixed(statistics[base..], rest)
      modifies this, (set p | p in players)`gameIndex
      ensures Valid()
      ensures forall p :: p in players <==> p in old(players)
      ensures old(statistics) <= statistics
      ensures r.Fail? ==> rest.Failure? && r.error == rest.error
      ensures r.Pass? ==>
        && |statistics| == |old(statistics)| + 1
        && next == Tournament(rules, SeatedIndexes(players), policy, numMatches, rounds - 1)
        && rest == Prefixed([statistics[|old(statistics)|]], next)
        && spec == Prefixed(statistics[base..], next)
    {
      ghost var seats := SeatedIndexes(players);
      next := rest;
      var results := Compare(numMatches, rules, policy);
      if results.Failure? {
        return Fail(results.error), next;
      }
      ghost var history := Comparison(rules, seats, policy, numMatches).value;
      next := Tournament(rules, SeatedIndexes(players), policy, numMatches, rounds - 1);
      assert rest == Prefixed([results.value], next);
      ghost var before := statistics;
      PrefixedTwice(before[base..], [results.value], next);
      statistics := statistics + [results.value];
      assert statistics[base..] == before[base..] + [results.value];
      r := Pass;
    }
  }

  /** The game's results in player order, once every player index has one
      (GameResult.get_players_result_list_ is not part of this model). */
  function Played(result: seq<Option<GameResult>>): (played: seq<GameResult>)
    requires forall k :: 0 <= k < |result| ==> result[k].Some?
    ensures |played| == |result|
    ensures forall k :: 0 <= k < |result| ==> Some(played[k]) == result[k]
  {
    seq(|result|, k requires 0 <= k < |result| => result[k].value)
  }
}
