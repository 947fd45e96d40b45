/** The Expert Iteration trainer (ExIt/ExpertIteration.py): a bounded softmax
    over the expert's action values, the two ways of turning it into an action,
    one training step that records a sample and then plays the action, and the
    self-play loop that counts the games it plays. Values are exact reals. */
module ExpertIteration {
  import opened Outcomes
  import opened GameLogic

  // ---------------------------------------------------------------------------
  // Sums and distributions
  // ---------------------------------------------------------------------------

  function Sum(xs: seq<real>): real
  {
    if |xs| == 0 then 0.0 else xs[0] + Sum(xs[1..])
  }

  predicate NonNegative(xs: seq<real>)
  {
    forall i :: 0 <= i < |xs| ==> xs[i] >= 0.0
  }

  /** What np.random.choice accepts as `p`: non-negative weights summing to 1. */
  predicate IsDistribution(xs: seq<real>)
  {
    NonNegative(xs) && Sum(xs) == 1.0
  }

  lemma {:induction false} SumOfNonNegative(xs: seq<real>)
    requires NonNegative(xs)
    ensures Sum(xs) >= 0.0
    ensures forall i :: 0 <= i < |xs| ==> xs[i] <= Sum(xs)
    ensures Sum(xs) == 0.0 <==> forall i :: 0 <= i < |xs| ==> xs[i] == 0.0
  {
    if |xs| > 0 {
      SumOfNonNegative(xs[1..]);
      forall i | 1 <= i < |xs|
        ensures xs[i] <= Sum(xs)
      {
        assert xs[i] == xs[1..][i - 1];
      }
      if Sum(xs) == 0.0 {
        forall i | 1 <= i < |xs|
          ensures xs[i] == 0.0
        {
          assert xs[i] == xs[1..][i - 1];
        }
      }
      if forall i :: 0 <= i < |xs| ==> xs[i] == 0.0 {
        assert forall i :: 0 <= i < |xs[1..]| ==> xs[1..][i] == 0.0 by {
          forall i | 0 <= i < |xs[1..]|
            ensures xs[1..][i] == 0.0
          {
            assert xs[1..][i] == xs[i + 1];
          }
        }
      }
    }
  }

  /** A positive total needs a positive entry. */
  lemma {:induction false} PositiveEntryExists(xs: seq<real>)
    requires Sum(xs) > 0.0
    ensures exists i :: 0 <= i < |xs| && xs[i] > 0.0
  {
    if xs[0] <= 0.0 {
      PositiveEntryExists(xs[1..]);
      var i :| 0 <= i < |xs[1..]| && xs[1..][i] > 0.0;
      assert xs[i + 1] > 0.0;
    }
  }

  function Scaled(xs: seq<real>, total: real): seq<real>
    requires total != 0.0
  {
    seq(|xs|, i requires 0 <= i < |xs| => xs[i] / total)
  }

  lemma {:induction false} SumScaled(xs: seq<real>, total: real)
    requires total != 0.0
    ensures Sum(Scaled(xs, total)) == Sum(xs) / total
  {
    if |xs| > 0 {
      SumScaled(xs[1..], total);
      assert Scaled(xs, total)[1..] == Scaled(xs[1..], total);
    }
  }

  function Uniform(n: nat): seq<real>
  {
    seq(n, i requires 0 <= i < n => 1.0 / (n as real))
  }

  lemma {:induction false} SumConstant(n: nat, c: real)
    ensures Sum(seq(n, i => c)) == (n as real) * c
  {
    if n > 0 {
      SumConstant(n - 1, c);
      assert seq(n, i => c)[1..] == seq(n - 1, i => c);
    }
  }

  // ---------------------------------------------------------------------------
  // softmax
  // ---------------------------------------------------------------------------

  function Abs(x: real): real
  {
    if x < 0.0 then -x else x
  }

  /** One step of the clamping loop: below the lower bound becomes the lower
      bound, else above the upper bound becomes the upper bound. */
  function Clamp(x: real, lower: real, upper: real): real
  {
    if x < lower then lower else if x > upper then upper else x
  }

  function Clamped(vs: seq<real>, lower: real, upper: real): seq<real>
  {
    seq(|vs|, i requires 0 <= i < |vs| => Clamp(vs[i], lower, upper))
  }

  function ShiftedBy(cs: seq<real>, d: real): seq<real>
  {
    seq(|cs|, i requires 0 <= i < |cs| => cs[i] + d)
  }

  /** The part of softmax after the clamping loop: shift by |lower|, divide by
      the total, or fall back to 1/n when the total is zero. */
  function Normalised(cs: seq<real>, lower: real): seq<real>
  {
    var shifted := ShiftedBy(cs, Abs(lower));
    var total := Sum(shifted);
    if total != 0.0 then Scaled(shifted, total) else Uniform(|shifted|)
  }

  /** softmax(v_values, upper_bound, lower_bound) as a value: the output has
      one entry per input value. */
  function BoundedSoftmax(vs: seq<real>, upper: real, lower: real): (pi: seq<real>)
    ensures |pi| == |vs|
  {
    Normalised(Clamped(vs, lower, upper), lower)
  }

  /** softmax takes its uniform branch. */
  predicate FallsBack(vs: seq<real>, upper: real, lower: real)
  {
    Sum(ShiftedBy(Clamped(vs, lower, upper), Abs(lower))) == 0.0
  }

  lemma ShiftedNonNegative(vs: seq<real>, upper: real, lower: real)
    requires lower <= upper
    ensures NonNegative(ShiftedBy(Clamped(vs, lower, upper), Abs(lower)))
  {
  }

  lemma DivideWithin(x: real, total: real)
    requires 0.0 <= x <= total && total > 0.0
    ensures 0.0 <= x / total <= 1.0
  {
    assert x / total * total == x;
  }

  lemma DivideMonotone(x: real, y: real, total: real)
    requires x <= y && total > 0.0
    ensures x / total <= y / total
  {
    assert x / total * total == x;
    assert y / total * total == y;
  }

  /** Weights between 0 and their positive total stay in [0, 1] when divided by it. */
  lemma ScaledWithinUnit(xs: seq<real>, total: real)
    requires total > 0.0
    requires forall i :: 0 <= i < |xs| ==> 0.0 <= xs[i] <= total
    ensures forall i :: 0 <= i < |xs| ==> 0.0 <= Scaled(xs, total)[i] <= 1.0
  {
    forall i | 0 <= i < |xs|
      ensures 0.0 <= Scaled(xs, total)[i] <= 1.0
    {
      DivideWithin(xs[i], total);
    }
  }

  lemma DivideSelf(x: real)
    requires x != 0.0
    ensures x / x == 1.0
  {
  }

  /** Dividing non-negative weights by their non-zero total gives a distribution. */
  lemma ScaledIsDistribution(xs: seq<real>)
    requires NonNegative(xs) && Sum(xs) != 0.0
    ensures IsDistribution(Scaled(xs, Sum(xs)))
    ensures forall i :: 0 <= i < |xs| ==> 0.0 <= Scaled(xs, Sum(xs))[i] <= 1.0
  {
    var total := Sum(xs);
    SumOfNonNegative(xs);
    ScaledWithinUnit(xs, total);
    SumScaled(xs, total);
    DivideSelf(total);
  }

  lemma UniformIsDistribution(n: nat)
    requires n > 0
    ensures IsDistribution(Uniform(n))
    ensures forall i :: 0 <= i < n ==> 0.0 <= Uniform(n)[i] <= 1.0
  {
    assert Uniform(n) == seq(n, i => 1.0 / (n as real));
    SumConstant(n, 1.0 / (n as real));
    DivideWithin(1.0, n as real);
  }

  /** For a non-empty input and bounds in order, softmax yields a distribution:
      every entry lies in [0, 1] and the entries sum to 1. */
  lemma SoftmaxIsDistribution(vs: seq<real>, upper: real, lower: real)
    requires lower <= upper && |vs| > 0
    ensures IsDistribution(BoundedSoftmax(vs, upper, lower))
    ensures forall i :: 0 <= i < |vs| ==> 0.0 <= BoundedSoftmax(vs, upper, lower)[i] <= 1.0
  {
    var shifted := ShiftedBy(Clamped(vs, lower, upper), Abs(lower));
    ShiftedNonNegative(vs, upper, lower);
    if Sum(shifted) != 0.0 {
      ScaledIsDistribution(shifted);
    } else {
      UniformIsDistribution(|vs|);
    }
  }

  /** The uniform branch is taken exactly when the input is empty, or when the
      lower bound is not positive and every value is at or below it; it then
      gives every action probability 1/n. */
  lemma SoftmaxFallback(vs: seq<real>, upper: real, lower: real)
    requires lower < upper
    ensures FallsBack(vs, upper, lower) <==>
      |vs| == 0 || (lower <= 0.0 && forall i :: 0 <= i < |vs| ==> vs[i] <= lower)
    ensures FallsBack(vs, upper, lower) ==>
      forall i :: 0 <= i < |vs| ==> BoundedSoftmax(vs, upper, lower)[i] == 1.0 / (|vs| as real)
  {
    var shifted := ShiftedBy(Clamped(vs, lower, upper), Abs(lower));
    ShiftedNonNegative(vs, upper, lower);
    SumOfNonNegative(shifted);
    if |vs| > 0 && !(lower <= 0.0 && forall i :: 0 <= i < |vs| ==> vs[i] <= lower) {
      if lower > 0.0 {
        assert shifted[0] > 0.0;
      } else {
        var i :| 0 <= i < |vs| && vs[i] > lower;
        assert Clamped(vs, lower, upper)[i] == Clamp(vs[i], lower, upper) > lower;
        assert shifted[i] > 0.0;
      }
    }
  }

  /** softmax keeps the order of the values: a larger value never gets a
      smaller probability. */
  lemma SoftmaxMonotone(vs: seq<real>, upper: real, lower: real, i: nat, j: nat)
    requires lower <= upper
    requires i < |vs| && j < |vs| && vs[i] <= vs[j]
    ensures BoundedSoftmax(vs, upper, lower)[i] <= BoundedSoftmax(vs, upper, lower)[j]
  {
    var shifted := ShiftedBy(Clamped(vs, lower, upper), Abs(lower));
    ShiftedNonNegative(vs, upper, lower);
    SumOfNonNegative(shifted);
    var total := Sum(shifted);
    if total != 0.0 {
      assert shifted[i] <= shifted[j];
      DivideMonotone(shifted[i], shifted[j], total);
    }
  }

  /** Values all below the lower bound give the uniform distribution; values
      inside the bounds are shifted and normalised. */
  lemma SoftmaxExamples()
    ensures BoundedSoftmax([-5.0, -5.0], 1.0, -1.0) == [0.5, 0.5]
    ensures BoundedSoftmax([0.0, 1.0], 1.0, -1.0) == [1.0 / 3.0, 2.0 / 3.0]
  {
    var low := ShiftedBy(Clamped([-5.0, -5.0], -1.0, 1.0), 1.0);
    assert low == [0.0, 0.0];
    assert Sum(low) == 0.0 by {
      assert low[1..] == [0.0];
      assert low[1..][1..] == [];
    }
    var mid := ShiftedBy(Clamped([0.0, 1.0], -1.0, 1.0), 1.0);
    assert mid == [1.0, 2.0];
    assert Sum(mid) == 3.0 by {
      assert mid[1..] == [2.0];
      assert mid[1..][1..] == [];
    }
  }

  /** softmax: clamps the caller's array in place, then returns the shifted and
      normalised probabilities of the clamped values. */
  method Softmax(vValues: array<real>, upperBound: real, lowerBound: real) returns (pi: seq<real>)
    modifies vValues
    ensures vValues[..] == Clamped(old(vValues[..]), lowerBound, upperBound)
    ensures pi == BoundedSoftmax(old(vValues[..]), upperBound, lowerBound)
  {
    var i := 0;
    while i < vValues.Length
      invariant 0 <= i <= vValues.Length
      invariant forall k :: 0 <= k < i ==> vValues[k] == Clamp(old(vValues[k]), lowerBound, upperBound)
      invariant forall k :: i <= k < vValues.Length ==> vValues[k] == old(vValues[k])
    {
      var v := vValues[i];
      if v < lowerBound {
        vValues[i] := lowerBound;
      } else if v > upperBound {
        vValues[i] := upperBound;
      }
      i := i + 1;
    }
    pi := Normalised(vValues[..], lowerBound);
  }

  // ---------------------------------------------------------------------------
  // Choosing the action
  // ---------------------------------------------------------------------------

  /** The first position among pi[..n] holding the largest value. */
  function ArgMaxPrefix(pi: seq<real>, n: nat): (k: nat)
    requires 0 < n <= |pi|
    ensures k < n
    ensures forall j :: 0 <= j < n ==> pi[j] <= pi[k]
    ensures forall j :: 0 <= j < k ==> pi[j] < pi[k]
  {
    if n == 1 then 0
    else
      var k := ArgMaxPrefix(pi, n - 1);
      if pi[n - 1] > pi[k] then n - 1 else k
  }

  /** get_action_index_exploit: np.argmax, the first position of the maximum
      (a position in pi, not an element of the action list); an empty pi has
      none. */
  function GetActionIndexExploit(pi: seq<real>): (r: Option<nat>)
    ensures r.None? <==> |pi| == 0
    ensures r.Some? ==> (r.value < |pi|
      && (forall j :: 0 <= j < |pi| ==> pi[j] <= pi[r.value])
      && (forall j :: 0 <= j < r.value ==> pi[j] < pi[r.value]))
  {
    if |pi| == 0 then None else Some(ArgMaxPrefix(pi, |pi|))
  }

  /** Ties go to the first maximum. */
  lemma ExploitExample()
    ensures GetActionIndexExploit([0.2, 0.4, 0.4]) == Some(1)
  {
    var pi := [0.2, 0.4, 0.4];
    assert ArgMaxPrefix(pi, 2) == 1;
  }

  /** Why np.random.choice refuses its arguments, in the order it checks. */
  datatype ChoiceError = EmptyActions | SizeMismatch | NegativeProbability | NotNormalised

  /** get_action_index_explore: an element of action_indexes drawn with the
      probabilities pi; only an element with positive probability can come out. */
  method GetActionIndexExplore<A>(pi: seq<real>, actionIndexes: seq<A>) returns (r: Result<A, ChoiceError>)
    ensures r == Failure(EmptyActions) <==> |actionIndexes| == 0
    ensures r == Failure(SizeMismatch) <==> |actionIndexes| > 0 && |pi| != |actionIndexes|
    ensures r == Failure(NegativeProbability) <==>
      |actionIndexes| > 0 && |pi| == |actionIndexes| && !NonNegative(pi)
    ensures r == Failure(NotNormalised) <==>
      |actionIndexes| > 0 && |pi| == |actionIndexes| && NonNegative(pi) && Sum(pi) != 1.0
    ensures r.Success? ==> exists i :: 0 <= i < |pi| && pi[i] > 0.0 && r.value == actionIndexes[i]
  {
    if |actionIndexes| == 0 {
      return Failure(EmptyActions);
    }
    if |pi| != |actionIndexes| {
      return Failure(SizeMismatch);
    }
    if !NonNegative(pi) {
      return Failure(NegativeProbability);
    }
    if Sum(pi) != 1.0 {
      return Failure(NotNormalised);
    }
    PositiveEntryExists(pi);
    var i :| 0 <= i < |pi| && pi[i] > 0.0;
    r := Success(actionIndexes[i]);
  }

  // ---------------------------------------------------------------------------
  // The trainer
  // ---------------------------------------------------------------------------

  /** What the expert's search returns for a state: the value of each action,
      the actions themselves, and the value of the state. */
  datatype SearchResult = SearchResult(vValues: seq<real>, actionIndexes: seq<int>, v: real)

  /** One sample handed to the data set. */
  datatype Sample<G> = Sample(state: G, actionIndex: int, v: real)

  datatype StepError = NoValues | Choice(error: ChoiceError) | IllegalAction

  /** The action ex_it_state may take for a search result: without randomness
      the arg-max position of the probabilities, with randomness an action
      that has positive probability in a distribution as long as the action
      list (np.random.choice refuses any other). */
  ghost predicate Chosen(search: SearchResult, randomness: bool, action: int)
  {
    var pi := BoundedSoftmax(search.vValues, 1.0, -1.0);
    if !randomness then
      action >= 0 && GetActionIndexExploit(pi) == Some(action as nat)
    else
      |pi| == |search.actionIndexes|
      && exists i :: 0 <= i < |pi| && pi[i] > 0.0 && action == search.actionIndexes[i]
  }

  /** Why ex_it_state cannot choose an action for a search result, if it
      cannot: exploiting needs values (np.argmax of an empty list raises);
      exploring needs a non-empty action list as long as the values (softmax
      always gives np.random.choice a valid distribution here). */
  function ChoiceFailure(search: SearchResult, randomness: bool): (e: Option<StepError>)
    ensures e.Some? ==> e.value != IllegalAction
  {
    if !randomness then
      if |search.vValues| == 0 then Some(NoValues) else None
    else if |search.actionIndexes| == 0 then Some(Choice(EmptyActions))
    else if |search.vValues| != |search.actionIndexes| then Some(Choice(SizeMismatch))
    else None
  }

  /** An action Chosen allows is one ex_it_state can choose: where the
      choice fails, no action is Chosen. */
  lemma ChosenIsChoosable(search: SearchResult, randomness: bool, action: int)
    requires Chosen(search, randomness, action)
    ensures ChoiceFailure(search, randomness).None?
  {
  }

  /** The choice half of ex_it_state: softmax with bounds [-1, 1] on the search
      values, then exploit or explore. The source clamps the search's list in
      place and nothing reads it afterwards, so an array copy stands for it.
      It fails exactly as ChoiceFailure says, and otherwise returns an action
      Chosen allows. */
  method ChooseAction(search: SearchResult, randomness: bool) returns (a: Result<int, StepError>)
    ensures a.Failure? <==> ChoiceFailure(search, randomness).Some?
    ensures a.Failure? ==> a.error == ChoiceFailure(search, randomness).value
    ensures a.Success? ==> Chosen(search, randomness, a.value)
  {
    var vs := search.vValues;
    var values := new real[|vs|](i requires 0 <= i < |vs| => vs[i]);
    assert values[..] == vs;
    var pi := Softmax(values, 1.0, -1.0);
    if !randomness {
      a := Exploit(search, pi);
    } else {
      a := Explore(search, pi);
    }
  }

  /** The exploit branch: the arg-max position of pi, which fails only when
      the search gave no values. */
  method Exploit(search: SearchResult, pi: seq<real>) returns (a: Result<int, StepError>)
    requires pi == BoundedSoftmax(search.vValues, 1.0, -1.0)
    ensures a.Failure? <==> ChoiceFailure(search, false).Some?
    ensures a.Failure? ==> a.error == ChoiceFailure(search, false).value
    ensures a.Success? ==> Chosen(search, false, a.value)
  {
    var k := GetActionIndexExploit(pi);
    if k.None? {
      return Failure(NoValues);
    }
    a := Success(k.value);
  }

  /** The explore branch: np.random.choice over the action list with
      probabilities pi, which fails only on an empty or mismatched list. */
  method Explore(search: SearchResult, pi: seq<real>) returns (a: Result<int, StepError>)
    requires pi == BoundedSoftmax(search.vValues, 1.0, -1.0)
    ensures a.Failure? <==> ChoiceFailure(search, true).Some?
    ensures a.Failure? ==> a.error == ChoiceFailure(search, true).value
    ensures a.Success? ==> Chosen(search, true, a.value)
  {
    if |pi| > 0 {
      SoftmaxIsDistribution(search.vValues, 1.0, -1.0);
      assert NonNegative(pi) && Sum(pi) == 1.0;
    }
    var c := GetActionIndexExplore(pi, search.actionIndexes);
    if c.Failure? {
      assert c.error == EmptyActions || c.error == SizeMismatch by {
        assert c == Failure(c.error);
      }
      return Failure(Choice(c.error));
    }
    a := Success(c.value);
  }

  /** One step of a game as start_ex_it plays it: from a state that is not
      over, the sample records the state, an action the expert's search lets
      ex_it_state choose, and the search value; the action is legal, and the
      step leads to the state it produces. */
  ghost function Step<G(!new)>(rules: Rules<G>, expert: G -> SearchResult, randomness: bool,
                               state: G, sample: Sample<G>): Option<G>
  {
    if !rules.isGameOver(state) && sample.state == state && sample.v == expert(state).v
       && Chosen(expert(state), randomness, sample.actionIndex)
    then rules.advance(state, sample.actionIndex)
    else None
  }

  /** The state a game reaches from the initial state when its samples are
      replayed step by step, or None when they are not a game start_ex_it
      can play. */
  ghost function Replay<G(!new)>(rules: Rules<G>, expert: G -> SearchResult, randomness: bool,
                                 trace: seq<Sample<G>>): Option<G>
  {
    if trace == [] then Some(rules.initial)
    else match Replay(rules, expert, randomness, trace[..|trace| - 1])
      case None => None
      case Some(state) => Step(rules, expert, randomness, state, trace[|trace| - 1])
  }

  /** A game played to its end: its samples replay to a finished state. */
  ghost predicate PlayedGame<G(!new)>(rules: Rules<G>, expert: G -> SearchResult, randomness: bool,
                                      trace: seq<Sample<G>>)
  {
    Replay(rules, expert, randomness, trace).Some?
    && rules.isGameOver(Replay(rules, expert, randomness, trace).value)
  }

  /** Every one of the games was played to its end, game j with the
      search the expert makes in game j. */
  ghost predicate AllPlayed<G(!new)>(rules: Rules<G>, experts: nat -> G -> SearchResult, randomness: bool,
                                     traces: seq<seq<Sample<G>>>)
  {
    forall j :: 0 <= j < |traces| ==> PlayedGame(rules, experts(j), randomness, traces[j])
  }

  lemma AllPlayedSnoc<G(!new)>(rules: Rules<G>, experts: nat -> G -> SearchResult, randomness: bool,
                               traces: seq<seq<Sample<G>>>, game: seq<Sample<G>>)
    requires AllPlayed(rules, experts, randomness, traces)
    ensures (traces + [game])[..|traces|] == traces
    ensures PlayedGame(rules, experts(|traces|), randomness, game) ==> AllPlayed(rules, experts, randomness, traces + [game])
  {
    assert (traces + [game])[..|traces|] == traces;
    if PlayedGame(rules, experts(|traces|), randomness, game) {
      forall j | 0 <= j < |traces| + 1
        ensures PlayedGame(rules, experts(j), randomness, (traces + [game])[j])
      {
        if j < |traces| {
          assert (traces + [game])[j] == traces[j];
        }
      }
    }
  }

  /** A run cut short by `error`: every game but the last was played to its
      end, and the last one failed. */
  ghost predicate Stopped<G(!new)>(rules: Rules<G>, experts: nat -> G -> SearchResult, randomness: bool,
                                   traces: seq<seq<Sample<G>>>, error: StepError)
  {
    && |traces| > 0
    && AllPlayed(rules, experts, randomness, traces[..|traces| - 1])
    && FailedGame(rules, experts(|traces| - 1), randomness, traces[|traces| - 1], error)
  }

  /** A game cut short by `error`: its samples replay to a state that is not
      over, where either no action could be chosen (and no sample was
      recorded), or the last sample holds a chosen action that `advance`
      refuses (the sample is recorded before the move). */
  ghost predicate FailedGame<G(!new)>(rules: Rules<G>, expert: G -> SearchResult, randomness: bool,
                                      trace: seq<Sample<G>>, error: StepError)
  {
    var played := Replay(rules, expert, randomness, trace);
    || (&& played.Some? && !rules.isGameOver(played.value)
        && ChoiceFailure(expert(played.value), randomness) == Some(error))
    || (&& |trace| > 0
        && var before := Replay(rules, expert, randomness, trace[..|trace| - 1]);
        && var last := trace[|trace| - 1];
        && before.Some? && !rules.isGameOver(before.value)
        && last.state == before.value && last.v == expert(before.value).v
        && Chosen(expert(before.value), randomness, last.actionIndex)
        && rules.advance(before.value, last.actionIndex).None?
        && error == IllegalAction)
  }

  /** Every prefix of a game that replays replays as well. */
  lemma {:induction false} ReplayPrefix<G(!new)>(rules: Rules<G>, expert: G -> SearchResult, randomness: bool,
                                                 trace: seq<Sample<G>>, n: nat)
    requires n <= |trace| && Replay(rules, expert, randomness, trace).Some?
    ensures Replay(rules, expert, randomness, trace[..n]).Some?
    decreases |trace|
  {
    if n < |trace| {
      var shorter := trace[..|trace| - 1];
      ReplayPrefix(rules, expert, randomness, shorter, n);
      assert shorter[..n] == trace[..n];
    } else {
      assert trace[..n] == trace;
    }
  }

  /** A game that replays is a shorter game that replays, plus one step. */
  lemma ReplayLast<G(!new)>(rules: Rules<G>, expert: G -> SearchResult, randomness: bool,
                            trace: seq<Sample<G>>)
    requires |trace| > 0 && Replay(rules, expert, randomness, trace).Some?
    ensures Replay(rules, expert, randomness, trace[..|trace| - 1]).Some?
    ensures Step(rules, expert, randomness, Replay(rules, expert, randomness, trace[..|trace| - 1]).value,
                 trace[|trace| - 1]).Some?
  {
  }

  /** Without randomness ex_it_state's choice is the arg-max, so there is
      one step from each state. */
  lemma ExploitStepUnique<G(!new)>(rules: Rules<G>, expert: G -> SearchResult, state: G,
                                   s1: Sample<G>, s2: Sample<G>)
    requires Step(rules, expert, false, state, s1).Some? && Step(rules, expert, false, state, s2).Some?
    ensures s1 == s2
  {
    assert Chosen(expert(state), false, s1.actionIndex) && Chosen(expert(state), false, s2.actionIndex);
  }

  /** Without randomness and with one fixed search, two games that both
      replay agree on every step the shorter one has taken. */
  lemma {:induction false} ExploitReplaysAgree<G(!new)>(rules: Rules<G>, expert: G -> SearchResult,
                                                        t1: seq<Sample<G>>, t2: seq<Sample<G>>)
    requires |t1| <= |t2|
    requires Replay(rules, expert, false, t1).Some? && Replay(rules, expert, false, t2).Some?
    ensures t1 == t2[..|t1|]
    decreases |t1|
  {
    var n := |t1|;
    if n > 0 {
      ReplayPrefix(rules, expert, false, t2, n);
      var p2 := t2[..n];
      ReplayLast(rules, expert, false, t1);
      ReplayLast(rules, expert, false, p2);
      ExploitReplaysAgree(rules, expert, t1[..n - 1], t2);
      assert p2[..n - 1] == t2[..n - 1] == t1[..n - 1];
      var state := Replay(rules, expert, false, t1[..n - 1]).value;
      ExploitStepUnique(rules, expert, state, t1[n - 1], p2[n - 1]);
      SameFrontSameLast(t1, p2);
    }
  }

  lemma SameFrontSameLast<T>(a: seq<T>, b: seq<T>)
    requires |a| == |b| > 0 && a[..|a| - 1] == b[..|b| - 1] && a[|a| - 1] == b[|b| - 1]
    ensures a == b
  {
    assert a == a[..|a| - 1] + [a[|a| - 1]];
    assert b == b[..|b| - 1] + [b[|b| - 1]];
  }

  /** Without randomness and with one fixed search (an apprentice that is
      not retrained in between), self-play is deterministic: every game
      played to its end is the same game. */
  lemma ExploitPlaysOneGame<G(!new)>(rules: Rules<G>, expert: G -> SearchResult,
                                     t1: seq<Sample<G>>, t2: seq<Sample<G>>)
    requires PlayedGame(rules, expert, false, t1) && PlayedGame(rules, expert, false, t2)
    ensures t1 == t2
  {
    if |t1| < |t2| {
      ExploitReplaysAgree(rules, expert, t1, t2);
      ReplayPrefix(rules, expert, false, t2, |t1| + 1);
    } else if |t2| < |t1| {
      ExploitReplaysAgree(rules, expert, t2, t1);
      ReplayPrefix(rules, expert, false, t1, |t2| + 1);
    } else {
      ExploitReplaysAgree(rules, expert, t1, t2);
      assert t2[..|t1|] == t2;
    }
  }

  /** All the samples of a series of games, game after game. */
  function Concat<T>(traces: seq<seq<T>>): (all: seq<T>)
    ensures traces == [] ==> all == []
  {
    if traces == [] then [] else Concat(traces[..|traces| - 1]) + traces[|traces| - 1]
  }

  /** One more game adds its samples after those of the earlier games. */
  lemma ConcatSnoc<T>(before: seq<T>, traces: seq<seq<T>>, trace: seq<T>)
    ensures before + Concat(traces + [trace]) == before + Concat(traces) + trace
  {
    assert (traces + [trace])[..|traces|] == traces;
    assert before + (Concat(traces) + trace) == before + Concat(traces) + trace;
  }

  /** A replayed game extended by one more step reaches that step's state. */
  lemma ReplaySnoc<G(!new)>(rules: Rules<G>, expert: G -> SearchResult, randomness: bool,
                            trace: seq<Sample<G>>, sample: Sample<G>)
    ensures Replay(rules, expert, randomness, trace + [sample]) ==
      match Replay(rules, expert, randomness, trace)
      case None => None
      case Some(state) => Step(rules, expert, randomness, state, sample)
  {
    assert (trace + [sample])[..|trace|] == trace;
  }

  class ExpertIteration<G(!new)> {
    var gamesPlayed: nat
    /** The samples added to the data set, oldest first. */
    var samples: seq<Sample<G>>

    constructor ()
      ensures gamesPlayed == 0 && samples == []
    {
      gamesPlayed := 0;
      samples := [];
    }

    /** ex_it_state: choose an action, record the sample, and only then play
        the action; an illegal action fails after the sample is stored. */
    method ExItState(rules: Rules<G>, state: G, search: SearchResult, randomness: bool)
      returns (r: Result<G, StepError>, action: Option<int>)
      modifies this`samples
      ensures action.None? <==> ChoiceFailure(search, randomness).Some?
      ensures action.None? ==> r == Failure(ChoiceFailure(search, randomness).value) && samples == old(samples)
      ensures action.Some? ==> Chosen(search, randomness, action.value)
      ensures action.Some? ==> samples == old(samples) + [Sample(state, action.value, search.v)]
      ensures action.Some? ==> match rules.advance(state, action.value)
        case None => r == Failure(IllegalAction)
        case Some(next) => r == Success(next)
    {
      var choice := ChooseAction(search, randomness);
      if choice.Failure? {
        return Failure(choice.error), None;
      }
      action := Some(choice.value);
      samples := samples + [Sample(state, choice.value, search.v)];
      var next := rules.advance(state, choice.value);
      if next.None? {
        r := Failure(IllegalAction);
      } else {
        r := Success(next.value);
      }
    }

    /** start_ex_it: plays num_iteration games from the initial state, each to
        its end, counting one game per game played; a failing step ends the
        run early. The apprentice is retrained after every game, so game i
        is searched with `experts(i)`. `traces` are the samples of each game
        begun, in order: they are exactly what the data set gained, every
        game but a failed last one replays to a finished state, and
        games_played counts the finished games. */
    method StartExIt(rules: Rules<G>, numIteration: nat, randomness: bool, experts: nat -> G -> SearchResult)
      returns (outcome: Outcome<StepError>, ghost traces: seq<seq<Sample<G>>>)
      requires Finite(rules)
      modifies this`samples, this`gamesPlayed
      ensures samples == old(samples) + Concat(traces)
      ensures outcome.Pass? ==> |traces| == numIteration && gamesPlayed == old(gamesPlayed) + numIteration
      ensures outcome.Fail? ==> 0 < |traces| <= numIteration && gamesPlayed == old(gamesPlayed) + |traces| - 1
      ensures outcome.Pass? ==> AllPlayed(rules, experts, randomness, traces)
      ensures outcome.Fail? ==> Stopped(rules, experts, randomness, traces, outcome.error)
    {
      traces := [];
      var i := 0;
      while i < numIteration
        invariant 0 <= i <= numIteration && |traces| == i
        invariant gamesPlayed == old(gamesPlayed) + i
        invariant samples == old(samples) + Concat(traces)
        invariant AllPlayed(rules, experts, randomness, traces)
      {
        var game, failure := PlayGame(rules, randomness, experts(i));
        ConcatSnoc(old(samples), traces, game);
        AllPlayedSnoc(rules, experts, randomness, traces, game);
        traces := traces + [game];
        if failure.Some? {
          return Fail(failure.value), traces;
        }
        gamesPlayed := gamesPlayed + 1;
        i := i + 1;
      }
      outcome := Pass;
    }

    /** The inner loop of start_ex_it: ex_it_state until the game is over.
        `game` is the samples it recorded; without a failure they replay to
        a finished state, and with one the game is cut short by it. */
    method PlayGame(rules: Rules<G>, randomness: bool, expert: G -> SearchResult)
      returns (ghost game: seq<Sample<G>>, failure: Option<StepError>)
      requires Finite(rules)
      modifies this`samples
      ensures samples == old(samples) + game
      ensures failure.None? ==> PlayedGame(rules, expert, randomness, game)
      ensures failure.Some? ==> FailedGame(rules, expert, randomness, game, failure.value)
    {
      game := [];
      failure := None;
      var state := rules.initial;
      while !rules.isGameOver(state)
        invariant samples == old(samples) + game
        invariant Replay(rules, expert, randomness, game) == Some(state)
        decreases rules.movesLeft(state)
      {
        var r, action := ExItState(rules, state, expert(state), randomness);
        if action.None? {
          return game, Some(r.error);
        }
        var sample := Sample(state, action.value, expert(state).v);
        ReplaySnoc(rules, expert, randomness, game, sample);
        assert (game + [sample])[..|game|] == game;
        game := game + [sample];
        if r.Failure? {
          return game, Some(r.error);
        }
        AdvanceDecreases(rules, state, action.value);
        state := r.value;
      }
    }
  }
}
