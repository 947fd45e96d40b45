/** Perspective-correct evaluation of game states (ExIt/Evaluator.py). The game
    is the abstract contract of GameLogic and the predictor's value network is
    a function from states to reals. States are values, so advancing "a copy"
    leaves the caller's state untouched by construction. */
module Evaluator {
  import opened Outcomes
  import opened GameLogic

  /** zero_sum_2v2_evaluation: the value of `state` for player `originalTurn`. */
  function ZeroSum2v2Evaluation<G>(rules: Rules<G>, state: G, originalTurn: int, predict: G -> real): (e: real)
    ensures rules.isGameOver(state) ==> -1.0 <= e <= 1.0
    ensures !rules.isGameOver(state) ==> e == predict(state) || e == -predict(state)
  {
    if rules.isGameOver(state) then
      rules.result(state, originalTurn).Value() as real
    else
      predict(state) * (if rules.turn(state) == originalTurn then 1.0 else -1.0)
  }

  /** A finished game scores its result for the asking player; an unfinished
      one scores the predictor's value, negated exactly when someone else is
      to move. */
  lemma EvaluationPerspective<G>(rules: Rules<G>, state: G, originalTurn: int, predict: G -> real)
    ensures var v := ZeroSum2v2Evaluation(rules, state, originalTurn, predict);
      && (rules.isGameOver(state) ==>
            && v in {-1.0, 0.0, 1.0}
            && (v == 1.0 <==> rules.result(state, originalTurn) == Win)
            && (v == -1.0 <==> rules.result(state, originalTurn) == Loss))
      && (!rules.isGameOver(state) && rules.turn(state) == originalTurn ==> v == predict(state))
      && (!rules.isGameOver(state) && rules.turn(state) != originalTurn ==> v == -predict(state))
  {
  }

  /** Between two players whose results are opposite, the two perspectives on
      any state, finished or not, are opposite: the evaluation is zero-sum. */
  lemma EvaluationIsZeroSum<G>(rules: Rules<G>, state: G, p: int, q: int, predict: G -> real)
    requires p != q
    requires rules.turn(state) == p || rules.turn(state) == q
    requires rules.result(state, p).Value() == -rules.result(state, q).Value()
    ensures ZeroSum2v2Evaluation(rules, state, p, predict) == -ZeroSum2v2Evaluation(rules, state, q, predict)
  {
  }

  /** get_reward_for_action: play `action` on a copy and evaluate the outcome for
      the player who was to move before it; an illegal action yields no reward
      (the source raises). */
  function GetRewardForAction<G>(rules: Rules<G>, state: G, action: int, predict: G -> real): (r: Option<real>)
    ensures r.None? <==> rules.advance(state, action).None?
  {
    match rules.advance(state, action)
    case None => None
    case Some(next) => Some(ZeroSum2v2Evaluation(rules, next, rules.turn(state), predict))
  }

  /** The reward is seen by the mover: a finishing action scores the mover's
      result, and an action that hands the move to the opponent scores the
      opponent's predicted value negated. */
  lemma RewardIsForTheMover<G>(rules: Rules<G>, state: G, action: int, predict: G -> real)
    requires rules.advance(state, action).Some?
    ensures var next := rules.advance(state, action).value;
      var r := GetRewardForAction(rules, state, action, predict);
      && (rules.isGameOver(next) ==> r == Some(rules.result(next, rules.turn(state)).Value() as real))
      && (!rules.isGameOver(next) && rules.turn(next) != rules.turn(state) ==> r == Some(-predict(next)))
      && (!rules.isGameOver(next) && rules.turn(next) == rules.turn(state) ==> r == Some(predict(next)))
  {
  }
}
