/** The game contract the trainer, the evaluator and the match runner rely on.
    Games/GameLogic.py is not part of this model, so a game is taken as a record
    of functions on an opaque state type `G`; advance answers `None` where the
    game would raise on an illegal action. */
module GameLogic {
  import opened Outcomes

  /** A finished game's outcome for one player, with its numeric value. */
  datatype GameResult = Win | Loss | Draw
  {
    function Value(): int
    {
      match this
      case Win => 1
      case Loss => -1
      case Draw => 0
    }
  }

  datatype Rules<!G> = Rules(
    initial: G,
    isGameOver: G -> bool,
    turn: G -> int,
    advance: (G, int) -> Option<G>,
    result: (G, int) -> GameResult,
    movesLeft: G -> nat)

  /** Every accepted action brings the game closer to its end, so a loop that
      plays until the game is over stops. */
  ghost predicate Finite<G(!new)>(rules: Rules<G>)
  {
    forall g: G, a: int :: rules.advance(g, a).Some? ==>
      rules.movesLeft(rules.advance(g, a).value) < rules.movesLeft(g)
  }

  lemma AdvanceDecreases<G(!new)>(rules: Rules<G>, g: G, a: int)
    requires Finite(rules) && rules.advance(g, a).Some?
    ensures rules.movesLeft(rules.advance(g, a).value) < rules.movesLeft(g)
  {
  }
}
