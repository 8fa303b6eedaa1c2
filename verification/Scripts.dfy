/** Runs of a system given by its moves: what a script of moves leads to. */
module Scripts {
  import opened Options

  /** The state a script leads to; None when some move of it is not possible. */
  function Play<S, M>(move: (S, M) -> Option<S>, start: S, script: seq<M>): Option<S> {
    if script == [] then Some(start)
    else match Play(move, start, script[..|script| - 1])
      case None => None
      case Some(s) => move(s, script[|script| - 1])
  }

  lemma PlaySnoc<S, M>(move: (S, M) -> Option<S>, start: S, script: seq<M>, m: M)
    requires Play(move, start, script).Some?
    ensures Play(move, start, script + [m]) == move(Play(move, start, script).value, m)
  {
    assert (script + [m])[..|script|] == script;
  }
}
