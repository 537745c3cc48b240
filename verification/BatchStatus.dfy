/** Statuses of batch tasks and shards, and the script that moves an id between two status sets. */
module BatchStatus {

  datatype TaskStatus =
    | Pending | Validating | InProgress | Finalizing | Finalize
    | Completed | Failed | Cancelling | Cancelled | Expired

  /** Progress measure of the statuses: every move the reactors and handlers make goes up. */
  function Rank(st: TaskStatus): nat {
    match st
    case Pending => 0
    case Validating => 1
    case InProgress => 2
    case Finalizing => 3
    case Finalize => 4
    case Completed => 5
    case Failed => 5
    case Cancelling => 5
    case Cancelled => 6
    case Expired => 7
  }

  /**
   The move script seen from one id: `at` is the set of status sets that hold the id.
   SADD to the destination, SREM from the source, and undo the SADD if nothing was removed.
   */
  function Moved<S>(at: set<S>, from: S, to: S): set<S> {
    var added := to !in at;
    var at1 := at + {to};
    var removed := from in at1;
    var at2 := at1 - {from};
    if removed then at2 else if added then at2 - {to} else at2
  }

  /** The script reports success. */
  predicate MoveSucceeds<S>(at: set<S>, from: S, to: S) {
    from in at + {to}
  }

  /**
   What the script means.  With distinct source and destination it is a move that either happens
   or changes nothing; with source and destination equal it drops the id and still reports success.
   */
  lemma MoveMeaning<S>(at: set<S>, from: S, to: S)
    ensures from != to && from in at ==> MoveSucceeds(at, from, to) && Moved(at, from, to) == at - {from} + {to}
    ensures from != to && from !in at ==> !MoveSucceeds(at, from, to) && Moved(at, from, to) == at
    ensures from == to ==> MoveSucceeds(at, from, to) && Moved(at, from, to) == at - {to}
  {
  }

  /** An id held by exactly its source set stays in exactly one set iff source and destination differ. */
  lemma MoveKeepsSingleIffDistinct<S>(from: S, to: S)
    ensures |Moved({from}, from, to)| == 1 <==> from != to
  {
    MoveMeaning({from}, from, to);
    if from != to {
      assert Moved({from}, from, to) == {to};
    } else {
      assert Moved({from}, from, to) == {};
    }
  }
}
