/** The set of `companyId`s the user has marked as contacted. */
module Contacts {

  /** The set after one toggle of `id`: removed when present, added when absent. */
  function Toggled(contacted: set<int>, id: int): (r: set<int>)
    ensures id in r <==> id !in contacted
    ensures forall other :: other != id ==> (other in r <==> other in contacted)
    ensures |r| == if id in contacted then |contacted| - 1 else |contacted| + 1
  {
    if id in contacted then contacted - {id} else contacted + {id}
  }

  /** Toggling the same identifier twice restores the set. */
  lemma ToggleTwiceRestores(contacted: set<int>, id: int)
    ensures Toggled(Toggled(contacted, id), id) == contacted
  {
  }
}
