/**
  What the parallel phases of the runtime have in common: work is handed out as
  numbered tickets in an arbitrary order, over the buffers of all workers.
*/
module Tickets {

  /** The tickets 0..n-1, each handed out once, in some order. */
  ghost predicate TicketOrder(order: seq<nat>, n: nat)
  {
    && (forall i :: i in order <==> 0 <= i < n)
    && (forall j, k :: 0 <= j < k < |order| ==> order[j] != order[k])
  }

  /** The elements of all buffers, buffer by buffer. */
  function Flatten<T>(buffers: seq<seq<T>>): seq<T>
  {
    if buffers == [] then [] else Flatten(buffers[..|buffers| - 1]) + buffers[|buffers| - 1]
  }
}
