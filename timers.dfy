/**
 * Callbacks scheduled with `setTimeout`, as the pages that use them hold them: a queue in
 * scheduling order, each entry with its handle, the time it is due and what it will do.
 */
module Timers {

  datatype Timer<K> = Timer(id: nat, due: nat, kind: K)

  /**
   * The event loop runs next the timer due earliest, and among timers due at the same time the
   * one scheduled first.
   */
  predicate IsNext<K>(q: seq<Timer<K>>, i: int)
  {
    && 0 <= i < |q|
    && (forall j :: 0 <= j < |q| ==> q[i].due <= q[j].due)
    && (forall j :: 0 <= j < i ==> q[j].due > q[i].due)
  }

  /** No pending timer is due before `now`: time can move on to `now` without running one. */
  predicate NoneDueBefore<K>(q: seq<Timer<K>>, now: nat)
  {
    forall j :: 0 <= j < |q| ==> q[j].due >= now
  }

  /** The queue after timer `i` has run. */
  function RemoveAt<K>(q: seq<Timer<K>>, i: int): (r: seq<Timer<K>>)
    requires 0 <= i < |q|
    ensures |r| == |q| - 1
    ensures forall j :: 0 <= j < |r| ==> r[j] in q
  {
    q[..i] + q[i + 1..]
  }

  /** `clearTimeout(id)`: drops the timer with that handle, if it is still pending. */
  function Cancel<K>(q: seq<Timer<K>>, id: nat): (r: seq<Timer<K>>)
    ensures forall j :: 0 <= j < |r| ==> r[j] in q && r[j].id != id
    ensures forall j :: 0 <= j < |q| && q[j].id != id ==> q[j] in r
    ensures |r| <= |q|
  {
    if q == [] then [] else (if q[0].id == id then [] else [q[0]]) + Cancel(q[1..], id)
  }

  /** Handles are fresh: every pending handle is below `next`. */
  predicate IdsBelow<K>(q: seq<Timer<K>>, next: nat)
  {
    forall j :: 0 <= j < |q| ==> q[j].id < next
  }
}
