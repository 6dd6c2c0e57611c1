/** Table-driven state machines. */
module Fsm {
  import opened Wire

  datatype EventDesc<S, E, C> = EventDesc(src: S, events: seq<E>, cb: Option<C>, dst: S)

  predicate Takes<S(==), E(==), C>(t: EventDesc<S, E, C>, s: S, e: E) {
    t.src == s && e in t.events
  }

  /** The transition an event takes: the first row that matches. */
  function Lookup<S(==), E(==), C>(table: seq<EventDesc<S, E, C>>, s: S, e: E): (r: Option<EventDesc<S, E, C>>)
    ensures r.None? <==> forall i :: 0 <= i < |table| ==> !Takes(table[i], s, e)
    ensures r.Some? ==> exists i :: 0 <= i < |table| && table[i] == r.value && Takes(table[i], s, e)
    decreases |table|
  {
    if table == [] then None
    else if Takes(table[0], s, e) then Some(table[0])
    else
      var r := Lookup(table[1..], s, e);
      assert forall i :: 0 < i < |table| ==> table[i] == table[1..][i - 1];
      assert forall i :: 0 <= i < |table| - 1 ==> table[1..][i] == table[i + 1];
      r
  }

  /** At most one row matches any state and event. */
  ghost predicate Deterministic<S(!new), E(!new), C(!new)>(table: seq<EventDesc<S, E, C>>) {
    forall i, j, s, e :: 0 <= i < j < |table| ==> !(Takes(table[i], s, e) && Takes(table[j], s, e))
  }

  /** In such a table the row found is the row that matches. */
  lemma {:induction false} TheRow<S(!new), E(!new), C(!new)>(table: seq<EventDesc<S, E, C>>, i: nat, s: S, e: E)
    requires Deterministic(table) && i < |table| && Takes(table[i], s, e)
    ensures Lookup(table, s, e) == Some(table[i])
  {
  }

  class Machine<S(==), E(==), C> {
    var current: S
    const table: seq<EventDesc<S, E, C>>

    constructor (s: S, t: seq<EventDesc<S, E, C>>)
      ensures current == s && table == t
    {
      current, table := s, t;
    }

    /** The inner loop. */
    static method Lists(events: seq<E>, e: E) returns (found: bool)
      ensures found == (e in events)
    {
      for k := 0 to |events|
        invariant e !in events[..k]
      {
        if e == events[k] {
          return true;
        }
      }
      return false;
    }

    /** Find the transition and move to its target.  The callback of the row is handed back
        to be run by the machine's owner, who may raise further events from it: the state
        has moved by then. */
    method HandleEvent(e: E) returns (r: Option<EventDesc<S, E, C>>)
      modifies `current
      ensures r == Lookup(table, old(current), e)
      ensures current == if r.Some? then r.value.dst else old(current)
    {
      var i := 0;
      assert table[i..] == table;
      while i < |table|
        invariant 0 <= i <= |table| && current == old(current)
        invariant Lookup(table[i..], current, e) == Lookup(table, current, e)
      {
        var t := table[i];
        assert table[i..][1..] == table[i + 1..];
        if current == t.src {
          var found := Lists(t.events, e);
          if found {
            current := t.dst;
            return Some(t);
          }
        }
        i := i + 1;
      }
      r := None;
    }
  }
}
