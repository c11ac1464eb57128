/** agent/deltatracker/deltatracker.go, at the value type the agent uses (uint64). */
module Deltas {
  import opened UInt64

  /** What a tracker remembers, as a value. */
  datatype Tracks<!K> = Tracks(current: map<K, u64>, previous: map<K, u64>)
  {
    function Cycled(): Tracks<K> {
      Tracks(map[], current)
    }

    function With(id: K, value: u64): Tracks<K> {
      Tracks(current[id := value], previous)
    }

    /** Wrapping difference; 0 unless both readings exist. */
    function Delta(id: K): u64 {
      if id in current && id in previous then Sub(current[id], previous[id]) else 0
    }
  }

  class DeltaTracker<K(==)> {
    var current: map<K, u64>
    var previous: map<K, u64>

    ghost function View(): Tracks<K>
      reads this
    {
      Tracks(current, previous)
    }

    constructor ()
      ensures View() == Tracks(map[], map[])
    {
      current, previous := map[], map[];
    }

    method Set(id: K, value: u64)
      modifies this
      ensures View() == old(View()).With(id, value)
    {
      current := current[id := value];
    }

    method Deltas() returns (deltas: map<K, u64>)
      ensures deltas.Keys == current.Keys && forall id <- current :: deltas[id] == View().Delta(id)
    {
      deltas := map[];
      var rest := current.Keys;
      while rest != {}
        invariant rest <= current.Keys && deltas.Keys == current.Keys - rest
        invariant forall id <- deltas :: deltas[id] == View().Delta(id)
        decreases |rest|
      {
        var id :| id in rest;
        deltas := deltas[id := if id in previous then Sub(current[id], previous[id]) else 0];
        rest := rest - {id};
      }
    }

    method Previous(id: K) returns (value: u64, ok: bool)
      ensures ok <==> id in previous
      ensures value == if ok then previous[id] else 0
    {
      if id in previous {
        return previous[id], true;
      }
      return 0, false;
    }

    method Delta(id: K) returns (delta: u64)
      ensures delta == View().Delta(id)
    {
      if id !in current {
        return 0;
      }
      if id !in previous {
        return 0;
      }
      return Sub(current[id], previous[id]);
    }

    method Cycle()
      modifies this
      ensures View() == old(View()).Cycled()
    {
      previous := current;
      current := map[];
    }
  }

  /** One interval's life: readings set after a cycle are compared with those before it. */
  lemma DeltaAfterCycle<K>(t: Tracks<K>, id: K, value: u64)
    ensures t.Cycled().With(id, value).Delta(id) ==
            if id !in t.current then 0
            else if value >= t.current[id] then value - t.current[id]
            else TWO64 - (t.current[id] - value)
  {
    if id in t.current {
      SubCases(value, t.current[id]);
    }
  }
}
