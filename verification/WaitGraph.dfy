/** Wait-for relations whose chains climb a ranking have no circles, and every chain ends. */
module WaitGraph {

  /** Whoever waits for someone who waits has the lower rank. */
  ghost predicate Climbs(waits: (nat, nat) -> bool, rank: nat -> nat) {
    forall t, u, v :: waits(t, u) && waits(u, v) ==> rank(t) < rank(u)
  }

  /** The position after `i` on a circle of `n`. */
  function Around(n: nat, i: nat): nat {
    if i + 1 < n then i + 1 else 0
  }

  /** Each member of `cycle` waits for the next one, and the last for the first. */
  ghost predicate Circle(waits: (nat, nat) -> bool, cycle: seq<nat>) {
    cycle != [] && forall i :: 0 <= i < |cycle| ==> waits(cycle[i], cycle[Around(|cycle|, i)])
  }

  lemma RankClimbs(waits: (nat, nat) -> bool, rank: nat -> nat, cycle: seq<nat>, i: nat)
    requires Climbs(waits, rank) && Circle(waits, cycle) && i < |cycle|
    ensures rank(cycle[i]) < rank(cycle[Around(|cycle|, i)])
  {
    var j := Around(|cycle|, i);
    assert waits(cycle[i], cycle[j]);
    assert waits(cycle[j], cycle[Around(|cycle|, j)]);
  }

  lemma {:induction false} RanksClimb(waits: (nat, nat) -> bool, rank: nat -> nat, cycle: seq<nat>, i: nat)
    requires Climbs(waits, rank) && Circle(waits, cycle) && i < |cycle|
    ensures rank(cycle[i]) >= rank(cycle[0]) + i
  {
    if i > 0 {
      RanksClimb(waits, rank, cycle, i - 1);
      RankClimbs(waits, rank, cycle, i - 1);
    }
  }

  lemma NoCircle(waits: (nat, nat) -> bool, rank: nat -> nat, cycle: seq<nat>)
    requires Climbs(waits, rank)
    ensures !Circle(waits, cycle)
  {
    if Circle(waits, cycle) {
      RanksClimb(waits, rank, cycle, |cycle| - 1);
      RankClimbs(waits, rank, cycle, |cycle| - 1);
    }
  }

  /** Following the waits ends at someone who does not wait. */
  lemma {:induction false} ChainEnds(waits: (nat, nat) -> bool, rank: nat -> nat, bound: nat, members: set<nat>, t: nat)
    returns (u: nat)
    requires Climbs(waits, rank) && t in members
    requires forall x, y :: waits(x, y) ==> y in members && rank(x) < bound
    ensures u in members && forall v :: !waits(u, v)
    decreases if exists v :: waits(t, v) then 1 + bound - rank(t) else 0
  {
    u := t;
    if exists v :: waits(t, v) {
      var v :| waits(t, v);
      u := ChainEnds(waits, rank, bound, members, v);
    }
  }
}
