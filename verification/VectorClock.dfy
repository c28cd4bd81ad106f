/** Vector clocks: the map loops decide the causal order exactly and compute its join. */
module VectorClocks {
  import opened OpIds

  type Clocks = map<string, uint64>

  /** A missing component reads as zero. */
  function At(c: Clocks, replica: string): uint64 {
    if replica in c then c[replica] else 0
  }

  // ---------- The causal order ----------

  ghost predicate Leq(a: Clocks, b: Clocks) {
    forall r :: At(a, r) <= At(b, r)
  }

  /** Same component everywhere, whatever the maps hold explicitly. */
  ghost predicate Same(a: Clocks, b: Clocks) {
    forall r :: At(a, r) == At(b, r)
  }

  datatype CausalOrder = CausalBefore | CausalAfter | CausalEqual | CausalConcurrent

  ghost predicate Decides(o: CausalOrder, a: Clocks, b: Clocks) {
    match o
    case CausalEqual => Leq(a, b) && Leq(b, a)
    case CausalBefore => Leq(a, b) && !Leq(b, a)
    case CausalAfter => !Leq(a, b) && Leq(b, a)
    case CausalConcurrent => !Leq(a, b) && !Leq(b, a)
  }

  /** The four answers read off the components. */
  lemma DecidedByComponents(o: CausalOrder, a: Clocks, b: Clocks)
    requires Decides(o, a, b)
    ensures o == CausalEqual <==> forall r :: At(a, r) == At(b, r)
    ensures o == CausalBefore <==> (forall r :: At(a, r) <= At(b, r)) && exists q :: At(a, q) < At(b, q)
    ensures o == CausalAfter <==> (forall r :: At(a, r) >= At(b, r)) && exists q :: At(a, q) > At(b, q)
    ensures o == CausalConcurrent <==> (exists r :: At(a, r) > At(b, r)) && exists q :: At(a, q) < At(b, q)
  {
    if !Leq(a, b) {
      var r :| At(a, r) > At(b, r);
    }
    if !Leq(b, a) {
      var q :| At(a, q) < At(b, q);
    }
  }

  lemma LeqIsAPartialOrder(a: Clocks, b: Clocks, c: Clocks)
    ensures Leq(a, a)
    ensures Leq(a, b) && Leq(b, a) <==> Same(a, b)
    ensures Leq(a, b) && Leq(b, c) ==> Leq(a, c)
  {
  }

  // ---------- The join ----------

  /** What a merge leaves: a component is taken over only if it is strictly larger. */
  function Join(a: Clocks, b: Clocks): Clocks {
    map r | r in a.Keys + (set q | q in b && b[q] > At(a, q)) ::
      if r in b && b[r] > At(a, r) then b[r] else a[r]
  }

  lemma JoinIsMax(a: Clocks, b: Clocks, r: string)
    ensures At(Join(a, b), r) == if At(a, r) >= At(b, r) then At(a, r) else At(b, r)
  {
  }

  /** Join is the least upper bound. */
  lemma JoinIsLeastUpperBound(a: Clocks, b: Clocks, c: Clocks)
    ensures Leq(a, Join(a, b)) && Leq(b, Join(a, b))
    ensures Leq(a, c) && Leq(b, c) <==> Leq(Join(a, b), c)
  {
  }

  /** Merge is commutative, associative and idempotent up to CausalEqual. */
  lemma JoinLaws(a: Clocks, b: Clocks, c: Clocks)
    ensures Same(Join(a, b), Join(b, a))
    ensures Same(Join(Join(a, b), c), Join(a, Join(b, c)))
    ensures Join(a, a) == a
  {
    forall r ensures At(Join(a, b), r) == At(Join(b, a), r) {
      JoinIsMax(a, b, r);
      JoinIsMax(b, a, r);
    }
    forall r ensures At(Join(Join(a, b), c), r) == At(Join(a, Join(b, c)), r) {
      JoinIsMax(a, b, r);
      JoinIsMax(b, c, r);
      JoinIsMax(Join(a, b), c, r);
      JoinIsMax(a, Join(b, c), r);
    }
  }

  /** Where a holds an explicit zero, b holds an entry too. */
  predicate ZerosShared(a: Clocks, b: Clocks) {
    forall r :: r in a && a[r] == 0 ==> r in b
  }

  /** On the maps themselves merging commutes if and only if neither holds an explicit zero where
      the other holds nothing. */
  lemma JoinCommutesOnMapsIff(a: Clocks, b: Clocks)
    ensures Join(a, b) == Join(b, a) <==> ZerosShared(a, b) && ZerosShared(b, a)
  {
    if Join(a, b) == Join(b, a) {
      forall r | r in a && a[r] == 0 ensures r in b {
        assert r in Join(a, b) && r in Join(b, a);
      }
      forall r | r in b && b[r] == 0 ensures r in a {
        assert r in Join(b, a) && r in Join(a, b);
      }
    }
    if ZerosShared(a, b) && ZerosShared(b, a) {
      assert Join(a, b).Keys == Join(b, a).Keys;
      forall r | r in Join(a, b) ensures Join(a, b)[r] == Join(b, a)[r] {
        JoinIsMax(a, b, r);
        JoinIsMax(b, a, r);
      }
    }
  }

  /** Not on the nose: merging never stores a zero, so the two maps may differ. */
  lemma JoinIsNotCommutativeOnMaps(r: string)
    ensures Join(map[], map[r := 0]) == map[]
    ensures Join(map[r := 0], map[]) == map[r := 0]
  {
  }

  class VectorClock {
    var clocks: Clocks

    constructor ()
      ensures clocks == map[]
    {
      clocks := map[];
    }

    /** Strictly larger than before, unless the component wraps around. */
    method Increment(replica: string)
      modifies this
      ensures var was := old(At(clocks, replica));
              clocks == old(clocks)[replica := if was == MAX_COUNTER then 0 else was + 1]
      ensures old(At(clocks, replica)) < MAX_COUNTER ==> Decides(CausalBefore, old(clocks), clocks)
    {
      ghost var before := clocks;
      clocks := clocks[replica := if At(clocks, replica) == MAX_COUNTER then 0 else At(clocks, replica) + 1];
      if At(before, replica) < MAX_COUNTER {
        assert At(clocks, replica) > At(before, replica);
        assert forall r :: r != replica ==> At(clocks, r) == At(before, r);
      }
    }

    /** Moves the clock up, down or not at all in the causal order, as the value says. */
    method Set(replica: string, value: uint64)
      modifies this
      ensures clocks == old(clocks)[replica := value]
      ensures var was := old(At(clocks, replica));
              Decides(if was < value then CausalBefore else if was > value then CausalAfter else CausalEqual,
                      old(clocks), clocks)
    {
      ghost var before := clocks;
      clocks := clocks[replica := value];
      assert At(clocks, replica) == value;
      assert forall r :: r != replica ==> At(clocks, r) == At(before, r);
    }

    /** The loop over a snapshot of the other clock, in any order. */
    method Merge(other: VectorClock)
      modifies this
      ensures clocks == Join(old(clocks), old(other.clocks))
    {
      var snapshot := other.clocks;
      ghost var mine := clocks;
      var rest := snapshot.Keys;
      while rest != {}
        invariant rest <= snapshot.Keys
        invariant clocks == Join(mine, map r | r in snapshot.Keys - rest :: snapshot[r])
        decreases rest
      {
        var r :| r in rest;
        ghost var seen := map q | q in snapshot.Keys - rest :: snapshot[q];
        MergeOne(mine, seen, r, snapshot[r]);
        rest := rest - {r};
        assert seen[r := snapshot[r]] == map q | q in snapshot.Keys - rest :: snapshot[q];
        if snapshot[r] > At(clocks, r) {
          clocks := clocks[r := snapshot[r]];
        }
      }
      assert (map r | r in snapshot.Keys - rest :: snapshot[r]) == snapshot;
    }

    /** The loop with two flags over every replica of either clock, in any order. */
    method Compare(other: VectorClock) returns (o: CausalOrder)
      ensures Decides(o, clocks, other.clocks)
      ensures o == CausalEqual <==> forall r :: At(clocks, r) == At(other.clocks, r)
      ensures o == CausalConcurrent <==>
              (exists r :: At(clocks, r) > At(other.clocks, r)) && exists q :: At(clocks, q) < At(other.clocks, q)
    {
      var lessOrEqual, greaterOrEqual := true, true;
      var all := clocks.Keys + other.clocks.Keys;
      var rest := all;
      while rest != {}
        invariant rest <= all
        invariant lessOrEqual <==> forall r :: r in all - rest ==> At(clocks, r) <= At(other.clocks, r)
        invariant greaterOrEqual <==> forall r :: r in all - rest ==> At(clocks, r) >= At(other.clocks, r)
        decreases rest
      {
        var r :| r in rest;
        var mine, theirs := At(clocks, r), At(other.clocks, r);
        assert all - (rest - {r}) == (all - rest) + {r};
        rest := rest - {r};
        if mine > theirs {
          lessOrEqual := false;
        }
        if mine < theirs {
          greaterOrEqual := false;
        }
      }
      LeqOnKeys(clocks, other.clocks, all);
      LeqOnKeys(other.clocks, clocks, all);
      o := if lessOrEqual && greaterOrEqual then CausalEqual
           else if lessOrEqual then CausalBefore
           else if greaterOrEqual then CausalAfter
           else CausalConcurrent;
      DecidedByComponents(o, clocks, other.clocks);
    }

    /** An independent clock with the same components. */
    method Copy() returns (clone: VectorClock)
      ensures fresh(clone) && clone.clocks == clocks
    {
      clone := new VectorClock();
      clone.clocks := clocks;
    }
  }

  /** Checking the named components settles all of them. */
  lemma LeqOnKeys(a: Clocks, b: Clocks, keys: set<string>)
    requires a.Keys + b.Keys <= keys
    ensures Leq(a, b) <==> forall r :: r in keys ==> At(a, r) <= At(b, r)
  {
  }

  /** Taking one more component into the join. */
  lemma MergeOne(a: Clocks, seen: Clocks, r: string, v: uint64)
    requires r !in seen
    ensures var j := Join(a, seen);
            Join(a, seen[r := v]) == if v > At(j, r) then j[r := v] else j
  {
  }
}
