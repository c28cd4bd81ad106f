/** Numbers and names not yet in use. */
module Unused {

  lemma {:induction false} SomeUnused(used: set<nat>) returns (n: nat)
    ensures forall m :: m in used ==> m < n
    decreases |used|
  {
    if used == {} {
      n := 0;
    } else {
      var m :| m in used;
      var rest := SomeUnused(used - {m});
      n := if rest <= m then m + 1 else rest;
      forall x | x in used ensures x < n {
        assert x == m || x in used - {m};
      }
    }
  }

  lemma SomeUnusedName(used: set<string>) returns (name: string)
    ensures name !in used
  {
    var lengths := set s | s in used :: |s|;
    var n := SomeUnused(lengths);
    name := seq(n, _ => 'x');
    assert name in used ==> |name| in lengths;
  }
}
