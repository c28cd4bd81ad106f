/** Sibling lists as mathematics: strictly ascending sequences of identifiers. */
module Siblings {
  import opened OpIds

  ghost predicate Ascending(s: seq<OpID>) {
    forall i, j :: 0 <= i < j < |s| ==> Less(s[i], s[j])
  }

  /** Sorted-set insertion; an identifier already present is not added twice. */
  function InsertSorted(s: seq<OpID>, x: OpID): seq<OpID> {
    if s == [] || Less(x, s[0]) then [x] + s
    else if s[0] == x then s
    else [s[0]] + InsertSorted(s[1..], x)
  }

  lemma {:induction false} InsertSortedElements(s: seq<OpID>, x: OpID)
    ensures forall y :: y in InsertSorted(s, x) <==> y == x || y in s
  {
    if s == [] || Less(x, s[0]) {
    } else if s[0] == x {
    } else {
      InsertSortedElements(s[1..], x);
      assert s == [s[0]] + s[1..];
    }
  }

  lemma {:induction false} InsertSortedAscending(s: seq<OpID>, x: OpID)
    requires Ascending(s)
    ensures Ascending(InsertSorted(s, x))
  {
    if s == [] {
    } else if Less(x, s[0]) {
      forall j | 0 < j < |s| ensures Less(x, s[j]) {
        LessIsTransitive(x, s[0], s[j]);
      }
    } else if s[0] == x {
    } else {
      var t := InsertSorted(s[1..], x);
      InsertSortedAscending(s[1..], x);
      InsertSortedElements(s[1..], x);
      LessIsTotal(s[0], x);
      forall j | 0 <= j < |t| ensures Less(s[0], t[j]) {
        assert t[j] in t;
      }
    }
  }

  lemma AscendingTail(s: seq<OpID>)
    requires Ascending(s) && s != []
    ensures Ascending(s[1..])
    ensures forall y :: y in s[1..] <==> y in s && y != s[0]
  {
    LessIsTotal(s[0], s[0]);
    assert s == [s[0]] + s[1..];
    forall j | 0 <= j < |s[1..]| ensures s[1..][j] != s[0] {
      assert Less(s[0], s[j + 1]);
    }
  }

  /** A strictly ascending sequence is determined by its elements. */
  lemma {:induction false} AscendingIsUnique(s: seq<OpID>, t: seq<OpID>)
    requires Ascending(s) && Ascending(t)
    requires forall y :: y in s <==> y in t
    ensures s == t
  {
    assert s != [] ==> s[0] in t;
    assert t != [] ==> t[0] in s;
    if s != [] {
      LessIsTotal(s[0], t[0]);
      assert s[0] == t[0];
      AscendingTail(s);
      AscendingTail(t);
      AscendingIsUnique(s[1..], t[1..]);
      assert s == [s[0]] + s[1..] && t == [t[0]] + t[1..];
    }
  }

  /** The ascending listing of a finite set. */
  ghost function SortedIds(ids: set<OpID>): seq<OpID> {
    if ids == {} then []
    else
      var x :| x in ids;
      InsertSorted(SortedIds(ids - {x}), x)
  }

  lemma {:induction false} SortedIdsIsTheListing(ids: set<OpID>)
    ensures Ascending(SortedIds(ids))
    ensures forall y :: y in SortedIds(ids) <==> y in ids
  {
    if ids != {} {
      var x :| x in ids && SortedIds(ids) == InsertSorted(SortedIds(ids - {x}), x);
      SortedIdsIsTheListing(ids - {x});
      InsertSortedElements(SortedIds(ids - {x}), x);
      InsertSortedAscending(SortedIds(ids - {x}), x);
    }
  }

  lemma SortedIdsAdd(ids: set<OpID>, x: OpID)
    ensures SortedIds(ids + {x}) == InsertSorted(SortedIds(ids), x)
  {
    SortedIdsIsTheListing(ids);
    SortedIdsIsTheListing(ids + {x});
    InsertSortedElements(SortedIds(ids), x);
    InsertSortedAscending(SortedIds(ids), x);
    AscendingIsUnique(SortedIds(ids + {x}), InsertSorted(SortedIds(ids), x));
  }

  /** Inserting at the first index that is not below x is sorted-set insertion. */
  lemma {:induction false} InsertSortedAt(s: seq<OpID>, x: OpID, i: nat)
    requires i <= |s|
    requires forall j :: 0 <= j < i ==> Less(s[j], x)
    requires i < |s| ==> Less(x, s[i])
    ensures InsertSorted(s, x) == s[..i] + [x] + s[i..]
  {
    if i > 0 {
      LessIsTotal(s[0], x);
      InsertSortedAt(s[1..], x, i - 1);
      assert s[1..][..i - 1] == s[1..i] && s[1..][i - 1..] == s[i..];
      assert s[..i] == [s[0]] + s[1..i];
    }
  }
}
