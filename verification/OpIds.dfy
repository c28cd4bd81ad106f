/** Operation identifiers: the sibling order (Compare) and the node-map key (Key). */
module OpIds {

  type uint64 = x: int | 0 <= x < 0x1_0000_0000_0000_0000

  const MAX_COUNTER: uint64 := 0xFFFF_FFFF_FFFF_FFFF

  /** A Go string is a byte sequence; each char of `replica` stands for one byte. */
  datatype OpID = OpID(replica: string, counter: uint64)

  /** The sentinel every tree starts from. */
  const ROOT := OpID("__root__", 0)

  /** The order `<` of Go strings. */
  predicate StringLess(a: string, b: string) {
    if b == [] then false
    else if a == [] then true
    else a[0] < b[0] || (a[0] == b[0] && StringLess(a[1..], b[1..]))
  }

  /** OpID.Compare, branch for branch. */
  function Compare(a: OpID, b: OpID): int {
    if StringLess(a.replica, b.replica) then -1
    else if StringLess(b.replica, a.replica) then 1
    else if a.counter < b.counter then -1
    else if a.counter > b.counter then 1
    else 0
  }

  predicate Less(a: OpID, b: OpID) {
    Compare(a, b) < 0
  }

  // ---------- Compare is a total order ----------

  lemma {:induction false} StringLessAsymmetric(a: string, b: string)
    ensures !(StringLess(a, b) && StringLess(b, a))
  {
    if a != [] && b != [] {
      StringLessAsymmetric(a[1..], b[1..]);
    }
  }

  lemma {:induction false} StringLessTotal(a: string, b: string)
    ensures StringLess(a, b) || a == b || StringLess(b, a)
  {
    if a != [] && b != [] && a[0] == b[0] {
      StringLessTotal(a[1..], b[1..]);
      assert a == [a[0]] + a[1..] && b == [b[0]] + b[1..];
    }
  }

  lemma {:induction false} StringLessTransitive(a: string, b: string, c: string)
    requires StringLess(a, b) && StringLess(b, c)
    ensures StringLess(a, c)
  {
    if a != [] && a[0] == b[0] == c[0] {
      StringLessTransitive(a[1..], b[1..], c[1..]);
    }
  }

  /** Byte order: the first difference decides, and a proper prefix is smaller. */
  lemma {:induction false} StringLessAtFirstDifference(a: string, b: string, n: nat)
    requires n <= |a| && n <= |b| && a[..n] == b[..n]
    requires n < |a| && n < |b| ==> a[n] != b[n]
    ensures StringLess(a, b) <==> n < |b| && (n == |a| || a[n] < b[n])
  {
    if n > 0 {
      assert a[0] == a[..n][0] == b[..n][0] == b[0];
      assert a[1..][..n - 1] == a[..n][1..] == b[..n][1..] == b[1..][..n - 1];
      StringLessAtFirstDifference(a[1..], b[1..], n - 1);
    }
  }

  /** Replica names decide before counters. */
  lemma LessIsLexicographic(a: OpID, b: OpID)
    ensures a.replica != b.replica ==> (Less(a, b) <==> StringLess(a.replica, b.replica))
    ensures a.replica == b.replica ==> (Less(a, b) <==> a.counter < b.counter)
  {
    StringLessAsymmetric(a.replica, b.replica);
    StringLessTotal(a.replica, b.replica);
  }

  /** Compare is antisymmetric and returns 0 only for equal identifiers. */
  lemma CompareIsTotal(a: OpID, b: OpID)
    ensures Compare(a, b) == -Compare(b, a)
    ensures Compare(a, b) == 0 <==> a == b
  {
    StringLessAsymmetric(a.replica, b.replica);
    StringLessTotal(a.replica, b.replica);
  }

  lemma LessIsTotal(a: OpID, b: OpID)
    ensures a != b ==> Less(a, b) != Less(b, a)
    ensures !Less(a, a)
  {
    CompareIsTotal(a, b);
    CompareIsTotal(a, a);
  }

  lemma LessIsTransitive(a: OpID, b: OpID, c: OpID)
    requires Less(a, b) && Less(b, c)
    ensures Less(a, c)
  {
    StringLessTotal(a.replica, b.replica);
    StringLessTotal(b.replica, c.replica);
    StringLessAsymmetric(a.replica, b.replica);
    StringLessAsymmetric(b.replica, c.replica);
    if StringLess(a.replica, b.replica) && StringLess(b.replica, c.replica) {
      StringLessTransitive(a.replica, b.replica, c.replica);
    }
  }

  // ---------- Keys ----------

  const DIGITS := "0123456789"

  /** Decimal rendering, the "%d" verb. */
  function Decimal(n: nat): string {
    if n < 10 then [DIGITS[n]] else Decimal(n / 10) + [DIGITS[n % 10]]
  }

  /** OpID.String, the "%s:%d" rendering under which nodes are stored. */
  function Key(id: OpID): string {
    id.replica + ":" + Decimal(id.counter)
  }

  lemma {:induction false} DecimalHasOnlyDigits(n: nat)
    ensures Decimal(n) != []
    ensures forall i :: 0 <= i < |Decimal(n)| ==> Decimal(n)[i] != ':'
  {
    if n >= 10 {
      DecimalHasOnlyDigits(n / 10);
    }
  }

  function DigitValue(c: char): int {
    (c as int) - ('0' as int)
  }

  /** The number a digit string reads as. */
  function Reads(s: string): int {
    if s == [] then 0 else 10 * Reads(s[..|s| - 1]) + DigitValue(s[|s| - 1])
  }

  /** The rendering reads back as the number. */
  lemma {:induction false} DecimalReadsBack(n: nat)
    ensures Reads(Decimal(n)) == n
  {
    var s := Decimal(n);
    assert DigitValue(DIGITS[n % 10]) == n % 10;
    if n < 10 {
      assert s[..0] == [];
      assert Reads(s[..0]) == 0;
    } else {
      DecimalReadsBack(n / 10);
      assert s[..|s| - 1] == Decimal(n / 10);
    }
  }

  /** The digits of the shortest decimal: no sign, no leading zero. */
  predicate IsShortestDecimal(s: string) {
    && s != [] && (s[0] == '0' ==> |s| == 1)
    && forall i :: 0 <= i < |s| ==> '0' <= s[i] <= '9'
  }

  lemma {:induction false} DecimalIsShortest(n: nat)
    ensures IsShortestDecimal(Decimal(n))
    ensures Decimal(n)[0] == '0' <==> n == 0
  {
    if n >= 10 { DecimalIsShortest(n / 10); }
  }

  /** The key is the name, one colon, and the counter in its shortest decimal form. */
  lemma KeyReads(id: OpID)
    ensures var k, n := Key(id), |id.replica|;
            && n < |k| && k[..n] == id.replica && k[n] == ':'
            && IsShortestDecimal(k[n + 1..]) && Reads(k[n + 1..]) == id.counter
  {
    var k, n := Key(id), |id.replica|;
    DecimalIsShortest(id.counter);
    DecimalReadsBack(id.counter);
    assert k[..n] == id.replica && k[n + 1..] == Decimal(id.counter);
  }

  /** Whatever colons a replica name holds, the key determines the identifier:
      the last colon is the separator, because a decimal has none. */
  lemma KeyIsInjective(a: OpID, b: OpID)
    ensures Key(a) == Key(b) <==> a == b
  {
    if Key(a) == Key(b) {
      var da, db := Decimal(a.counter), Decimal(b.counter);
      DecimalHasOnlyDigits(a.counter);
      DecimalHasOnlyDigits(b.counter);
      var k := Key(a);
      assert k[|a.replica|] == ':' && k[|b.replica|] == ':';
      assert forall i :: |a.replica| < i < |k| ==> k[i] == da[i - |a.replica| - 1];
      assert forall i :: |b.replica| < i < |k| ==> k[i] == db[i - |b.replica| - 1];
      assert |a.replica| == |b.replica|;
      assert a.replica == k[..|a.replica|] == b.replica;
      assert da == k[|a.replica| + 1..] == db;
      DecimalReadsBack(a.counter);
      DecimalReadsBack(b.counter);
    }
  }
}
