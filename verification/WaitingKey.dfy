/** The key of a message's waiting slot: the topic name directly followed by the decimal
    partition number, with nothing in between. */
module WaitingKey {

  /** Partition numbers are 32-bit signed and, for a message, not negative. */
  const PARTITIONS := 0x8000_0000

  function Digit(d: int): (c: char)
    requires 0 <= d < 10
    ensures '0' <= c <= '9' && c as int == '0' as int + d
  {
    ['0', '1', '2', '3', '4', '5', '6', '7', '8', '9'][d]
  }

  /** What a stream prints for an integer */
  function Decimal(n: int): (s: string)
    ensures |s| > 0
    ensures n >= 10 ==> |s| > 1
    decreases n < 0, if n < 0 then -n else n
  {
    if n < 0 then "-" + Decimal(-n)
    else if n < 10 then [Digit(n)]
    else Decimal(n / 10) + [Digit(n % 10)]
  }

  function Key(topic: string, partition: int): string {
    topic + Decimal(partition)
  }

  /** Reading a number from its digits */
  function Value(s: string): int {
    if s == "" then 0 else 10 * Value(s[..|s| - 1]) + (s[|s| - 1] as int - '0' as int)
  }

  /** What is printed is the number in plain decimal: it reads back as the number, it has only
      digits, no leading zero but for zero itself, and a minus sign if it is negative. */
  lemma {:induction false} DecimalReadsBack(n: nat)
    ensures Value(Decimal(n)) == n
    ensures forall i :: 0 <= i < |Decimal(n)| ==> '0' <= Decimal(n)[i] <= '9'
    ensures n > 0 ==> Decimal(n)[0] != '0'
    ensures n > 0 ==> Decimal(-(n as int)) == "-" + Decimal(n)
  {
    var s := Decimal(n);
    if n >= 10 {
      DecimalReadsBack(n / 10);
      assert s[..|s| - 1] == Decimal(n / 10);
    } else {
      assert s[..0] == "";
    }
  }

  lemma {:induction false} DecimalInjective(a: nat, b: nat)
    requires Decimal(a) == Decimal(b)
    ensures a == b
  {
    var s := Decimal(a);
    if a >= 10 && b >= 10 {
      assert s[..|s| - 1] == Decimal(a / 10) == Decimal(b / 10);
      DecimalInjective(a / 10, b / 10);
      assert s[|s| - 1] == Digit(a % 10) == Digit(b % 10);
    } else {
      assert a < 10 && b < 10;
    }
  }

  /** A proper, non-empty beginning of a number's digits is itself a number's digits, of a
      positive number at least ten times smaller: decimals have no leading zero. */
  lemma {:induction false} DecimalPrefix(p: nat, d: string) returns (n: nat)
    requires d != "" && d < Decimal(p)
    ensures d == Decimal(n) && 0 < n && 10 * n <= p
  {
    var rest := Decimal(p / 10);
    assert d <= rest by {
      assert forall i :: 0 <= i < |rest| ==> Decimal(p)[i] == rest[i];
    }
    if d == rest {
      n := p / 10;
    } else {
      n := DecimalPrefix(p / 10, d);
    }
  }

  /** No two partitions of the topics share a key. */
  ghost predicate KeysDistinct(topics: set<string>) {
    forall a, b, p, q ::
      a in topics && b in topics && 0 <= p < PARTITIONS && 0 <= q < PARTITIONS && Key(a, p) == Key(b, q) ==>
        a == b && p == q
  }

  /** `b` is `a` followed by a positive number of which a longer partition number begins. */
  ghost predicate Extends(a: string, b: string, n: int) {
    0 < n && 10 * n < PARTITIONS && b == a + Decimal(n)
  }

  lemma SameKey(a: string, p: nat, b: string, q: nat) returns (n: nat)
    requires Key(a, p) == Key(b, q) && |a| < |b| && p < PARTITIONS
    ensures Extends(a, b, n)
  {
    var d := b[|a|..];
    var k := Key(a, p);
    assert b == k[..|b|] && a == k[..|a|] && Decimal(p) == k[|a|..];
    assert b == a + d;
    assert d == Decimal(p)[..|d|];
    n := DecimalPrefix(p, d);
  }

  lemma ExtensionCollides(a: string, b: string, n: int)
    requires Extends(a, b, n)
    ensures Key(a, 10 * n) == Key(b, 0) && a != b
  {
    assert (10 * n) / 10 == n && (10 * n) % 10 == 0;
    assert Decimal(10 * n) == Decimal(n) + Decimal(0);
  }

  /** The exact condition under which the slots tell the partitions of a set of topics apart:
      no topic name is another one followed by a positive number, in plain decimal, small
      enough to begin a partition number.  A name like "a0" or "a07" beside "a" is harmless. */
  lemma KeysDistinctIff(topics: set<string>)
    ensures KeysDistinct(topics) <==> !exists a, b, n :: a in topics && b in topics && Extends(a, b, n)
  {
    if a, b, n :| a in topics && b in topics && Extends(a, b, n) {
      ExtensionCollides(a, b, n);
    } else {
      forall a, b, p, q | a in topics && b in topics && 0 <= p < PARTITIONS && 0 <= q < PARTITIONS && Key(a, p) == Key(b, q)
        ensures a == b && p == q
      {
        KeyCases(topics, a, p, b, q);
      }
    }
  }

  lemma KeyCases(topics: set<string>, a: string, p: nat, b: string, q: nat)
    requires a in topics && b in topics && p < PARTITIONS && q < PARTITIONS && Key(a, p) == Key(b, q)
    requires !exists a, b, n :: a in topics && b in topics && Extends(a, b, n)
    ensures a == b && p == q
  {
    var k := Key(a, p);
    if |a| == |b| {
      assert a == k[..|a|] == b;
      assert Decimal(p) == k[|a|..] == Decimal(q);
      DecimalInjective(p, q);
    } else if |a| < |b| {
      var n := SameKey(a, p, b, q);
      assert false;
    } else {
      var n := SameKey(b, q, a, p);
      assert false;
    }
  }
}
