/** The Kafka producer's partitioner: a 32-bit hash of the key, or, without a key, random
    draws until an available partition is hit. */
module Partitioner {

  const U32 := 0x1_0000_0000

  /** A `char` of the key, read as a signed byte */
  newtype Byte = b: int | -128 <= b < 128

  function Wrap(n: int): (r: int)
    ensures 0 <= r < U32
  {
    n % U32
  }

  // ---- With a key ----

  function Pow33(n: nat): nat {
    if n == 0 then 1 else 33 * Pow33(n - 1)
  }

  /** The sum of key[i] * 33^(n-1-i) */
  function Poly(key: seq<Byte>): int {
    if key == [] then 0 else 33 * Poly(key[..|key| - 1]) + key[|key| - 1] as int
  }

  /** The hash as arithmetic: no shift, no wrapping on the way */
  function Hash(key: seq<Byte>): (h: int)
    ensures 0 <= h < U32
  {
    Wrap(5381 * Pow33(|key|) + Poly(key))
  }

  lemma WrapStep(h: int, x: int, c: int)
    requires h == Wrap(x)
    ensures Wrap(Wrap(Wrap(h * 32) + h) + Wrap(c)) == Wrap(33 * x + c)
  {
    var q := x / U32;
    assert x == q * U32 + h;
    assert 33 * x + c == 33 * q * U32 + (33 * h + c);
    WrapShift(33 * h + c, 33 * q);
    var a := (h * 32) / U32;
    assert Wrap(h * 32) + h == 33 * h - a * U32;
    WrapShift(33 * h, -a);
    var b := (33 * h) / U32;
    var e := c / U32;
    assert Wrap(33 * h) + Wrap(c) == 33 * h + c + (-b - e) * U32;
    WrapShift(33 * h + c, -b - e);
  }

  lemma WrapShift(n: int, k: int)
    ensures Wrap(n + k * U32) == Wrap(n)
  {
    var q := n / U32;
    assert n + k * U32 == (q + k) * U32 + Wrap(n);
    DivModUnique(n + k * U32, q + k, Wrap(n));
  }

  lemma DivModUnique(n: int, q: int, r: int)
    requires 0 <= r < U32 && n == q * U32 + r
    ensures Wrap(n) == r
  {
  }

  /** The loop with its shift and its additions on unsigned 32-bit values */
  method DjbHash(key: seq<Byte>) returns (hash: int)
    ensures hash == Hash(key)
  {
    hash := 5381;
    assert key[..0] == [];
    for i := 0 to |key|
      invariant hash == Hash(key[..i])
    {
      assert key[..i + 1][..i] == key[..i];
      WrapStep(hash, 5381 * Pow33(i) + Poly(key[..i]), key[i] as int);
      assert 5381 * Pow33(i + 1) + Poly(key[..i + 1]) == 33 * (5381 * Pow33(i) + Poly(key[..i])) + key[i] as int;
      hash := Wrap(Wrap(Wrap(hash * 32) + hash) + Wrap(key[i] as int));
    }
    assert key[..|key|] == key;
  }

  lemma {:induction false} Pow33Add(m: nat, n: nat, sum: nat)
    requires sum == m + n
    ensures Pow33(sum) == Pow33(m) * Pow33(n)
  {
    if n > 0 {
      Pow33Add(m, n - 1, sum - 1);
      assert Pow33(m) * (33 * Pow33(n - 1)) == 33 * (Pow33(m) * Pow33(n - 1));
    }
  }

  lemma {:induction false} PolyConcat(a: seq<Byte>, b: seq<Byte>)
    ensures Poly(a + b) == Poly(a) * Pow33(|b|) + Poly(b)
  {
    if b == [] {
      assert a + b == a;
    } else {
      var c := b[..|b| - 1];
      assert (a + b)[..|a + b| - 1] == a + c;
      PolyConcat(a, c);
      assert 33 * (Poly(a) * Pow33(|c|)) == Poly(a) * (33 * Pow33(|c|));
    }
  }

  /** Reducing before multiplying and adding changes nothing modulo 2^32. */
  lemma WrapMulAdd(x: int, p: int, c: int)
    ensures Wrap(x * p + c) == Wrap(Wrap(x) * p + c)
  {
    var q, r := x / U32, Wrap(x);
    assert x == q * U32 + r;
    MulOut(q, r, p);
    WrapShift(r * p + c, q * p);
  }

  lemma MulOut(q: int, r: int, p: int)
    ensures (q * U32 + r) * p == (q * p) * U32 + r * p
  {
  }

  lemma Factor(x: int, y: int, p: int)
    ensures 5381 * (x * p) + y * p == (5381 * x + y) * p
  {
  }

  lemma Combine(pa: int, ya: int, p: int, yb: int, pab: int, yab: int)
    requires pab == pa * p && yab == ya * p + yb
    ensures Wrap(5381 * pab + yab) == Wrap(Wrap(5381 * pa + ya) * p + yb)
  {
    Factor(pa, ya, p);
    WrapMulAdd(5381 * pa + ya, p, yb);
  }

  /** Concatenation law: the hash of a longer key from the hash of its beginning */
  lemma HashConcat(a: seq<Byte>, b: seq<Byte>)
    ensures Hash(a + b) == Wrap(Hash(a) * Pow33(|b|) + Poly(b))
  {
    var pa, ya, p, yb := Pow33(|a|), Poly(a), Pow33(|b|), Poly(b);
    var pab, yab := Pow33(|a + b|), Poly(a + b);
    assert pab == pa * p by { Pow33Add(|a|, |b|, |a + b|); }
    assert yab == ya * p + yb by { PolyConcat(a, b); }
    Combine(pa, ya, p, yb, pab, yab);
  }

  /** The hash from its start value on, one byte at a time */
  lemma HashFromTheStart(key: seq<Byte>, b: Byte)
    ensures Hash([]) == 5381
    ensures Hash(key + [b]) == (33 * Hash(key) + b as int) % 0x1_0000_0000
  {
    HashConcat(key, [b]);
    assert [b][..0] == [];
    assert Poly([b]) == b as int && Pow33(1) == 33;
  }

  /** With a key: the hash residue when that partition is available, partition 0 otherwise. */
  method ChooseByKey(key: seq<Byte>, partitionCnt: int, available: int -> bool) returns (hit: int)
    requires 0 < partitionCnt < 0x8000_0000
    ensures 0 <= hit < partitionCnt
    ensures available(Hash(key) % partitionCnt) ==> hit == Hash(key) % partitionCnt
    ensures !available(Hash(key) % partitionCnt) ==> hit == 0
  {
    var hash := DjbHash(key);
    hit := hash % partitionCnt;
    if !available(hit) {
      hit := 0;
    }
  }

  // ---- Without a key ----

  /** The random draws, and whether the partition drawn at a try is available then */
  datatype Oracle = Oracle(draw: nat -> int, available: nat -> bool)

  ghost predicate InRange(o: Oracle, cnt: int) {
    forall i: nat :: 0 <= o.draw(i) < cnt
  }

  function AllPartitions(cnt: int): (s: set<int>)
    ensures forall p :: p in s <==> 0 <= p < cnt
  {
    if cnt <= 0 then {} else AllPartitions(cnt - 1) + {cnt - 1}
  }

  /** The partitions not yet drawn in n tries */
  ghost function Untried(o: Oracle, cnt: int, n: nat): set<int> {
    if n == 0 then AllPartitions(cnt) else Untried(o, cnt, n - 1) - {o.draw(n - 1)}
  }

  ghost predicate AllFailed(o: Oracle, n: nat) {
    forall i: nat :: i < n ==> !o.available(i)
  }

  ghost predicate Drawn(o: Oracle, p: int, n: nat) {
    exists i: nat :: i < n && o.draw(i) == p
  }

  ghost predicate Covered(o: Oracle, cnt: int, n: nat) {
    forall p :: 0 <= p < cnt ==> Drawn(o, p, n)
  }

  /** An n-th try (counting from 0) that ends the loop if it is reached */
  ghost predicate Ends(o: Oracle, cnt: int, n: nat) {
    o.available(n) || Untried(o, cnt, n + 1) == {}
  }

  ghost predicate ExitsAt(o: Oracle, cnt: int, n: nat) {
    Ends(o, cnt, n) && forall i: nat :: i < n ==> !Ends(o, cnt, i)
  }

  lemma {:induction false} UntriedMeans(o: Oracle, cnt: int, n: nat)
    ensures forall p :: p in Untried(o, cnt, n) <==> 0 <= p < cnt && !Drawn(o, p, n)
  {
    if n > 0 {
      UntriedMeans(o, cnt, n - 1);
      forall p ensures Drawn(o, p, n) <==> Drawn(o, p, n - 1) || o.draw(n - 1) == p {
        if Drawn(o, p, n - 1) {
          var i: nat :| i < n - 1 && o.draw(i) == p;
          assert i < n;
        }
      }
    }
  }

  /** `partitionHashFunc` without a key.  The loop leaves with its n-th try, with a partition
      just seen available or, when every one has been seen unavailable, with one more draw. */
  method ChooseKeyless(o: Oracle, cnt: int, ghost n: nat) returns (hit: int, tries: nat)
    requires cnt > 0 && InRange(o, cnt) && ExitsAt(o, cnt, n)
    ensures 0 <= hit < cnt && tries == n + 1
    ensures o.available(n) ==> hit == o.draw(n)
    ensures !o.available(n) ==> hit == o.draw(n + 1) && AllFailed(o, n + 1) && Covered(o, cnt, n + 1)
  {
    var partitionSet: set<int> := {};
    for i := 0 to cnt
      invariant partitionSet == AllPartitions(i)
    {
      partitionSet := partitionSet + {i};
    }
    tries := 0;
    while true
      invariant tries <= n && partitionSet == Untried(o, cnt, tries) && AllFailed(o, tries)
      decreases n - tries
    {
      hit := o.draw(tries);
      tries := tries + 1;
      if o.available(tries - 1) {
        assert Ends(o, cnt, tries - 1);
        break;
      } else {
        partitionSet := partitionSet - {hit};
        if partitionSet == {} {
          assert Ends(o, cnt, tries - 1);
          UntriedMeans(o, cnt, tries);
          hit := o.draw(tries);
          break;
        }
        assert !Ends(o, cnt, tries - 1);
      }
    }
  }

  /** `partitionHashFunc`: a key decides by its hash, no key by drawing.  `up` is what a keyed
      message is told about availability, `n` the try that ends the drawing. */
  method PartitionHashFunc(key: seq<Byte>, cnt: int, up: int -> bool, o: Oracle, ghost n: nat) returns (hit: int)
    requires 0 < cnt < 0x8000_0000 && (key == [] ==> InRange(o, cnt) && ExitsAt(o, cnt, n))
    ensures 0 <= hit < cnt
    ensures key != [] && hit != 0 ==> up(hit) && hit == Hash(key) % cnt
    ensures key != [] && up(Hash(key) % cnt) ==> hit == Hash(key) % cnt
    ensures key == [] ==>
      (hit == o.draw(n) && o.available(n)) || (hit == o.draw(n + 1) && AllFailed(o, n + 1) && Covered(o, cnt, n + 1))
  {
    if |key| > 0 {
      hit := ChooseByKey(key, cnt, up);
    } else {
      var tries;
      hit, tries := ChooseKeyless(o, cnt, n);
    }
  }

  lemma {:induction false} FirstEnd(o: Oracle, cnt: int, b: nat) returns (n: nat)
    requires Ends(o, cnt, b) || exists i: nat :: i < b && Ends(o, cnt, i)
    ensures ExitsAt(o, cnt, n)
  {
    if i: nat :| i < b && Ends(o, cnt, i) {
      n := FirstEnd(o, cnt, i);
    } else {
      n := b;
    }
  }

  lemma NothingUntried(o: Oracle, cnt: int, n: nat)
    requires Covered(o, cnt, n)
    ensures Untried(o, cnt, n) == {} && Ends(o, cnt, n)
  {
    UntriedMeans(o, cnt, n);
    var u := Untried(o, cnt, n);
    forall p ensures p !in u {
      assert 0 <= p < cnt ==> Drawn(o, p, n);
    }
  }

  /** The loop terminates exactly when some draw is available when drawn, or the draws reach
      every partition. */
  lemma LoopExitsIff(o: Oracle, cnt: int)
    ensures (exists n: nat :: ExitsAt(o, cnt, n)) <==>
            (exists i: nat :: o.available(i)) || (exists n: nat :: Covered(o, cnt, n))
  {
    if n: nat :| ExitsAt(o, cnt, n) {
      UntriedMeans(o, cnt, n + 1);
      assert o.available(n) || Covered(o, cnt, n + 1);
    }
    if i: nat :| o.available(i) {
      var n := FirstEnd(o, cnt, i);
    } else if n: nat :| Covered(o, cnt, n) {
      NothingUntried(o, cnt, n);
      var m := FirstEnd(o, cnt, n);
    }
  }

  ghost predicate EverDrawn(o: Oracle, p: int) {
    exists n: nat :: Drawn(o, p, n)
  }

  /** A random source that reaches every partition */
  ghost predicate Fair(o: Oracle, cnt: int) {
    forall p :: 0 <= p < cnt ==> EverDrawn(o, p)
  }

  lemma {:induction false} FairCovers(o: Oracle, cnt: int, k: nat) returns (n: nat)
    requires Fair(o, cnt) && k <= cnt
    ensures Covered(o, k, n)
  {
    if k == 0 {
      n := 0;
    } else {
      var a := FairCovers(o, cnt, k - 1);
      assert EverDrawn(o, k - 1);
      var b: nat :| Drawn(o, k - 1, b);
      n := if a < b then b else a;
      forall p | 0 <= p < k ensures Drawn(o, p, n) {
        var m := if p < k - 1 then a else b;
        assert Drawn(o, p, m);
        var i: nat :| i < m && o.draw(i) == p;
        assert i < n;
      }
    }
  }

  /** So with fair draws it always terminates. */
  lemma FairDrawsTerminate(o: Oracle, cnt: int) returns (n: nat)
    requires cnt > 0 && Fair(o, cnt)
    ensures ExitsAt(o, cnt, n)
  {
    var m := FairCovers(o, cnt, cnt);
    LoopExitsIff(o, cnt);
    n :| ExitsAt(o, cnt, n);
  }

  /** While availability does not change, the choice is available whenever any partition is. */
  lemma FixedAvailability(o: Oracle, cnt: int, n: nat, up: int -> bool, p: int)
    requires ExitsAt(o, cnt, n) && 0 <= p < cnt && up(p)
    requires forall i: nat :: o.available(i) <==> up(o.draw(i))
    ensures o.available(n) && up(o.draw(n))
  {
    UntriedMeans(o, cnt, n + 1);
    if Drawn(o, p, n + 1) {
      var i: nat :| i < n + 1 && o.draw(i) == p;
      assert o.available(i);
      assert i < n ==> !Ends(o, cnt, i);
    }
  }
}
