/** The topic name reported to the user: a partitioned Pulsar topic's name without its
    "-partition-n" suffix. */
module PartitionSuffix {

  const MARK := "-partition-"

  predicate IsDigit(c: char) {
    '0' <= c <= '9'
  }

  predicate Occurs(s: string, i: int) {
    0 <= i && i + |MARK| <= |s| && s[i..i + |MARK|] == MARK
  }

  /** `rfind`: the last occurrence of the marker at or before position i, or -1 */
  function LastMark(s: string, i: int): (r: int)
    requires i + |MARK| <= |s| || i < 0
    ensures r <= i || r == -1
    ensures r == -1 || Occurs(s, r)
    ensures forall j :: r < j <= i ==> !Occurs(s, j)
    decreases i + 1
  {
    if i < 0 then -1 else if Occurs(s, i) then i else LastMark(s, i - 1)
  }

  function RemovePartitionSuffix(topic: string): (base: string)
    requires topic != ""
    ensures base <= topic
  {
    var pos := LastMark(topic, |topic| - |MARK|);
    if pos != -1 && IsDigit(topic[|topic| - 1]) then topic[..pos] else topic
  }

  ghost predicate AllDigits(d: string) {
    forall i :: 0 <= i < |d| ==> IsDigit(d[i])
  }

  lemma TailChars(base: string, d: string, j: int)
    requires AllDigits(d) && |base| < j && j + 1 < |base + MARK + d|
    ensures var s := base + MARK + d; !(s[j] == '-' && s[j + 1] == 'p')
  {
    var s, u := base + MARK + d, MARK + d;
    assert s == base + u;
    assert s[j] == u[j - |base|] && s[j + 1] == u[j + 1 - |base|];
  }

  /** Inside the marker and a run of digits, the marker does not begin again. */
  lemma NoLaterMark(base: string, d: string, j: int)
    requires AllDigits(d) && |base| < j
    ensures !Occurs(base + MARK + d, j)
  {
    var s := base + MARK + d;
    if j + |MARK| <= |s| {
      TailChars(base, d, j);
      assert s[j..j + |MARK|][0] == s[j] && s[j..j + |MARK|][1] == s[j + 1];
    }
  }

  /** Round trip: whatever the base topic contains, even markers of its own, its partitioned
      name maps back to it. */
  lemma RemovesWhatWasAdded(base: string, d: string)
    requires d != "" && AllDigits(d)
    ensures RemovePartitionSuffix(base + "-partition-" + d) == base
  {
    var s := base + MARK + d;
    assert Occurs(s, |base|) by {
      assert s[|base|..|base| + |MARK|] == MARK;
    }
    var pos := LastMark(s, |s| - |MARK|);
    assert pos == |base| by {
      forall j | |base| < j ensures !Occurs(s, j) {
        NoLaterMark(base, d, j);
      }
    }
    assert s[|s| - 1] == d[|d| - 1];
    assert s[..|base|] == base;
  }

  /** The name changes exactly when it contains the marker and ends in a digit; what is cut
      off then begins at the last marker. */
  lemma ChangesIff(topic: string)
    requires topic != ""
    ensures RemovePartitionSuffix(topic) != topic <==> IsDigit(topic[|topic| - 1]) && exists i :: Occurs(topic, i)
    ensures RemovePartitionSuffix(topic) != topic ==>
      var n := |RemovePartitionSuffix(topic)|;
      Occurs(topic, n) && forall j :: n < j ==> !Occurs(topic, j)
  {
    var pos := LastMark(topic, |topic| - |MARK|);
    if i :| Occurs(topic, i) {
      assert pos != -1;
    }
  }

  lemma SplitAt(topic: string, i: int)
    requires Occurs(topic, i)
    ensures topic == topic[..i] + MARK + topic[i + |MARK|..]
    ensures topic[i + |MARK|..] == "" ==> topic[|topic| - 1] == '-'
  {
    assert topic[i + |MARK| - 1] == topic[i..i + |MARK|][|MARK| - 1];
  }

  /** A base topic, the marker, and a number */
  ghost predicate IsPartitionName(topic: string) {
    exists i :: Occurs(topic, i) && i + |MARK| < |topic| && AllDigits(topic[i + |MARK|..])
  }

  /** A character that is no digit lies behind the last marker. */
  ghost predicate StrayTail(topic: string) {
    exists i, j :: Occurs(topic, i) && i + |MARK| <= j < |topic| && !IsDigit(topic[j]) && forall k :: i < k ==> !Occurs(topic, k)
  }

  /** A name that belongs to no partition is cut all the same exactly when it ends in a digit
      and has something else than digits behind its last marker: the code only looks at the
      last character.  A partition's name is always cut. */
  lemma CutWronglyIff(topic: string)
    requires topic != ""
    ensures RemovePartitionSuffix(topic) != topic && !IsPartitionName(topic) <==>
            IsDigit(topic[|topic| - 1]) && StrayTail(topic)
    ensures IsPartitionName(topic) ==> RemovePartitionSuffix(topic) != topic
  {
    if i :| Occurs(topic, i) && i + |MARK| < |topic| && AllDigits(topic[i + |MARK|..]) {
      PartitionNameHasNoStrayTail(topic, i);
    }
    ChangesIff(topic);
    if RemovePartitionSuffix(topic) != topic && !IsPartitionName(topic) {
      var n := |RemovePartitionSuffix(topic)|;
      SplitAt(topic, n);
      var j :| 0 <= j < |topic| - n - |MARK| && !IsDigit(topic[n + |MARK|..][j]);
      assert topic[n + |MARK| + j] == topic[n + |MARK|..][j];
    }
  }

  lemma PartitionNameHasNoStrayTail(topic: string, i: int)
    requires Occurs(topic, i) && i + |MARK| < |topic| && AllDigits(topic[i + |MARK|..])
    ensures !StrayTail(topic) && RemovePartitionSuffix(topic) != topic
  {
    var base, d := topic[..i], topic[i + |MARK|..];
    SplitAt(topic, i);
    RemovesWhatWasAdded(base, d);
    forall k | i < k ensures !Occurs(topic, k) {
      NoLaterMark(base, d, k);
    }
    forall j | i + |MARK| <= j < |topic| ensures IsDigit(topic[j]) {
      assert topic[j] == d[j - i - |MARK|];
    }
  }
}
