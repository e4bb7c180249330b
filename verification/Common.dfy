/** Types shared by every component of the controller model. */
module Common {

  datatype Option<+T> = None | Some(value: T)

  datatype Result<+T, +E> = Ok(value: T) | Err(error: E)

  const U64_LIMIT: nat := 0x1_0000_0000_0000_0000

  /** A sequence of more than n values below n repeats one. */
  lemma {:induction false} Pigeonhole(s: seq<nat>, n: nat) returns (i: nat, j: nat)
    requires |s| > n
    requires forall k :: 0 <= k < |s| ==> s[k] < n
    ensures i < j < |s| && s[i] == s[j]
  {
    assert s[0] < n;
    if k :| 0 <= k < |s| && s[k] == n - 1 && exists m :: k < m < |s| && s[m] == n - 1 {
      i := k;
      j :| k < j < |s| && s[j] == n - 1;
    } else if k :| 0 <= k < |s| && s[k] == n - 1 {
      assert forall q :: 0 <= q < |s| && q != k ==> s[q] != n - 1;
      var rest := s[..k] + s[k + 1..];
      forall q | 0 <= q < |rest| ensures rest[q] < n - 1 {
        assert rest[q] == if q < k then s[q] else s[q + 1];
      }
      var a, b := Pigeonhole(rest, n - 1);
      i := if a < k then a else a + 1;
      j := if b < k then b else b + 1;
    } else {
      i, j := Pigeonhole(s, n - 1);
    }
  }

  /** A set of values below n has at most n elements. */
  lemma {:induction false} BoundedSetSize(s: set<nat>, n: nat)
    requires forall x :: x in s ==> x < n
    ensures |s| <= n
  {
    if n == 0 {
      assert s == {};
    } else {
      BoundedSetSize(s - {n - 1}, n - 1);
    }
  }

  lemma {:induction false} SubsetSize<T>(a: set<T>, b: set<T>)
    requires a <= b
    ensures |a| <= |b|
  {
    if x :| x in a {
      SubsetSize(a - {x}, b - {x});
    }
  }

  ghost function Elements<T>(s: seq<T>): set<T> {
    set x | x in s
  }

  /** A sequence without repetition has as many entries as its set of values. */
  lemma {:induction false} DistinctSize<T>(s: seq<T>)
    requires forall i, j :: 0 <= i < j < |s| ==> s[i] != s[j]
    ensures |Elements(s)| == |s|
  {
    if |s| == 0 {
      assert Elements(s) == {};
    } else {
      var front, last := s[..|s| - 1], s[|s| - 1];
      DistinctSize(front);
      assert s == front + [last];
      assert Elements(s) == Elements(front) + {last};
      assert last !in front;
    }
  }
}
