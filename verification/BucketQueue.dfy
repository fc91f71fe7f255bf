/**
 * The list of buckets that wait to be healed, and the deletion of a healed one from it while the loop still ranges
 * over the slice as it was (cmd/background-newdisks-heal-ops.go).
 */
module BucketQueue {
  import opened Bytes

  // ---- what the loop leaves behind ----

  /** From the i-th on: after a deletion the loop does not look at the element that moved up. */
  function Sweep(q: seq<bytes>, i: nat, x: bytes): seq<bytes>
    requires i <= |q|
    decreases |q| - i
  {
    if i == |q| then []
    else if q[i] != x then [q[i]] + Sweep(q, i + 1, x)
    else if i + 1 == |q| then []
    else [q[i + 1]] + Sweep(q, i + 2, x)
  }

  /** From the i-th on, all that are not in `healed`, in order. */
  function Pending(q: seq<bytes>, i: nat, healed: seq<bytes>): (p: seq<bytes>)
    requires i <= |q|
    ensures forall y :: y in p ==> y in q && y !in healed
    decreases |q| - i
  {
    if i == |q| then []
    else if q[i] in healed then Pending(q, i + 1, healed)
    else [q[i]] + Pending(q, i + 1, healed)
  }

  /** The elements of p are those of q at these positions, in the order of q. */
  ghost predicate Subsequence(p: seq<bytes>, q: seq<bytes>, at: seq<nat>) {
    |at| == |p| && (forall k :: 0 <= k < |p| ==> at[k] < |q| && q[at[k]] == p[k]) &&
    forall j, k :: 0 <= j < k < |at| ==> at[j] < at[k]
  }

  lemma {:induction false} PendingInOrder(q: seq<bytes>, i: nat, healed: seq<bytes>) returns (at: seq<nat>)
    requires i <= |q|
    ensures Subsequence(Pending(q, i, healed), q, at) && forall k :: 0 <= k < |at| ==> at[k] >= i
    decreases |q| - i
  {
    if i == |q| {
      at := [];
    } else {
      at := PendingInOrder(q, i + 1, healed);
      if q[i] !in healed {
        at := [i] + at;
      }
    }
  }

  /** The program panics: the last element is to be deleted and so was an element before it. */
  predicate Panics(q: seq<bytes>, x: bytes) {
    |q| >= 2 && q[|q| - 1] == x && exists i :: 0 <= i < |q| - 1 && q[i] == x
  }

  predicate TwoInARow(q: seq<bytes>, i: nat, x: bytes) {
    exists k :: i <= k < |q| - 1 && q[k] == x && q[k + 1] == x
  }

  lemma Cancel(y: bytes, a: seq<bytes>, b: seq<bytes>)
    ensures [y] + a == [y] + b <==> a == b
  {
    assert ([y] + a)[1..] == a && ([y] + b)[1..] == b;
  }

  /** Exactly if the bucket does not stand twice in a row is everything but the bucket what remains. */
  lemma {:induction false} SweepExactly(q: seq<bytes>, i: nat, x: bytes)
    requires i <= |q|
    ensures Sweep(q, i, x) == Pending(q, i, [x]) <==> !TwoInARow(q, i, x)
    decreases |q| - i
  {
    if i < |q| && q[i] != x {
      SweepExactly(q, i + 1, x);
      assert TwoInARow(q, i, x) == TwoInARow(q, i + 1, x);
      Cancel(q[i], Sweep(q, i + 1, x), Pending(q, i + 1, [x]));
    } else if i + 1 < |q| {
      if q[i + 1] == x {
        assert x in Sweep(q, i, x) && x in [x];
        assert x !in Pending(q, i, [x]);
      } else {
        SweepExactly(q, i + 2, x);
        assert TwoInARow(q, i, x) == TwoInARow(q, i + 2, x);
        assert Pending(q, i, [x]) == [q[i + 1]] + Pending(q, i + 2, [x]);
        Cancel(q[i + 1], Sweep(q, i + 2, x), Pending(q, i + 2, [x]));
      }
    }
  }

  lemma {:induction false} PendingElements(q: seq<bytes>, i: nat, healed: seq<bytes>, y: bytes)
    requires i <= |q|
    ensures y in Pending(q, i, healed) <==> y in q[i..] && y !in healed
    decreases |q| - i
  {
    if i < |q| {
      PendingElements(q, i + 1, healed, y);
      assert q[i..] == [q[i]] + q[i + 1..];
    }
  }

  lemma {:induction false} PendingDistinct(q: seq<bytes>, i: nat, healed: seq<bytes>)
    requires i <= |q| && Distinct(q)
    ensures Distinct(Pending(q, i, healed))
    decreases |q| - i
  {
    if i < |q| {
      PendingDistinct(q, i + 1, healed);
      PendingElements(q, i + 1, healed, q[i]);
    }
  }

  lemma PendingCons(y: bytes, q: seq<bytes>, healed: seq<bytes>)
    ensures Pending([y] + q, 0, healed) == (if y in healed then [] else [y]) + Pending(q, 0, healed)
  {
    PendingOfCons(y, q, 0, healed);
    assert [] + Pending(q, 0, healed) == Pending(q, 0, healed);
  }

  lemma PendingUnfold(q: seq<bytes>, i: nat, healed: seq<bytes>)
    requires i < |q|
    ensures Pending(q, i, healed) == (if q[i] in healed then [] else [q[i]]) + Pending(q, i + 1, healed)
  {
    assert [] + Pending(q, i + 1, healed) == Pending(q, i + 1, healed);
  }

  lemma {:induction false} PendingTwice(q: seq<bytes>, i: nat, healed: seq<bytes>, x: bytes)
    requires i <= |q|
    ensures Pending(Pending(q, i, healed), 0, [x]) == Pending(q, i, healed + [x])
    decreases |q| - i
  {
    if i < |q| {
      PendingTwice(q, i + 1, healed, x);
      var rest := Pending(q, i + 1, healed);
      PendingUnfold(q, i, healed);
      PendingUnfold(q, i, healed + [x]);
      PendingCons(q[i], rest, [x]);
      hide Pending;
      assert [] + rest == rest;
      assert [] + Pending(rest, 0, [x]) == Pending(rest, 0, [x]);
    }
  }

  lemma {:induction false} PendingOfCons(y: bytes, q: seq<bytes>, i: nat, healed: seq<bytes>)
    requires i <= |q|
    ensures Pending([y] + q, i + 1, healed) == Pending(q, i, healed)
    decreases |q| - i
  {
    if i < |q| {
      assert ([y] + q)[i + 1] == q[i];
      PendingOfCons(y, q, i + 1, healed);
    }
  }

  /**
   * For distinct names: taking a healed bucket off the queue cannot panic, and the queue stays the listed buckets
   * that are not healed, in the order of the list.
   */
  lemma DoneKeepsPending(names: seq<bytes>, healed: seq<bytes>, x: bytes)
    requires Distinct(names)
    ensures var q := Pending(names, 0, healed);
            !Panics(q, x) && Sweep(q, 0, x) == Pending(names, 0, healed + [x])
  {
    var q := Pending(names, 0, healed);
    PendingDistinct(names, 0, healed);
    SweepExactly(q, 0, x);
    PendingTwice(names, 0, healed, x);
  }

  // ---- the loop ----

  /** The elements left behind i are those of `was` behind c. */
  ghost predicate Live(now: seq<bytes>, was: seq<bytes>, i: nat, m: nat, c: nat)
    requires m <= |now| && m - i <= |was| - c
  {
    forall k :: i <= k < m ==> now[k] == was[k - i + c]
  }

  /** Behind the elements left stand copies of the last one. */
  ghost predicate Stale(now: seq<bytes>, was: seq<bytes>, m: nat)
    requires |now| == |was|
  {
    forall k :: m <= k < |was| ==> now[k] == was[|was| - 1]
  }

  /** The elements before i and what the loop is to leave of `was` from c on are what it is to leave of all. */
  ghost predicate Done(now: seq<bytes>, was: seq<bytes>, i: nat, c: nat, x: bytes)
    requires i <= |now| && c <= |was|
  {
    now[..i] + Sweep(was, c, x) == Sweep(was, 0, x)
  }

  /** How the backing array stands when the loop comes to index i: `m` elements are left of those in `was`. */
  ghost predicate Swept(now: seq<bytes>, was: seq<bytes>, i: nat, m: nat, x: bytes)
    requires |now| == |was| && m <= |was| && i <= |was|
  {
    Stale(now, was, m) &&
    if i <= m
    then Live(now, was, i, m, i + |was| - m) && Done(now, was, i, i + |was| - m, x)
    else Done(now, was, m, |was|, x)
  }

  /**
   * Where deletions took place: the first one at `first`, the last one at `last`. If the last element is to be
   * deleted too, the loop cannot have gone on behind the elements that are left.
   */
  ghost predicate Deletions(was: seq<bytes>, i: nat, m: nat, x: bytes, first: nat, last: nat)
    requires m <= |was| && i <= |was|
  {
    (forall k :: 0 <= k < i && k < first ==> was[k] != x) &&
    (m == |was| ==> first == |was|) &&
    (m < |was| ==> first <= last < i && was[first] == x) &&
    (m == |was| - 1 ==> first == last) &&
    (m < |was| && i > m && was[|was| - 1] == x ==> i == m + 1 && last == i - 1)
  }

  lemma DoneKeep(now: seq<bytes>, was: seq<bytes>, i: nat, c: nat, x: bytes)
    requires i < |now| && c < |was| && Done(now, was, i, c, x) && now[i] == was[c] != x
    ensures Done(now, was, i + 1, c + 1, x)
  {
    var more := Sweep(was, c + 1, x);
    assert now[..i + 1] + more == now[..i] + ([now[i]] + more);
  }

  lemma KeepStep(now: seq<bytes>, was: seq<bytes>, i: nat, m: nat, x: bytes)
    requires |now| == |was| && m <= |was| && i < |was| && Swept(now, was, i, m, x) && now[i] != x
    ensures Swept(now, was, i + 1, m, x)
  {
    hide Done;
    if i < m {
      DoneKeep(now, was, i, i + |was| - m, x);
    }
  }

  lemma SkipStep(now: seq<bytes>, was: seq<bytes>, i: nat, m: nat, x: bytes, first: nat, last: nat)
    requires |now| == |was| && m <= |was| && i < |was| && Swept(now, was, i, m, x) && now[i] != x
    requires Deletions(was, i, m, x, first, last)
    ensures Deletions(was, i + 1, m, x, first, last)
  {
    hide Done;
  }

  lemma DeletionStep(now: seq<bytes>, was: seq<bytes>, i: nat, m: nat, x: bytes, first: nat, last: nat, first': nat)
    requires |now| == |was| && i < m <= |was| && Swept(now, was, i, m, x) && now[i] == x
    requires Deletions(was, i, m, x, first, last) && first' == if m == |was| then i else first
    ensures Deletions(was, i + 1, m - 1, x, first', i)
  {
    hide Done;
  }

  lemma PanicStep(now: seq<bytes>, was: seq<bytes>, i: nat, m: nat, x: bytes, first: nat, last: nat)
    requires |now| == |was| && m <= i < |was| && Swept(now, was, i, m, x) && now[i] == x
    requires Deletions(was, i, m, x, first, last)
    ensures Panics(was, x)
  {
    assert now[i] == was[|was| - 1];
    assert was[first] == x;
  }

  lemma NoPanic(was: seq<bytes>, m: nat, x: bytes, first: nat, last: nat)
    requires m <= |was| && Deletions(was, |was|, m, x, first, last)
    ensures !Panics(was, x)
  {
  }

  /** `next` is `now` with the elements behind i, up to m, moved down by one. */
  ghost predicate Shifted(now: seq<bytes>, next: seq<bytes>, i: nat, m: nat) {
    |next| == |now| && m <= |now| &&
    (forall k :: 0 <= k < |now| && !(i <= k < m - 1) ==> next[k] == now[k]) &&
    (forall k :: i <= k < m - 1 ==> next[k] == now[k + 1])
  }

  lemma DoneDelete(now: seq<bytes>, next: seq<bytes>, was: seq<bytes>, i: nat, c: nat, x: bytes)
    requires i < |now| == |next| && c + 1 < |was| && Done(now, was, i, c, x) && was[c] == x
    requires next[..i] == now[..i] && next[i] == was[c + 1]
    ensures Done(next, was, i + 1, c + 2, x)
  {
    var more := Sweep(was, c + 2, x);
    assert next[..i + 1] + more == next[..i] + ([next[i]] + more);
  }

  lemma DoneDeleteLast(now: seq<bytes>, next: seq<bytes>, was: seq<bytes>, i: nat, x: bytes)
    requires i < |now| == |next| && was != [] && Done(now, was, i, |was| - 1, x) && was[|was| - 1] == x
    requires next[..i] == now[..i]
    ensures Done(next, was, i, |was|, x)
  {
  }

  lemma DeleteStep(now: seq<bytes>, next: seq<bytes>, was: seq<bytes>, i: nat, m: nat, x: bytes)
    requires |now| == |was| && i < m <= |was| && Swept(now, was, i, m, x) && now[i] == x
    requires Shifted(now, next, i, m)
    ensures Swept(next, was, i + 1, m - 1, x)
  {
    hide Done;
    var c := i + |was| - m;
    assert was[c] == now[i] && next[..i] == now[..i];
    assert next[m - 1] == now[m - 1] == was[|was| - 1];
    if i + 1 < m {
      assert next[i] == now[i + 1] == was[c + 1];
      DoneDelete(now, next, was, i, c, x);
    } else {
      DoneDeleteLast(now, next, was, i, x);
    }
  }

  lemma ShiftedPart(now: seq<bytes>, next: seq<bytes>, i: nat, m: nat, n: nat)
    requires Shifted(now, next, i, m) && i < m <= n <= |now|
    ensures |next| == |now| && Shifted(now[..n], next[..n], i, m) && next[n..] == now[n..]
  {
  }

  lemma SweepStart(was: seq<bytes>, x: bytes)
    ensures Swept(was, was, 0, |was|, x) && Deletions(was, 0, |was|, x, |was|, |was|)
  {
    assert was[..0] + Sweep(was, 0, x) == Sweep(was, 0, x);
  }

  lemma SweepFinish(now: seq<bytes>, was: seq<bytes>, m: nat, x: bytes)
    requires |now| == |was| && m <= |was| && Swept(now, was, |was|, m, x)
    ensures now[..m] == Sweep(was, 0, x)
  {
    assert now[..m] + [] == now[..m];
  }

  /**
   * Deletes x from the first n elements, ranging over all n of them whatever was deleted meanwhile; m are left.
   * The copy of a deletion goes over the elements left.
   */
  method DeleteInPlace(a: array<bytes>, n: nat, x: bytes) returns (m: nat, panicked: bool)
    requires n <= a.Length
    modifies a
    ensures panicked <==> Panics(old(a[..n]), x)
    ensures !panicked ==> m <= n && a[..m] == Sweep(old(a[..n]), 0, x)
    ensures a[n..] == old(a[n..])
  {
    hide Swept, Deletions, Sweep, Panics, Shifted;
    ghost var was := a[..n];
    ghost var first, last := n, n;
    var i := 0;
    m := n;
    SweepStart(was, x);
    while i < n
      invariant i <= n && m <= n && a[n..] == old(a[n..])
      invariant Swept(a[..n], was, i, m, x)
      invariant Deletions(was, i, m, x, first, last)
    {
      ghost var now := a[..];
      assert a[i] == now[..n][i];
      if a[i] == x {
        if i + 1 > m {
          PanicStep(now[..n], was, i, m, x, first, last);
          return m, true;
        }
        ShiftDown(a, i, m);
        ShiftedPart(now, a[..], i, m, n);
        DeleteStep(now[..n], a[..n], was, i, m, x);
        ghost var f := if m == n then i else first;
        DeletionStep(now[..n], was, i, m, x, first, last, f);
        first, last := f, i;
        m := m - 1;
      } else {
        KeepStep(now[..n], was, i, m, x);
        SkipStep(now[..n], was, i, m, x, first, last);
      }
      i := i + 1;
    }
    NoPanic(was, m, x, first, last);
    SweepFinish(a[..n], was, m, x);
    assert a[..n][..m] == a[..m];
    return m, false;
  }

  /** Copies the elements behind i down by one place, up to m. */
  method ShiftDown(a: array<bytes>, i: nat, m: nat)
    requires i < m <= a.Length
    modifies a
    ensures Shifted(old(a[..]), a[..], i, m)
  {
    var k := i;
    while k + 1 < m
      invariant i <= k < m
      invariant Shifted(old(a[..]), a[..], i, k + 1)
    {
      a[k] := a[k + 1];
      k := k + 1;
    }
  }
}
