/** A ring of fixed capacity over an array: what it holds, and how that moves. */
module Ring {

  /** The array position i steps after head. */
  function At(n: nat, head: nat, i: nat): (p: nat)
    requires n > 0
    ensures p < n
  {
    (head + i) % n
  }

  function Held<T>(a: seq<T>, head: nat, count: nat): seq<T>
    requires count <= |a| && head < |a|
  {
    seq(count, i requires 0 <= i < count => a[At(|a|, head, i)])
  }

  lemma AtSplit(n: nat, head: nat, i: nat)
    requires head < n && i <= n
    ensures At(n, head, i) == if head + i < n then head + i else head + i - n
  {
    if head + i >= n {
      assert head + i == n + (head + i - n);
      if i == n { assert (head + n) % n == head; }
      ModOnce(head + i - n, n);
    } else {
      ModSmall(head + i, n);
    }
  }

  lemma ModSmall(x: nat, n: nat)
    requires x < n
    ensures x % n == x
  {
  }

  lemma ModOnce(x: nat, n: nat)
    requires x < n
    ensures (x + n) % n == x
  {
  }

  /** Writing at the end and counting it in appends. */
  lemma PushHeld<T>(a: seq<T>, head: nat, count: nat, x: T)
    requires head < |a| && count < |a|
    ensures Held(a[At(|a|, head, count) := x], head, count + 1) == Held(a, head, count) + [x]
  {
    var b := a[At(|a|, head, count) := x];
    forall i | 0 <= i < count ensures b[At(|a|, head, i)] == a[At(|a|, head, i)] {
      AtSplit(|a|, head, i);
      AtSplit(|a|, head, count);
    }
  }

  /** Moving the head on and counting down removes the front. */
  lemma PopHeld<T>(a: seq<T>, head: nat, count: nat)
    requires head < |a| && 0 < count <= |a|
    ensures Held(a, head, count) == [a[head]] + Held(a, At(|a|, head, 1), count - 1)
  {
    var h1 := At(|a|, head, 1);
    AtSplit(|a|, head, 0);
    AtSplit(|a|, head, 1);
    forall i | 0 <= i < count - 1 ensures At(|a|, h1, i) == At(|a|, head, i + 1) {
      AtSplit(|a|, h1, i);
      AtSplit(|a|, head, i + 1);
    }
    assert At(|a|, head, 0) == head;
  }
}
