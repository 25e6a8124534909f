/** Sequence operations shared by the window manager's registry and the server's stacking order. */
module Sequences {

  /** The sequence without its first occurrence of `x` (C's search-then-memmove). */
  function RemoveFirst<T(==)>(s: seq<T>, x: T): (r: seq<T>)
    ensures x in s ==> |r| == |s| - 1
    ensures x !in s ==> r == s
  {
    if s == [] then []
    else if s[0] == x then s[1..]
    else [s[0]] + RemoveFirst(s[1..], x)
  }

  /** Exactly one copy of `x` is taken out, if there is one. */
  lemma {:induction false} RemoveFirstMultiset<T>(s: seq<T>, x: T)
    ensures multiset(RemoveFirst(s, x)) == multiset(s) - multiset{x}
  {
    if s != [] {
      assert s == [s[0]] + s[1..];
      if s[0] != x {
        RemoveFirstMultiset(s[1..], x);
      }
    }
  }

  /** Removing the first occurrence, found at index `i`, deletes exactly that index and keeps the order of the rest. */
  lemma {:induction false} RemoveFirstAt<T>(s: seq<T>, x: T, i: nat)
    requires i < |s| && s[i] == x && x !in s[..i]
    ensures RemoveFirst(s, x) == s[..i] + s[i + 1..]
  {
    if i == 0 {
      assert s[..0] + s[1..] == s[1..];
    } else {
      var t := s[1..];
      assert s[..i] == [s[0]] + t[..i - 1];
      assert s[0] != x && x !in t[..i - 1];
      RemoveFirstAt(t, x, i - 1);
      assert RemoveFirst(s, x) == [s[0]] + RemoveFirst(t, x);
      assert s[i + 1..] == t[i..];
    }
  }

  /** Moves the first element to the end. */
  function RotateLeft<T>(s: seq<T>): (r: seq<T>)
    ensures |r| == |s| && multiset(r) == multiset(s)
    ensures |s| > 1 ==> r[0] == s[1] && r[|s| - 1] == s[0]
  {
    if s == [] then []
    else
      assert s == [s[0]] + s[1..];
      s[1..] + [s[0]]
  }

  /** `k` successive left rotations. */
  function Rotated<T>(s: seq<T>, k: nat): (r: seq<T>)
    ensures |r| == |s| && multiset(r) == multiset(s)
  {
    if k == 0 then s else RotateLeft(Rotated(s, k - 1))
  }

  /** After `k <= |s|` rotations the first `k` elements have moved, in order, to the end. */
  lemma {:induction false} RotatedSplit<T>(s: seq<T>, k: nat)
    requires k <= |s|
    ensures Rotated(s, k) == s[k..] + s[..k]
  {
    if k > 0 {
      RotatedSplit(s, k - 1);
      RotateSplitStep(s, k);
    }
  }

  lemma RotateSplitStep<T>(s: seq<T>, k: nat)
    requires 0 < k <= |s|
    ensures RotateLeft(s[k - 1..] + s[..k - 1]) == s[k..] + s[..k]
  {
    var prev := s[k - 1..] + s[..k - 1];
    assert prev[0] == s[k - 1];
    assert prev[1..] == s[k..] + s[..k - 1];
    assert s[..k] == s[..k - 1] + [s[k - 1]];
  }

  /** Rotating a sequence as many times as it is long restores it. */
  lemma RotationPeriod<T>(s: seq<T>)
    ensures Rotated(s, |s|) == s
  {
    RotatedSplit(s, |s|);
  }

  /** After `k < |s|` rotations the front element is the original `s[k]`. */
  lemma RotatedFront<T>(s: seq<T>, k: nat)
    requires k < |s|
    ensures Rotated(s, k)[0] == s[k]
  {
    RotatedSplit(s, k);
  }

  /** The longest prefix of `s` holding at most `n` elements. */
  function Capped<T>(s: seq<T>, n: nat): (r: seq<T>)
    ensures |r| <= n && r <= s
    ensures |s| <= n ==> r == s
  {
    if |s| <= n then s else s[..n]
  }

  /** Appending to a capped sequence: the element is kept exactly while there is room. */
  lemma CappedAppend<T>(s: seq<T>, x: T, n: nat)
    ensures Capped(s + [x], n) == if |Capped(s, n)| < n then Capped(s, n) + [x] else Capped(s, n)
  {
    if |s| >= n {
      assert (s + [x])[..n] == s[..n];
    }
  }

  /** The set of elements of a sequence. */
  function Elements<T>(s: seq<T>): set<T>
  {
    set x | x in s
  }

  lemma ElementsAppend<T>(s: seq<T>, x: T)
    ensures Elements(s + [x]) == Elements(s) + {x}
  {
  }

  /** `g_list_reverse`. */
  function Reverse<T>(s: seq<T>): (r: seq<T>)
    ensures |r| == |s|
  {
    if s == [] then [] else Reverse(s[1..]) + [s[0]]
  }

  /** Element `i` of the reversal is element `|s| - 1 - i` of the original. */
  lemma {:induction false} ReverseAt<T>(s: seq<T>)
    ensures forall i :: 0 <= i < |s| ==> Reverse(s)[i] == s[|s| - 1 - i]
  {
    if s != [] {
      ReverseAt(s[1..]);
    }
  }

  lemma ReverseAppend<T>(a: seq<T>, b: seq<T>)
    ensures Reverse(a + b) == Reverse(b) + Reverse(a)
  {
    ReverseAt(a + b);
    ReverseAt(a);
    ReverseAt(b);
    assert forall i :: 0 <= i < |a + b| ==> Reverse(a + b)[i] == (Reverse(b) + Reverse(a))[i];
  }

  lemma ReversePush<T>(s: seq<T>, x: T)
    ensures Reverse(s + [x]) == [x] + Reverse(s)
  {
    ReverseAppend(s, [x]);
  }

  lemma ReverseReverse<T>(s: seq<T>)
    ensures Reverse(Reverse(s)) == s
  {
    ReverseAt(s);
    ReverseAt(Reverse(s));
  }

  /** Reversing a list built by prepending the elements of `s` onto `init`. */
  lemma ReversePrepended<T>(s: seq<T>, init: seq<T>)
    ensures Reverse(Reverse(s) + init) == Reverse(init) + s
  {
    ReverseAppend(Reverse(s), init);
    ReverseReverse(s);
  }

}
