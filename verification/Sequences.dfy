/** Facts about concatenation that the solver needs to be told. */
module Sequences {

  lemma Associative<T>(a: seq<T>, b: seq<T>, c: seq<T>)
    ensures (a + b) + c == a + (b + c)
  {
  }

  lemma NothingBetween<T>(a: seq<T>, b: seq<T>)
    ensures a + [] + b == a + b && [] + a + b == a + b
  {
    assert a + [] == a && [] + a == a;
  }

  lemma Longer<T>(s: seq<T>, rest: seq<T>, i: nat)
    requires i <= |s|
    ensures (s + rest)[..i] == s[..i] && (s + rest)[i..] == s[i..] + rest
  {
  }

  lemma TakeBeyond<T>(s: seq<T>, rest: seq<T>, n: nat)
    requires n <= |rest|
    ensures (s + rest)[..|s| + n] == s + rest[..n]
  {
  }

  lemma SameFront<T>(a: seq<T>, b: seq<T>, c: seq<T>, d: seq<T>)
    requires |a| == |c|
    ensures a + b == c + d <==> a == c && b == d
  {
    if a + b == c + d {
      assert (a + b)[..|a|] == a && (c + d)[..|c|] == c && (a + b)[|a|..] == b && (c + d)[|c|..] == d;
    }
  }

  lemma SameCons<T>(a: T, b: seq<T>, c: T, d: seq<T>)
    ensures [a] + b == [c] + d <==> a == c && b == d
  {
    SameFront([a], b, [c], d);
    assert [a][0] == a && [c][0] == c;
  }

  /** Where both parts are at least as long as expected, the whole is as expected exactly when both are. */
  lemma SameParts<T>(a: seq<T>, b: seq<T>, c: seq<T>, d: seq<T>)
    requires |a| >= |c| && |b| >= |d|
    ensures a + b == c + d <==> a == c && b == d
  {
    if a + b == c + d {
      assert |a + b| == |c + d|;
      SameFront(a, b, c, d);
    }
  }

  lemma SamePartsAfter<T>(front: seq<T>, a: seq<T>, b: seq<T>, c: seq<T>, d: seq<T>)
    requires |a| >= |c| && |b| >= |d|
    ensures front + a + b == front + c + d <==> a == c && b == d
  {
    Associative(front, a, b);
    Associative(front, c, d);
    SameFront(front, a + b, front, c + d);
    SameParts(a, b, c, d);
  }

  lemma AssociativeInFour<T>(a: seq<T>, b: seq<T>, c: seq<T>, d: seq<T>)
    ensures ((a + b) + c) + d == a + (b + c + d)
  {
  }
}
