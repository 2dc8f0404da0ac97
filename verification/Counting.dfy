/** How many elements of a sequence have a property. */
module Counting {

  function CountIf<T>(s: seq<T>, f: T -> bool): (n: nat) {
    if s == [] then 0 else CountIf(s[1..], f) + if f(s[0]) then 1 else 0
  }

  lemma {:induction false} CountAfterAppend<T>(s: seq<T>, x: T, f: T -> bool)
    ensures CountIf(s + [x], f) == CountIf(s, f) + if f(x) then 1 else 0
  {
    if s == [] {
      assert s + [x] == [x];
    } else {
      CountAfterAppend(s[1..], x, f);
      assert (s + [x])[1..] == s[1..] + [x];
    }
  }

  lemma {:induction false} CountAfterUpdate<T>(s: seq<T>, i: nat, x: T, f: T -> bool)
    requires i < |s|
    ensures CountIf(s[i := x], f) == CountIf(s, f) + (if f(x) then 1 else 0) - (if f(s[i]) then 1 else 0)
  {
    if i == 0 {
      assert s[0 := x][1..] == s[1..];
    } else {
      CountAfterUpdate(s[1..], i - 1, x, f);
      assert s[i := x][1..] == s[1..][i - 1 := x];
    }
  }

  lemma {:induction false} NoneCounted<T>(s: seq<T>, f: T -> bool)
    requires forall x :: x in s ==> !f(x)
    ensures CountIf(s, f) == 0
  {
    if s != [] {
      NoneCounted(s[1..], f);
    }
  }

  lemma {:induction false} CountAfterConcat<T>(a: seq<T>, b: seq<T>, f: T -> bool)
    ensures CountIf(a + b, f) == CountIf(a, f) + CountIf(b, f)
  {
    if a == [] {
      assert a + b == b;
    } else {
      CountAfterConcat(a[1..], b, f);
      assert (a + b)[1..] == a[1..] + b;
    }
  }

  lemma {:induction false} AllCounted<T>(s: seq<T>, f: T -> bool)
    requires forall x :: x in s ==> f(x)
    ensures CountIf(s, f) == |s|
  {
    if s != [] {
      AllCounted(s[1..], f);
    }
  }

  lemma {:induction false} CountAtMostAll<T>(s: seq<T>, f: T -> bool)
    ensures CountIf(s, f) <= |s|
  {
    if s != [] {
      CountAtMostAll(s[1..], f);
    }
  }

  /** A sequence without the element at one index. */
  function Without<T>(s: seq<T>, i: nat): seq<T>
    requires i < |s|
  {
    s[..i] + s[i + 1..]
  }

  lemma WithoutIsRest<T>(s: seq<T>, i: nat)
    requires i < |s|
    ensures multiset(Without(s, i)) == multiset(s) - multiset{s[i]}
  {
    assert s == s[..i] + [s[i]] + s[i + 1..];
  }

  lemma {:induction false} CountWithout<T>(s: seq<T>, i: nat, f: T -> bool)
    requires i < |s|
    ensures CountIf(s, f) == CountIf(Without(s, i), f) + if f(s[i]) then 1 else 0
  {
    if i == 0 {
      assert Without(s, 0) == s[1..];
    } else {
      CountWithout(s[1..], i - 1, f);
      assert Without(s, i)[1..] == Without(s[1..], i - 1);
    }
  }

  /** The count does not depend on the order. */
  lemma {:induction false} SameCount<T>(a: seq<T>, b: seq<T>, f: T -> bool)
    requires multiset(a) == multiset(b)
    ensures CountIf(a, f) == CountIf(b, f)
  {
    assert |multiset(a)| == |a| && |multiset(b)| == |b|;
    if a != [] {
      assert a[0] in multiset(b);
      var j :| 0 <= j < |b| && b[j] == a[0];
      WithoutIsRest(a, 0);
      WithoutIsRest(b, j);
      CountWithout(a, 0, f);
      CountWithout(b, j, f);
      SameCount(Without(a, 0), Without(b, j), f);
    }
  }

  lemma {:induction false} OneIsCounted<T>(s: seq<T>, i: nat, f: T -> bool)
    requires i < |s| && f(s[i])
    ensures CountIf(s, f) > 0
  {
    if i > 0 {
      OneIsCounted(s[1..], i - 1, f);
    }
  }

  lemma {:induction false} OneFound<T>(s: seq<T>, f: T -> bool) returns (i: nat)
    requires CountIf(s, f) > 0
    ensures i < |s| && f(s[i])
  {
    if f(s[0]) {
      i := 0;
    } else {
      i := OneFound(s[1..], f);
      i := i + 1;
    }
  }

  lemma {:induction false} TwoCounted<T>(s: seq<T>, f: T -> bool) returns (i: nat, j: nat)
    requires CountIf(s, f) >= 2
    ensures i < j < |s| && f(s[i]) && f(s[j])
  {
    if f(s[0]) {
      i := 0;
      j := OneFound(s[1..], f);
      j := j + 1;
    } else {
      i, j := TwoCounted(s[1..], f);
      i, j := i + 1, j + 1;
    }
  }
}
