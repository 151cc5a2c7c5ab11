/** Sorting by a comparison, as the standard library does it, and the order of strings. */
module Ordering {

  ghost predicate Total<T(!new)>(le: (T, T) -> bool) {
    forall a, b :: le(a, b) || le(b, a)
  }

  ghost predicate Transitive<T(!new)>(le: (T, T) -> bool) {
    forall a, b, c :: le(a, b) && le(b, c) ==> le(a, c)
  }

  ghost predicate SortedBy<T(!new)>(xs: seq<T>, le: (T, T) -> bool) {
    forall i, j :: 0 <= i < j < |xs| ==> le(xs[i], xs[j])
  }

  function Insert<T>(x: T, xs: seq<T>, le: (T, T) -> bool): (r: seq<T>)
    ensures multiset(r) == multiset([x]) + multiset(xs)
  {
    if xs == [] then [x]
    else if le(x, xs[0]) then [x] + xs
    else
      assert xs == [xs[0]] + xs[1..];
      [xs[0]] + Insert(x, xs[1..], le)
  }

  function Sort<T>(xs: seq<T>, le: (T, T) -> bool): (r: seq<T>)
    ensures multiset(r) == multiset(xs)
  {
    if xs == [] then []
    else
      assert xs == [xs[0]] + xs[1..];
      Insert(xs[0], Sort(xs[1..], le), le)
  }

  lemma {:induction false} SameElements<T>(a: seq<T>, b: seq<T>)
    requires multiset(a) == multiset(b)
    ensures |a| == |b|
    ensures forall x :: x in a <==> x in b
  {
    assert |multiset(a)| == |multiset(b)|;
    forall x ensures x in a <==> x in b {
      assert x in a <==> x in multiset(a);
      assert x in b <==> x in multiset(b);
    }
  }

  lemma {:induction false} InsertSorts<T(!new)>(x: T, xs: seq<T>, le: (T, T) -> bool)
    requires Total(le) && Transitive(le) && SortedBy(xs, le)
    ensures SortedBy(Insert(x, xs, le), le)
  {
    if xs != [] {
      if le(x, xs[0]) {
        forall j | 0 <= j < |xs| ensures le(x, xs[j]) {
          if j > 0 { assert le(xs[0], xs[j]); }
        }
      } else {
        var rest := Insert(x, xs[1..], le);
        InsertSorts(x, xs[1..], le);
        assert multiset(rest) == multiset([x] + xs[1..]);
        SameElements(rest, [x] + xs[1..]);
        forall j | 0 <= j < |rest| ensures le(xs[0], rest[j]) {
          assert rest[j] in [x] + xs[1..];
        }
      }
    }
  }

  lemma {:induction false} SortSorts<T(!new)>(xs: seq<T>, le: (T, T) -> bool)
    requires Total(le) && Transitive(le)
    ensures SortedBy(Sort(xs, le), le)
  {
    if xs != [] {
      SortSorts(xs[1..], le);
      InsertSorts(xs[0], Sort(xs[1..], le), le);
    }
  }

  /** Two sorted lists of the same elements are equal when the order separates every two of them. */
  lemma {:induction false} SortedIsUnique<T(!new)>(a: seq<T>, b: seq<T>, le: (T, T) -> bool)
    requires multiset(a) == multiset(b) && SortedBy(a, le) && SortedBy(b, le)
    requires forall x, y :: x in a && y in a && le(x, y) && le(y, x) ==> x == y
    ensures a == b
    decreases |a|
  {
    SameElements(a, b);
    if a != [] {
      HeadsAgree(a, b, le);
      TailElements(a);
      TailElements(b);
      SortedIsUnique(a[1..], b[1..], le);
      assert a == [a[0]] + a[1..] && b == [b[0]] + b[1..];
    }
  }

  lemma {:induction false} HeadsAgree<T(!new)>(a: seq<T>, b: seq<T>, le: (T, T) -> bool)
    requires a != [] && b != [] && a[0] in b && b[0] in a
    requires SortedBy(a, le) && SortedBy(b, le)
    requires forall x, y :: x in a && y in a && le(x, y) && le(y, x) ==> x == y
    ensures a[0] == b[0]
  {
    HeadIsLeast(b, a[0], le);
    HeadIsLeast(a, b[0], le);
    assert a[0] in a;
  }

  lemma {:induction false} HeadIsLeast<T(!new)>(a: seq<T>, x: T, le: (T, T) -> bool)
    requires SortedBy(a, le) && x in a
    ensures x == a[0] || le(a[0], x)
  {
  }

  lemma {:induction false} TailElements<T>(a: seq<T>)
    requires a != []
    ensures multiset(a[1..]) == multiset(a) - multiset([a[0]])
    ensures forall x :: x in a[1..] ==> x in a
  {
    assert a == [a[0]] + a[1..];
  }

  // ----- Places -----

  predicate NoRepeats<T(==)>(xs: seq<T>) {
    forall a, b :: 0 <= a < b < |xs| ==> xs[a] != xs[b]
  }

  /** Where the places of a list without its i-th element are in the whole list. */
  function Around(places: seq<nat>, i: nat): (r: seq<nat>)
    ensures |r| == |places|
    ensures forall k :: 0 <= k < |r| ==> r[k] == if places[k] < i then places[k] else places[k] + 1
  {
    seq(|places|, k requires 0 <= k < |places| => if places[k] < i then places[k] else places[k] + 1)
  }

  lemma {:induction false} AroundHas(places: seq<nat>, i: nat, n: nat, m: nat)
    requires i <= n && m <= n && forall k: nat :: k < n ==> k in places
    ensures m == i || m in Around(places, i)
  {
    if m != i {
      var was: nat := if m < i then m else m - 1;
      assert was in places;
      var k :| 0 <= k < |places| && places[k] == was;
      assert Around(places, i)[k] == m;
    }
  }

  /** Every element of ys has its own place in xs, and every place of xs is taken. */
  ghost predicate Permutes<T>(xs: seq<T>, places: seq<nat>, ys: seq<T>) {
    && |places| == |xs| == |ys| && NoRepeats(places)
    && (forall k :: 0 <= k < |ys| ==> places[k] < |xs| && ys[k] == xs[places[k]])
    && (forall m: nat :: m < |xs| ==> m in places)
  }

  lemma {:induction false} PermutesMore<T>(xs: seq<T>, i: nat, rest: seq<T>, more: seq<nat>, ys: seq<T>)
    requires i < |xs| && rest == xs[..i] + xs[i + 1..] && Permutes(rest, more, ys)
    ensures Permutes(xs, [i] + Around(more, i), [xs[i]] + ys)
  {
    var moved := Around(more, i);
    var places, all := [i] + moved, [xs[i]] + ys;
    forall k | 0 <= k < |all| ensures places[k] < |xs| && all[k] == xs[places[k]] {
      if k > 0 { assert all[k] == rest[more[k - 1]] && places[k] == moved[k - 1]; }
    }
    forall m: nat | m < |xs| ensures m in places {
      AroundHas(more, i, |rest|, m);
      if m == i { assert places[0] == m; }
    }
  }

  /** Two lists of the same elements are permutations of each other. */
  lemma {:induction false} PlacesOf<T>(xs: seq<T>, ys: seq<T>) returns (places: seq<nat>)
    requires multiset(xs) == multiset(ys)
    ensures Permutes(xs, places, ys)
  {
    SameElements(xs, ys);
    if ys == [] {
      places := [];
    } else {
      assert ys[0] in ys && ys[0] in xs;
      var i :| 0 <= i < |xs| && xs[i] == ys[0];
      var rest := xs[..i] + xs[i + 1..];
      assert xs == xs[..i] + [xs[i]] + xs[i + 1..];
      TailElements(ys);
      var more := PlacesOf(rest, ys[1..]);
      PermutesMore(xs, i, rest, more, ys[1..]);
      places := [i] + Around(more, i);
      assert ys == [xs[i]] + ys[1..];
    }
  }

  // ----- Strings -----

  /** The order of strings: character by character, a prefix first. */
  predicate Before(a: string, b: string) {
    if b == "" then false
    else if a == "" then true
    else if a[0] != b[0] then a[0] < b[0]
    else Before(a[1..], b[1..])
  }

  lemma {:induction false} BeforeSeparates(a: string, b: string)
    ensures Before(a, b) || Before(b, a) || a == b
    ensures !(Before(a, b) && Before(b, a))
  {
    if a != "" && b != "" && a[0] == b[0] {
      BeforeSeparates(a[1..], b[1..]);
      assert a == [a[0]] + a[1..] && b == [b[0]] + b[1..];
    }
  }

  /** The first difference decides, and of two equal beginnings the shorter one comes first. */
  lemma {:induction false} BeforeIs(a: string, b: string)
    ensures Before(a, b) <==> a < b || exists k :: 0 <= k < |a| && k < |b| && a[..k] == b[..k] && a[k] < b[k]
  {
    if a != "" && b != "" {
      if a[0] == b[0] {
        BeforeIs(a[1..], b[1..]);
        SameHead(a, b);
      } else if a[0] < b[0] {
        assert a[..0] == b[..0];
      } else {
        assert forall k :: 0 < k <= |a| && k <= |b| ==> a[..k][0] != b[..k][0];
      }
    }
  }

  lemma {:induction false} SameHead(a: string, b: string)
    requires a != "" && b != "" && a[0] == b[0]
    ensures a < b <==> a[1..] < b[1..]
    ensures (exists k :: 0 <= k < |a| && k < |b| && a[..k] == b[..k] && a[k] < b[k]) <==>
            exists k :: 0 <= k < |a[1..]| && k < |b[1..]| && a[1..][..k] == b[1..][..k] && a[1..][k] < b[1..][k]
  {
    assert a == [a[0]] + a[1..] && b == [b[0]] + b[1..];
    if k :| 0 <= k < |a| && k < |b| && a[..k] == b[..k] && a[k] < b[k] {
      assert a[1..][..k - 1] == a[..k][1..] && b[1..][..k - 1] == b[..k][1..];
      assert a[1..][k - 1] < b[1..][k - 1];
    }
    if k :| 0 <= k < |a[1..]| && k < |b[1..]| && a[1..][..k] == b[1..][..k] && a[1..][k] < b[1..][k] {
      assert a[..k + 1] == [a[0]] + a[1..][..k] && b[..k + 1] == [b[0]] + b[1..][..k];
      assert a[k + 1] < b[k + 1];
    }
  }

  lemma {:induction false} BeforeChains(a: string, b: string, c: string)
    requires Before(a, b) && Before(b, c)
    ensures Before(a, c)
  {
    if a != "" && a[0] == b[0] && b[0] == c[0] {
      BeforeChains(a[1..], b[1..], c[1..]);
    }
  }
}
