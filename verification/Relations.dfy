/** Sequence and relation vocabulary for stating what a loader computes: selection,
    last occurrence, first appearance. */
module Relations {

  lemma TakeNext<T>(s: seq<T>, i: nat)
    requires i < |s|
    ensures s[..i + 1] == s[..i] + [s[i]]
  {
  }

  lemma TakeAll<T>(s: seq<T>)
    ensures s[..|s|] == s
  {
  }

  function Select<T>(p: T -> bool, s: seq<T>): seq<T>
  {
    if s == [] then []
    else Select(p, s[..|s| - 1]) + if p(s[|s| - 1]) then [s[|s| - 1]] else []
  }

  lemma {:induction false} SelectAppend<T>(p: T -> bool, s: seq<T>, x: T)
    ensures Select(p, s + [x]) == Select(p, s) + if p(x) then [x] else []
  {
    assert (s + [x])[..|s|] == s;
  }

  lemma {:induction false} SelectConcat<T>(p: T -> bool, s: seq<T>, t: seq<T>)
    ensures Select(p, s + t) == Select(p, s) + Select(p, t)
  {
    if t == [] {
      assert s + t == s;
    } else {
      var init, x := t[..|t| - 1], t[|t| - 1];
      assert s + t == (s + init) + [x];
      SelectAppend(p, s + init, x);
      SelectConcat(p, s, init);
    }
  }

  lemma {:induction false} SelectMembers<T>(p: T -> bool, s: seq<T>)
    ensures forall x :: x in Select(p, s) <==> x in s && p(x)
    ensures forall i | 0 <= i < |Select(p, s)| :: Select(p, s)[i] in s && p(Select(p, s)[i])
  {
    if s == [] {
    } else {
      var init := s[..|s| - 1];
      SelectMembers(p, init);
      assert s == init + [s[|s| - 1]];
    }
  }

  lemma {:induction false} SelectCong<T>(p: T -> bool, q: T -> bool, s: seq<T>)
    requires forall x | x in s :: p(x) == q(x)
    ensures Select(p, s) == Select(q, s)
  {
    if s == [] {
    } else {
      SelectCong(p, q, s[..|s| - 1]);
    }
  }

  lemma {:induction false} SelectNone<T>(p: T -> bool, s: seq<T>)
    requires forall x | x in s :: !p(x)
    ensures Select(p, s) == []
  {
    if s == [] {
    } else {
      SelectNone(p, s[..|s| - 1]);
    }
  }

  // Selection keeps the order and the multiplicity of what it keeps.
  lemma {:induction false} SelectCount<T>(p: T -> bool, s: seq<T>, x: T)
    ensures multiset(Select(p, s))[x] == if p(x) then multiset(s)[x] else 0
  {
    if s == [] {
    } else {
      var init, y := s[..|s| - 1], s[|s| - 1];
      assert s == init + [y];
      SelectCount(p, init, x);
    }
  }

  ghost predicate Distinct<T>(s: seq<T>)
  {
    forall i, j | 0 <= i < j < |s| :: s[i] != s[j]
  }

  lemma {:induction false} SelectDistinct<T>(p: T -> bool, s: seq<T>)
    requires Distinct(s)
    ensures Distinct(Select(p, s))
  {
    if s == [] {
    } else {
      var init, x := s[..|s| - 1], s[|s| - 1];
      SelectDistinct(p, init);
      SelectMembers(p, init);
      assert x !in Select(p, init);
    }
  }

  // A relation between earlier and later elements survives selection.
  lemma {:induction false} SelectPairwise<T>(p: T -> bool, s: seq<T>, rel: (T, T) -> bool)
    requires forall i, j | 0 <= i < j < |s| :: rel(s[i], s[j])
    ensures forall i, j | 0 <= i < j < |Select(p, s)| :: rel(Select(p, s)[i], Select(p, s)[j])
  {
    if s == [] {
    } else {
      var init, last := s[..|s| - 1], s[|s| - 1];
      SelectPairwise(p, init, rel);
      SelectMembers(p, init);
      forall i, j | 0 <= i < j < |Select(p, s)| ensures rel(Select(p, s)[i], Select(p, s)[j]) {
        var x := Select(p, init)[i];
        assert Select(p, s)[i] == x;
        if j < |Select(p, init)| {
          assert Select(p, s)[j] == Select(p, init)[j];
        } else {
          var k :| 0 <= k < |init| && init[k] == x;
          assert rel(s[k], s[|s| - 1]);
        }
      }
    }
  }

  // The last position holding x, or -1: what a map filled in order ends up with.
  function LastIndex<T(==)>(s: seq<T>, x: T): (k: int)
    ensures -1 <= k < |s|
    ensures k >= 0 ==> s[k] == x
    ensures forall j | k < j < |s| :: s[j] != x
  {
    if s == [] then -1
    else if s[|s| - 1] == x then |s| - 1
    else LastIndex(s[..|s| - 1], x)
  }

  lemma LastIndexAppend<T>(s: seq<T>, y: T, x: T)
    ensures LastIndex(s + [y], x) == if x == y then |s| else LastIndex(s, x)
  {
    assert (s + [y])[..|s|] == s;
  }

  lemma LastIndexOfDistinct<T>(s: seq<T>, i: nat)
    requires i < |s|
    requires Distinct(s)
    ensures LastIndex(s, s[i]) == i
  {
  }

  // The distinct values of s in the order of their first appearance.
  function Dedup<T(==)>(s: seq<T>): seq<T>
  {
    if s == [] then []
    else
      var init, x := s[..|s| - 1], s[|s| - 1];
      if x in init then Dedup(init) else Dedup(init) + [x]
  }

  lemma {:induction false} DedupMembers<T(!new)>(s: seq<T>)
    ensures forall x :: x in Dedup(s) <==> x in s
  {
    if s == [] {
    } else {
      DedupMembers(s[..|s| - 1]);
      assert s == s[..|s| - 1] + [s[|s| - 1]];
    }
  }

  lemma {:induction false} DedupDistinct<T(!new)>(s: seq<T>)
    ensures Distinct(Dedup(s))
  {
    if s == [] {
    } else {
      DedupDistinct(s[..|s| - 1]);
      DedupMembers(s[..|s| - 1]);
    }
  }

  /** The distinct elements come in the order of their first appearance. */
  lemma {:induction false} DedupInOrder<T(!new)>(s: seq<T>, i: nat, j: nat) returns (p: nat)
    requires i < j < |Dedup(s)|
    ensures p < |s| && s[p] == Dedup(s)[i] && forall q | 0 <= q <= p :: s[q] != Dedup(s)[j]
  {
    var n := |s| - 1;
    var init := Dedup(s[..n]);
    if j < |init| {
      p := DedupInOrder(s[..n], i, j);
    } else {
      DedupMembers(s[..n]);
      assert init[i] in init;
      p :| 0 <= p < n && s[..n][p] == init[i];
      assert forall q | 0 <= q <= p :: s[q] in s[..n];
    }
  }

  lemma DedupAppend<T(!new)>(s: seq<T>, x: T)
    ensures Dedup(s + [x]) == if x in s then Dedup(s) else Dedup(s) + [x]
  {
    assert (s + [x])[..|s|] == s;
  }

  // Two duplicate-free lists of the same elements are permutations of each other.
  lemma {:induction false} DistinctCount<T(!new)>(s: seq<T>, x: T)
    requires Distinct(s)
    ensures multiset(s)[x] == if x in s then 1 else 0
  {
    if s == [] {
    } else {
      var init, y := s[..|s| - 1], s[|s| - 1];
      assert s == init + [y];
      assert forall i | 0 <= i < |init| :: s[i] != s[|s| - 1];
      DistinctCount(init, x);
    }
  }

  lemma DistinctSameElements<T(!new)>(s: seq<T>, t: seq<T>)
    requires Distinct(s) && Distinct(t)
    requires forall x :: x in s <==> x in t
    ensures multiset(s) == multiset(t)
  {
    forall x ensures multiset(s)[x] == multiset(t)[x] {
      DistinctCount(s, x);
      DistinctCount(t, x);
    }
  }

  ghost predicate DistinctBy<T, K>(s: seq<T>, key: T -> K)
  {
    forall i, j | 0 <= i < j < |s| :: key(s[i]) != key(s[j])
  }

  lemma SelectDistinctBy<T, K>(p: T -> bool, s: seq<T>, key: T -> K)
    requires DistinctBy(s, key)
    ensures DistinctBy(Select(p, s), key)
  {
    SelectPairwise(p, s, (x, y) => key(x) != key(y));
  }

  lemma CountOfTwo<T>(s: seq<T>, i: nat, j: nat)
    requires i < j < |s| && s[i] == s[j]
    ensures multiset(s)[s[i]] >= 2
  {
    assert s == s[..j] + s[j..];
    assert s[i] in s[..j] && s[j] in s[j..];
  }

  lemma {:induction false} DistinctByCount<T(!new), K>(s: seq<T>, key: T -> K, x: T)
    requires DistinctBy(s, key)
    ensures multiset(s)[x] <= 1
  {
    forall i, j | 0 <= i < j < |s| ensures s[i] != s[j] {
      assert key(s[i]) != key(s[j]);
    }
    DistinctCount(s, x);
  }

  /** Having pairwise distinct keys does not depend on the order. */
  lemma DistinctByPermutation<T(!new), K>(s: seq<T>, t: seq<T>, key: T -> K)
    requires DistinctBy(s, key) && multiset(s) == multiset(t)
    ensures DistinctBy(t, key)
  {
    forall i, j | 0 <= i < j < |t| ensures key(t[i]) != key(t[j]) {
      assert t[i] in multiset(t) && t[j] in multiset(t);
      if t[i] == t[j] {
        CountOfTwo(t, i, j);
        DistinctByCount(s, key, t[i]);
      } else {
        var a :| 0 <= a < |s| && s[a] == t[i];
        var b :| 0 <= b < |s| && s[b] == t[j];
        assert key(s[a]) != key(s[b]);
      }
    }
  }

  // The elements that are the first of their key, in order.
  function FirstBy<T, K(==)>(s: seq<T>, key: T -> K): seq<T>
  {
    if s == [] then []
    else
      var init, x := s[..|s| - 1], s[|s| - 1];
      if KeyIn(init, key, key(x)) then FirstBy(init, key) else FirstBy(init, key) + [x]
  }

  predicate KeyIn<T, K(==)>(s: seq<T>, key: T -> K, k: K)
  {
    exists i | 0 <= i < |s| :: key(s[i]) == k
  }

  lemma FirstByAppend<T, K>(s: seq<T>, key: T -> K, x: T)
    ensures FirstBy(s + [x], key) == if KeyIn(s, key, key(x)) then FirstBy(s, key) else FirstBy(s, key) + [x]
  {
    assert (s + [x])[..|s|] == s;
  }

  lemma KeyInAppend<T, K>(s: seq<T>, key: T -> K, x: T, k: K)
    ensures KeyIn(s + [x], key, k) <==> KeyIn(s, key, k) || key(x) == k
  {
    assert (s + [x])[|s|] == x;
    if KeyIn(s, key, k) {
      var i :| 0 <= i < |s| && key(s[i]) == k;
      assert (s + [x])[i] == s[i];
    }
  }

  // s[i] is the first element of its key.
  ghost predicate FirstAt<T, K>(s: seq<T>, key: T -> K, i: int)
  {
    0 <= i < |s| && forall j | 0 <= j < i :: key(s[j]) != key(s[i])
  }

  /** FirstBy lists exactly the first element of each key, and no key twice. */
  lemma {:induction false} FirstByFacts<T, K(!new)>(s: seq<T>, key: T -> K)
    ensures DistinctBy(FirstBy(s, key), key)
    ensures forall k :: KeyIn(FirstBy(s, key), key, k) <==> KeyIn(s, key, k)
    ensures forall m | 0 <= m < |FirstBy(s, key)| :: exists i :: FirstAt(s, key, i) && s[i] == FirstBy(s, key)[m]
    ensures forall i | FirstAt(s, key, i) :: s[i] in FirstBy(s, key)
  {
    if s == [] {
    } else {
      var init, x := s[..|s| - 1], s[|s| - 1];
      assert s == init + [x];
      FirstByFacts(init, key);
      forall k ensures KeyIn(FirstBy(s, key), key, k) <==> KeyIn(s, key, k) {
        KeyInAppend(init, key, x, k);
        KeyInAppend(FirstBy(init, key), key, x, k);
      }
      forall m | 0 <= m < |FirstBy(s, key)| ensures exists i :: FirstAt(s, key, i) && s[i] == FirstBy(s, key)[m] {
        if m < |FirstBy(init, key)| {
          var i :| FirstAt(init, key, i) && init[i] == FirstBy(init, key)[m];
          assert FirstAt(s, key, i) && s[i] == FirstBy(s, key)[m];
        } else {
          assert FirstAt(s, key, |s| - 1) && s[|s| - 1] == FirstBy(s, key)[m];
        }
      }
      forall i | FirstAt(s, key, i) ensures s[i] in FirstBy(s, key) {
        if i < |init| {
          assert FirstAt(init, key, i);
          assert init[i] in FirstBy(init, key);
        }
      }
      assert DistinctBy(FirstBy(s, key), key) by {
        if !KeyIn(init, key, key(x)) {
          assert !KeyIn(FirstBy(init, key), key, key(x));
        }
      }
    }
  }

  lemma DistinctByAppend<T, K>(s: seq<T>, key: T -> K, x: T)
    ensures DistinctBy(s + [x], key) <==> DistinctBy(s, key) && !KeyIn(s, key, key(x))
  {
    var t := s + [x];
    assert t[|s|] == x && forall i | 0 <= i < |s| :: t[i] == s[i];
    if DistinctBy(t, key) {
      forall i, j | 0 <= i < j < |s| ensures key(s[i]) != key(s[j]) {
        assert key(t[i]) != key(t[j]);
      }
      forall i | 0 <= i < |s| ensures key(s[i]) != key(x) {
        assert key(t[i]) != key(t[|s|]);
      }
    }
  }

  function Mapped<T, U>(f: T -> U, s: seq<T>): (r: seq<U>)
    ensures |r| == |s| && forall i | 0 <= i < |s| :: r[i] == f(s[i])
  {
    seq(|s|, i requires 0 <= i < |s| => f(s[i]))
  }

  // The sequence without the element at j.
  function Without<T>(s: seq<T>, j: nat): (r: seq<T>)
    requires j < |s|
    ensures |r| == |s| - 1
  {
    s[..j] + s[j + 1..]
  }

  ghost predicate Permutes<T>(s: seq<T>, t: seq<T>)
  {
    multiset(s) == multiset(t)
  }

  lemma WithoutCounts<T>(s: seq<T>, j: nat)
    requires j < |s|
    ensures multiset(s) == multiset(Without(s, j)) + multiset{s[j]}
  {
    assert s == s[..j] + [s[j]] + s[j + 1..];
  }

  // Two sequences permute each other exactly when they do without an element they share.
  lemma PermutesWithout<T>(s: seq<T>, t: seq<T>, i: nat, j: nat)
    requires i < |s| && j < |t| && s[i] == t[j]
    ensures Permutes(s, t) <==> Permutes(Without(s, i), Without(t, j))
  {
    WithoutCounts(s, i);
    WithoutCounts(t, j);
    assert multiset(Without(s, i)) == multiset(s) - multiset{s[i]};
    assert multiset(Without(t, j)) == multiset(t) - multiset{s[i]};
  }

  lemma PermutesFind<T>(s: seq<T>, t: seq<T>, i: nat) returns (j: nat)
    requires i < |s| && Permutes(s, t)
    ensures j < |t| && t[j] == s[i]
  {
    assert s[i] in multiset(s);
    assert s[i] in t;
    j :| 0 <= j < |t| && t[j] == s[i];
  }

  lemma PermutesEmpty<T>(t: seq<T>)
    requires Permutes([], t)
    ensures t == []
  {
    assert |multiset(t)| == |t|;
  }

  lemma WithoutMapped<T, U>(f: T -> U, s: seq<T>, j: nat)
    requires j < |s|
    ensures Mapped(f, Without(s, j)) == Without(Mapped(f, s), j)
  {
  }

  // Mapping keeps permutations.
  lemma {:induction false} MappedPermutes<T, U>(f: T -> U, s: seq<T>, t: seq<T>)
    requires Permutes(s, t)
    ensures Permutes(Mapped(f, s), Mapped(f, t))
  {
    if s == [] {
      PermutesEmpty(t);
    } else {
      var n := |s| - 1;
      var j := PermutesFind(s, t, n);
      PermutesWithout(s, t, n, j);
      MappedPermutes(f, Without(s, n), Without(t, j));
      WithoutMapped(f, s, n);
      WithoutMapped(f, t, j);
      PermutesWithout(Mapped(f, s), Mapped(f, t), n, j);
    }
  }

  // Every permutation of the images is the image of a permutation.
  lemma {:induction false} LiftPermutation<T, U>(f: T -> U, s: seq<T>, images: seq<U>) returns (t: seq<T>)
    requires Permutes(images, Mapped(f, s))
    ensures Permutes(t, s) && Mapped(f, t) == images
    decreases |images|
  {
    if images == [] {
      PermutesEmpty(Mapped(f, s));
      t := [];
    } else {
      var n := |images| - 1;
      var j := PermutesFind(images, Mapped(f, s), n);
      PermutesWithout(images, Mapped(f, s), n, j);
      WithoutMapped(f, s, j);
      var rest := LiftPermutation(f, Without(s, j), Without(images, n));
      t := rest + [s[j]];
      assert Without(t, n) == rest;
      PermutesWithout(t, s, n, j);
    }
  }
}
