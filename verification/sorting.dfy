/** `array.sort((a, b) => key(b) - key(a))` as JavaScript engines run it:
    a stable sort into non-increasing key order (ECMAScript requires
    `Array.prototype.sort` to be stable). Used by the text report
    (src/generate-report-file.js:50, 59-61, 69). */
module Sorting {

  /** Non-increasing by `key`. */
  ghost predicate SortedDesc<T>(s: seq<T>, key: T -> int) {
    forall i, j :: 0 <= i < j < |s| ==> key(s[i]) >= key(s[j])
  }

  /** The elements of `s` whose key is `v`, in their order in `s`. */
  function WithKey<T>(s: seq<T>, key: T -> int, v: int): seq<T>
    decreases |s|
  {
    if s == [] then []
    else WithKey(s[..|s| - 1], key, v) + (if key(s[|s| - 1]) == v then [s[|s| - 1]] else [])
  }

  /** Places `x` after every element whose key is at least its own. */
  function Insert<T>(s: seq<T>, x: T, key: T -> int): seq<T>
    decreases |s|
  {
    if s == [] then [x]
    else if key(s[0]) >= key(x) then [s[0]] + Insert(s[1..], x, key)
    else [x] + s
  }

  /** Insertion sort, taking the elements in their original order. */
  function SortDesc<T>(s: seq<T>, key: T -> int): seq<T>
    decreases |s|
  {
    if s == [] then [] else Insert(SortDesc(s[..|s| - 1], key), s[|s| - 1], key)
  }

  lemma {:induction false} InsertPermutes<T>(s: seq<T>, x: T, key: T -> int)
    ensures multiset(Insert(s, x, key)) == multiset(s) + multiset{x}
    decreases |s|
  {
    if s != [] && key(s[0]) >= key(x) {
      InsertPermutes(s[1..], x, key);
      assert [s[0]] + s[1..] == s;
      assert multiset(s) == multiset{s[0]} + multiset(s[1..]);
    }
  }

  lemma {:induction false} InsertSorted<T>(s: seq<T>, x: T, key: T -> int)
    requires SortedDesc(s, key)
    ensures SortedDesc(Insert(s, x, key), key)
    decreases |s|
  {
    if s != [] && key(s[0]) >= key(x) {
      var tail := s[1..];
      assert SortedDesc(tail, key) by {
        forall i, j | 0 <= i < j < |tail| ensures key(tail[i]) >= key(tail[j]) {
          assert tail[i] == s[i + 1] && tail[j] == s[j + 1];
        }
      }
      InsertSorted(tail, x, key);
      InsertPermutes(tail, x, key);
      var r := Insert(tail, x, key);
      forall k | 0 <= k < |r| ensures key(s[0]) >= key(r[k]) {
        assert r[k] in multiset(r);
        if r[k] != x {
          assert r[k] in multiset(tail);
          var j :| 0 <= j < |tail| && tail[j] == r[k];
          assert s[j + 1] == r[k];
        }
      }
      var out := [s[0]] + r;
      forall i, j | 0 <= i < j < |out| ensures key(out[i]) >= key(out[j]) {
        if i > 0 {
          assert out[i] == r[i - 1] && out[j] == r[j - 1];
        } else {
          assert out[j] == r[j - 1];
        }
      }
    } else if s != [] {
      var out := [x] + s;
      forall i, j | 0 <= i < j < |out| ensures key(out[i]) >= key(out[j]) {
        if i > 0 {
          assert out[i] == s[i - 1] && out[j] == s[j - 1];
        } else {
          assert out[j] == s[j - 1];
          assert key(s[0]) >= key(s[j - 1]) || j - 1 == 0;
        }
      }
    }
  }

  /** Filtering by one key value commutes with appending. */
  lemma {:induction false} WithKeyAppend<T>(a: seq<T>, b: seq<T>, key: T -> int, v: int)
    ensures WithKey(a + b, key, v) == WithKey(a, key, v) + WithKey(b, key, v)
    decreases |b|
  {
    if b == [] {
      assert a + b == a;
    } else {
      assert (a + b)[..|a + b| - 1] == a + b[..|b| - 1];
      WithKeyAppend(a, b[..|b| - 1], key, v);
    }
  }

  lemma WithKeySingle<T>(x: T, key: T -> int, v: int)
    ensures WithKey([x], key, v) == (if key(x) == v then [x] else [])
  {
    assert [x][..0] == [];
  }

  lemma TailSorted<T>(s: seq<T>, key: T -> int)
    requires s != [] && SortedDesc(s, key)
    ensures SortedDesc(s[1..], key)
    ensures forall k :: 0 <= k < |s| ==> key(s[0]) >= key(s[k])
  {
    var tail := s[1..];
    forall i, j | 0 <= i < j < |tail| ensures key(tail[i]) >= key(tail[j]) {
      assert tail[i] == s[i + 1] && tail[j] == s[j + 1];
    }
  }

  lemma {:induction false} WithKeyNone<T>(s: seq<T>, key: T -> int, v: int)
    requires forall k :: 0 <= k < |s| ==> key(s[k]) != v
    ensures WithKey(s, key, v) == []
    decreases |s|
  {
    if s != [] {
      WithKeyNone(s[..|s| - 1], key, v);
    }
  }

  /** Inserting `x` keeps the order of the elements sharing any key, and puts
      `x` after those sharing its own. */
  lemma {:induction false} InsertStable<T>(s: seq<T>, x: T, key: T -> int, v: int)
    requires SortedDesc(s, key)
    ensures WithKey(Insert(s, x, key), key, v) == WithKey(s, key, v) + WithKey([x], key, v)
    decreases |s|
  {
    if s == [] {
      assert Insert(s, x, key) == [x];
    } else {
      TailSorted(s, key);
      if key(s[0]) >= key(x) {
        InsertStable(s[1..], x, key, v);
        assert Insert(s, x, key) == [s[0]] + Insert(s[1..], x, key);
        WithKeyAppend([s[0]], Insert(s[1..], x, key), key, v);
        WithKeyAppend([s[0]], s[1..], key, v);
        assert [s[0]] + s[1..] == s;
      } else {
        assert Insert(s, x, key) == [x] + s;
        WithKeyAppend([x], s, key, v);
        WithKeySingle(x, key, v);
        if key(x) == v {
          WithKeyNone(s, key, v);
        }
      }
    }
  }

  /** The sort yields a non-increasing permutation of its input. */
  lemma {:induction false} SortDescCorrect<T>(s: seq<T>, key: T -> int)
    ensures SortedDesc(SortDesc(s, key), key)
    ensures multiset(SortDesc(s, key)) == multiset(s)
    ensures |SortDesc(s, key)| == |s|
    decreases |s|
  {
    if s != [] {
      SortDescCorrect(s[..|s| - 1], key);
      InsertSorted(SortDesc(s[..|s| - 1], key), s[|s| - 1], key);
      InsertPermutes(SortDesc(s[..|s| - 1], key), s[|s| - 1], key);
      assert s == s[..|s| - 1] + [s[|s| - 1]];
      assert multiset(s) == multiset(s[..|s| - 1]) + multiset{s[|s| - 1]};
      assert |SortDesc(s, key)| == |multiset(SortDesc(s, key))|;
    }
  }

  /** Stability: elements with equal keys keep their original relative order. */
  lemma {:induction false} SortDescStable<T>(s: seq<T>, key: T -> int, v: int)
    ensures WithKey(SortDesc(s, key), key, v) == WithKey(s, key, v)
    decreases |s|
  {
    if s != [] {
      var init := s[..|s| - 1];
      SortDescStable(init, key, v);
      SortDescCorrect(init, key);
      InsertStable(SortDesc(init, key), s[|s| - 1], key, v);
      WithKeySingle(s[|s| - 1], key, v);
    }
  }
}
