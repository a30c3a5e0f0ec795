/** Lexicographic key order and the stable sort by it, as `sortedmulti` needs (BIP 67). */
module Bip67 {
  import opened Psbts

  /** Byte-wise lexicographic order; a proper prefix comes first. */
  predicate LexLe(a: Pubkey, b: Pubkey) {
    a == [] || (b != [] && (a[0] < b[0] || (a[0] == b[0] && LexLe(a[1..], b[1..]))))
  }

  /** The keys agree before `i`, and there `a` ends or has the smaller byte. */
  predicate SmallerAt(a: Pubkey, b: Pubkey, i: nat) {
    i <= |a| && i <= |b| && a[..i] == b[..i] && (i == |a| || (i < |b| && a[i] < b[i]))
  }

  /** The order is that of the first byte in which two keys differ. */
  lemma {:induction false} LexLeIff(a: Pubkey, b: Pubkey)
    ensures LexLe(a, b) <==> exists i :: 0 <= i <= |a| && SmallerAt(a, b, i)
  {
    if a == [] {
      assert SmallerAt(a, b, 0);
    } else if b != [] {
      LexLeIff(a[1..], b[1..]);
      if i: nat :| i <= |a[1..]| && SmallerAt(a[1..], b[1..], i) && a[0] == b[0] {
        assert a[..i + 1] == [a[0]] + a[1..][..i] && b[..i + 1] == [b[0]] + b[1..][..i];
        assert SmallerAt(a, b, i + 1);
      }
      if a[0] < b[0] {
        assert SmallerAt(a, b, 0);
      }
      if i: nat :| 0 < i <= |a| && SmallerAt(a, b, i) {
        assert a[..i][0] == b[..i][0] && a[..i][1..] == a[1..][..i - 1] && b[..i][1..] == b[1..][..i - 1];
        assert SmallerAt(a[1..], b[1..], i - 1);
      }
    }
  }

  lemma {:induction false} LexTotal(a: Pubkey, b: Pubkey)
    ensures LexLe(a, b) || LexLe(b, a)
    ensures LexLe(a, b) && LexLe(b, a) ==> a == b
  {
    if a != [] && b != [] {
      LexTotal(a[1..], b[1..]);
      if a[0] == b[0] && a[1..] == b[1..] {
        assert a == [a[0]] + a[1..] == b;
      }
    }
  }

  lemma {:induction false} LexTrans(a: Pubkey, b: Pubkey, c: Pubkey)
    requires LexLe(a, b) && LexLe(b, c)
    ensures LexLe(a, c)
  {
    if a != [] && a[0] == b[0] && b[0] == c[0] { LexTrans(a[1..], b[1..], c[1..]); }
  }

  function Map<S, T>(f: S -> T, s: seq<S>): (r: seq<T>)
    ensures |r| == |s|
    ensures forall i :: 0 <= i < |s| ==> r[i] == f(s[i])
  {
    seq(|s|, i requires 0 <= i < |s| => f(s[i]))
  }

  /** Stable: `x` goes before the elements that are not smaller. */
  function Insert<T>(x: T, s: seq<T>, key: T -> Pubkey): seq<T> {
    if s == [] || LexLe(key(x), key(s[0])) then [x] + s else [s[0]] + Insert(x, s[1..], key)
  }

  function SortByKey<T>(s: seq<T>, key: T -> Pubkey): seq<T> {
    if s == [] then [] else Insert(s[0], SortByKey(s[1..], key), key)
  }

  ghost predicate Sorted<T>(s: seq<T>, key: T -> Pubkey) {
    forall i, j :: 0 <= i < j < |s| ==> LexLe(key(s[i]), key(s[j]))
  }

  lemma {:induction false} InsertSorts<T>(x: T, s: seq<T>, key: T -> Pubkey)
    requires Sorted(s, key)
    ensures Sorted(Insert(x, s, key), key)
    ensures multiset(Insert(x, s, key)) == multiset([x] + s)
  {
    if s == [] {
    } else if LexLe(key(x), key(s[0])) {
      forall j | 0 <= j < |s| ensures LexLe(key(x), key(s[j])) {
        if j > 0 { LexTrans(key(x), key(s[0]), key(s[j])); }
      }
    } else {
      LexTotal(key(x), key(s[0]));
      InsertSorts(x, s[1..], key);
      assert s == [s[0]] + s[1..];
      var r := Insert(x, s[1..], key);
      forall y | y in r ensures LexLe(key(s[0]), key(y)) {
        assert y in multiset(r);
        if y != x { var j :| 0 <= j < |s[1..]| && s[1..][j] == y; assert s[j + 1] == y; }
      }
    }
  }

  /** Sorting permutes its input into key order. */
  lemma {:induction false} SortSorts<T>(s: seq<T>, key: T -> Pubkey)
    ensures Sorted(SortByKey(s, key), key)
    ensures multiset(SortByKey(s, key)) == multiset(s)
  {
    if s != [] {
      SortSorts(s[1..], key);
      InsertSorts(s[0], SortByKey(s[1..], key), key);
      assert s == [s[0]] + s[1..];
    }
  }

  lemma HeadIsLeast<T>(s: seq<T>, x: T, key: T -> Pubkey)
    requires Sorted(s, key) && x in s
    ensures LexLe(key(s[0]), key(x))
  {
    var i :| 0 <= i < |s| && s[i] == x;
    if i == 0 { LexTotal(key(x), key(x)); }
  }

  lemma TailsMatch<T>(a: seq<T>, b: seq<T>)
    requires a != [] && b != [] && a[0] == b[0] && multiset(a) == multiset(b)
    ensures multiset(a[1..]) == multiset(b[1..])
  {
    assert a == [a[0]] + a[1..] && b == [b[0]] + b[1..];
    assert multiset(a[1..]) == multiset(a) - multiset{a[0]};
  }

  lemma HeadsMatch<T(!new)>(a: seq<T>, b: seq<T>, key: T -> Pubkey)
    requires multiset(a) == multiset(b) && Sorted(a, key) && Sorted(b, key) && a != [] && b != []
    requires forall x, y :: key(x) == key(y) ==> x == y
    ensures a[0] == b[0]
  {
    assert a[0] in multiset(b) && b[0] in multiset(a);
    HeadIsLeast(a, b[0], key);
    HeadIsLeast(b, a[0], key);
    LexTotal(key(a[0]), key(b[0]));
  }

  /** There is only one sorted arrangement of elements with distinct keys. */
  lemma {:induction false} SortedUnique<T(!new)>(a: seq<T>, b: seq<T>, key: T -> Pubkey)
    requires multiset(a) == multiset(b) && Sorted(a, key) && Sorted(b, key)
    requires forall x, y :: key(x) == key(y) ==> x == y
    ensures a == b
  {
    assert |a| == |multiset(a)| == |multiset(b)| == |b|;
    if a != [] {
      HeadsMatch(a, b, key);
      TailsMatch(a, b);
      SortedUnique(a[1..], b[1..], key);
      assert a == [a[0]] + a[1..] && b == [b[0]] + b[1..];
    }
  }

  lemma {:induction false} MapInsert<S, T>(f: S -> T, x: S, s: seq<S>, key: S -> Pubkey, key': T -> Pubkey)
    requires key'(f(x)) == key(x) && forall y :: y in s ==> key'(f(y)) == key(y)
    ensures Map(f, Insert(x, s, key)) == Insert(f(x), Map(f, s), key')
  {
    if s != [] {
      MapInsert(f, x, s[1..], key, key');
      assert Map(f, s)[1..] == Map(f, s[1..]);
    }
  }

  /** Sorting by a key the mapping keeps commutes with mapping: two sorts of the same rows
      line up entry by entry. */
  lemma {:induction false} MapSort<S, T>(f: S -> T, s: seq<S>, key: S -> Pubkey, key': T -> Pubkey)
    requires forall y :: y in s ==> key'(f(y)) == key(y)
    ensures Map(f, SortByKey(s, key)) == SortByKey(Map(f, s), key')
  {
    if s == [] {
      assert Map(f, s) == [];
    } else {
      MapSort(f, s[1..], key, key');
      SortSorts(s[1..], key);
      forall y | y in SortByKey(s[1..], key) ensures key'(f(y)) == key(y) {
        assert y in multiset(s[1..]);
      }
      MapInsert(f, s[0], SortByKey(s[1..], key), key, key');
      assert Map(f, s)[1..] == Map(f, s[1..]);
    }
  }
}
