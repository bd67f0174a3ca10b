/** The order the server sorts references by. A reference compares as the
    tuple of its fields: the name, user and channel by Python's string
    order, the version by the order of the Version class, which this model
    takes as a parameter `versionLess`, any strict total order on version
    strings. This model leaves the revision out of the order; `sorted` is
    stable, and no property here depends on how references with the same
    name, version, user and channel are arranged among themselves. */
module Ordering {
  import opened Common

  /** Python's `<` on strings: the first differing character decides, and a
      proper prefix comes first. */
  predicate StringLess(a: string, b: string)
    decreases |a|
  {
    if |a| == 0 then |b| > 0
    else if |b| == 0 then false
    else if a[0] != b[0] then a[0] < b[0]
    else StringLess(a[1..], b[1..])
  }

  lemma {:induction false} StringLessIrreflexive(a: string)
    ensures !StringLess(a, a)
    decreases |a|
  {
    if |a| > 0 {
      StringLessIrreflexive(a[1..]);
    }
  }

  lemma {:induction false} StringLessTransitive(a: string, b: string, c: string)
    requires StringLess(a, b) && StringLess(b, c)
    ensures StringLess(a, c)
    decreases |a|
  {
    if |a| > 0 && a[0] == b[0] && b[0] == c[0] {
      StringLessTransitive(a[1..], b[1..], c[1..]);
    }
  }

  /** Any two different strings are ordered one way or the other. */
  lemma {:induction false} StringLessTotal(a: string, b: string)
    requires a != b
    ensures StringLess(a, b) || StringLess(b, a)
    decreases |a|
  {
    if |a| > 0 && |b| > 0 && a[0] == b[0] {
      assert a == [a[0]] + a[1..] && b == [b[0]] + b[1..];
      StringLessTotal(a[1..], b[1..]);
    }
  }

  lemma {:induction false} StringLessAsymmetric(a: string, b: string)
    requires StringLess(a, b)
    ensures !StringLess(b, a)
    decreases |a|
  {
    if |a| > 0 && |b| > 0 && a[0] == b[0] {
      StringLessAsymmetric(a[1..], b[1..]);
    }
  }

  /** `less` is a strict total order: irreflexive, transitive, and any two
      different strings are ordered one way or the other. */
  ghost predicate StrictTotalOrder(less: (string, string) -> bool) {
    (forall a :: !less(a, a))
    && (forall a, b, c :: less(a, b) && less(b, c) ==> less(a, c))
    && (forall a, b :: a != b ==> less(a, b) || less(b, a))
  }

  /** Python's order on strings is a strict total order. */
  lemma StringLessIsStrictTotalOrder()
    ensures StrictTotalOrder((a, b) => StringLess(a, b))
  {
    forall a ensures !StringLess(a, a) {
      StringLessIrreflexive(a);
    }
    forall a, b, c | StringLess(a, b) && StringLess(b, c) ensures StringLess(a, c) {
      StringLessTransitive(a, b, c);
    }
    forall a, b | a != b ensures StringLess(a, b) || StringLess(b, a) {
      StringLessTotal(a, b);
    }
  }

  ghost predicate AllStrict(cmps: seq<(string, string) -> bool>) {
    forall k :: 0 <= k < |cmps| ==> StrictTotalOrder(cmps[k])
  }

  /** The fields of a reference the order compares, in order. */
  function Key(r: Reference): seq<string> {
    [r.id.name, r.id.version, r.id.user, r.id.channel]
  }

  /** The order each field of Key is compared by. */
  function Comparators(versionLess: (string, string) -> bool): seq<(string, string) -> bool> {
    [(a, b) => StringLess(a, b), versionLess, (a, b) => StringLess(a, b), (a, b) => StringLess(a, b)]
  }

  /** Every field is compared by a strict total order. */
  lemma ComparatorsStrict(versionLess: (string, string) -> bool)
    requires StrictTotalOrder(versionLess)
    ensures AllStrict(Comparators(versionLess))
  {
    StringLessIsStrictTotalOrder();
  }

  /** Lexicographic order on keys: the first differing field decides, by
      the comparator of its position. */
  predicate KeyLess(a: seq<string>, b: seq<string>, cmps: seq<(string, string) -> bool>)
    requires |a| == |b| == |cmps|
    decreases |a|
  {
    |a| > 0 && (cmps[0](a[0], b[0]) || (a[0] == b[0] && KeyLess(a[1..], b[1..], cmps[1..])))
  }

  /** Tuple order on references, the version compared by `versionLess`. */
  predicate RefLess(x: Reference, y: Reference, versionLess: (string, string) -> bool) {
    KeyLess(Key(x), Key(y), Comparators(versionLess))
  }

  /** `x` may come before `y` in a sorted list. */
  predicate RefLe(x: Reference, y: Reference, versionLess: (string, string) -> bool) {
    !RefLess(y, x, versionLess)
  }

  lemma {:induction false} KeyLessTransitive(a: seq<string>, b: seq<string>, c: seq<string>,
                                             cmps: seq<(string, string) -> bool>)
    requires |a| == |b| == |c| == |cmps| && AllStrict(cmps)
    requires KeyLess(a, b, cmps) && KeyLess(b, c, cmps)
    ensures KeyLess(a, c, cmps)
    decreases |a|
  {
    assert StrictTotalOrder(cmps[0]);
    if a[0] == b[0] && b[0] == c[0] {
      assert AllStrict(cmps[1..]) by {
        forall k | 0 <= k < |cmps[1..]| ensures StrictTotalOrder(cmps[1..][k]) {
          assert cmps[1..][k] == cmps[k + 1];
        }
      }
      KeyLessTransitive(a[1..], b[1..], c[1..], cmps[1..]);
    }
  }

  lemma {:induction false} KeyLessTotal(a: seq<string>, b: seq<string>, cmps: seq<(string, string) -> bool>)
    requires |a| == |b| == |cmps| && AllStrict(cmps)
    ensures KeyLess(a, b, cmps) || KeyLess(b, a, cmps) || a == b
    decreases |a|
  {
    if |a| > 0 {
      assert StrictTotalOrder(cmps[0]);
      if a[0] == b[0] {
        assert AllStrict(cmps[1..]) by {
          forall k | 0 <= k < |cmps[1..]| ensures StrictTotalOrder(cmps[1..][k]) {
            assert cmps[1..][k] == cmps[k + 1];
          }
        }
        KeyLessTotal(a[1..], b[1..], cmps[1..]);
        assert a == [a[0]] + a[1..] && b == [b[0]] + b[1..];
      }
    }
  }

  lemma {:induction false} KeyLessIrreflexive(a: seq<string>, cmps: seq<(string, string) -> bool>)
    requires |a| == |cmps| && AllStrict(cmps)
    ensures !KeyLess(a, a, cmps)
    decreases |a|
  {
    if |a| > 0 {
      assert StrictTotalOrder(cmps[0]);
      assert AllStrict(cmps[1..]) by {
        forall k | 0 <= k < |cmps[1..]| ensures StrictTotalOrder(cmps[1..][k]) {
          assert cmps[1..][k] == cmps[k + 1];
        }
      }
      KeyLessIrreflexive(a[1..], cmps[1..]);
    }
  }

  lemma {:induction false} KeyLessAsymmetric(a: seq<string>, b: seq<string>, cmps: seq<(string, string) -> bool>)
    requires |a| == |b| == |cmps| && AllStrict(cmps) && KeyLess(a, b, cmps)
    ensures !KeyLess(b, a, cmps)
    decreases |a|
  {
    assert StrictTotalOrder(cmps[0]);
    if !cmps[0](a[0], b[0]) {
      assert AllStrict(cmps[1..]) by {
        forall k | 0 <= k < |cmps[1..]| ensures StrictTotalOrder(cmps[1..][k]) {
          assert cmps[1..][k] == cmps[k + 1];
        }
      }
      KeyLessAsymmetric(a[1..], b[1..], cmps[1..]);
    }
  }

  /** RefLe is a total preorder: references with the same name, version,
      user and channel are tied, any others are strictly ordered. */
  lemma RefLeTotal(x: Reference, y: Reference, versionLess: (string, string) -> bool)
    requires StrictTotalOrder(versionLess)
    ensures RefLe(x, y, versionLess) || RefLe(y, x, versionLess)
    ensures RefLe(x, y, versionLess) && RefLe(y, x, versionLess) <==> x.id == y.id
  {
    var cmps := Comparators(versionLess);
    ComparatorsStrict(versionLess);
    KeyLessTotal(Key(x), Key(y), cmps);
    if RefLess(x, y, versionLess) {
      KeyLessAsymmetric(Key(x), Key(y), cmps);
    }
    if x.id == y.id {
      assert Key(x) == Key(y);
      KeyLessIrreflexive(Key(x), cmps);
    }
    if Key(x) == Key(y) {
      assert x.id.name == Key(x)[0] && x.id.version == Key(x)[1];
      assert x.id.user == Key(x)[2] && x.id.channel == Key(x)[3];
    }
  }

  lemma RefLeTransitive(x: Reference, y: Reference, z: Reference, versionLess: (string, string) -> bool)
    requires StrictTotalOrder(versionLess)
    requires RefLe(x, y, versionLess) && RefLe(y, z, versionLess)
    ensures RefLe(x, z, versionLess)
  {
    var cmps := Comparators(versionLess);
    ComparatorsStrict(versionLess);
    KeyLessTotal(Key(x), Key(y), cmps);
    KeyLessTotal(Key(y), Key(z), cmps);
    if KeyLess(Key(x), Key(y), cmps) && KeyLess(Key(y), Key(z), cmps) {
      KeyLessTransitive(Key(x), Key(y), Key(z), cmps);
      KeyLessAsymmetric(Key(x), Key(z), cmps);
    }
  }

  /** Versions compare by the Version order, not by their text: a
      reference whose version is smaller in that order sorts first even
      where Python's string order says otherwise. */
  lemma VersionDecides(x: Reference, y: Reference, versionLess: (string, string) -> bool)
    requires StrictTotalOrder(versionLess)
    requires x.id.name == y.id.name && versionLess(x.id.version, y.id.version)
    ensures RefLess(x, y, versionLess) && !RefLess(y, x, versionLess)
  {
    ComparatorsStrict(versionLess);
    KeyLessAsymmetric(Key(x), Key(y), Comparators(versionLess));
  }

  predicate Sorted(s: seq<Reference>, versionLess: (string, string) -> bool) {
    forall i, j :: 0 <= i < j < |s| ==> RefLe(s[i], s[j], versionLess)
  }

  /** Places `x` after every element it does not precede. */
  function Insert(x: Reference, s: seq<Reference>, versionLess: (string, string) -> bool): seq<Reference>
    decreases |s|
  {
    if s == [] then [x]
    else if RefLess(x, s[0], versionLess) then [x] + s
    else [s[0]] + Insert(x, s[1..], versionLess)
  }

  /** Python's `sorted` on references: stable insertion of each element in
      listed order. */
  function SortRefs(s: seq<Reference>, versionLess: (string, string) -> bool): seq<Reference>
    decreases |s|
  {
    if s == [] then [] else Insert(s[|s| - 1], SortRefs(s[..|s| - 1], versionLess), versionLess)
  }

  /** An element that precedes the head of a sorted list may go in front. */
  lemma PrependSorted(x: Reference, s: seq<Reference>, versionLess: (string, string) -> bool)
    requires StrictTotalOrder(versionLess) && Sorted(s, versionLess)
    requires s != [] && RefLess(x, s[0], versionLess)
    ensures Sorted([x] + s, versionLess)
  {
    forall j | 0 < j < |[x] + s| ensures RefLe(x, ([x] + s)[j], versionLess) {
      RefLeTotal(x, s[0], versionLess);
      if j > 1 {
        RefLeTransitive(x, s[0], s[j - 1], versionLess);
      }
    }
  }

  lemma {:induction false} InsertSorted(x: Reference, s: seq<Reference>, versionLess: (string, string) -> bool)
    requires StrictTotalOrder(versionLess) && Sorted(s, versionLess)
    ensures Sorted(Insert(x, s, versionLess), versionLess)
    ensures multiset(Insert(x, s, versionLess)) == multiset(s) + multiset{x}
    ensures forall y :: y in Insert(x, s, versionLess) ==> y == x || y in s
    decreases |s|
  {
    if s != [] {
      if RefLess(x, s[0], versionLess) {
        PrependSorted(x, s, versionLess);
      } else {
        InsertSorted(x, s[1..], versionLess);
        var t := Insert(x, s[1..], versionLess);
        assert s == [s[0]] + s[1..];
        forall y | y in t ensures RefLe(s[0], y, versionLess) {
          if y != x {
            var k :| 0 <= k < |s[1..]| && s[1..][k] == y;
            assert s[k + 1] == y;
          }
        }
        forall i, j | 0 <= i < j < |[s[0]] + t| ensures RefLe(([s[0]] + t)[i], ([s[0]] + t)[j], versionLess) {
          if i == 0 {
            assert ([s[0]] + t)[j] == t[j - 1];
            assert t[j - 1] in t;
          }
        }
      }
    }
  }

  /** The sorted list is ordered and holds exactly the listed references,
      each as often as it was listed. */
  lemma {:induction false} SortRefsCorrect(s: seq<Reference>, versionLess: (string, string) -> bool)
    requires StrictTotalOrder(versionLess)
    ensures Sorted(SortRefs(s, versionLess), versionLess)
    ensures multiset(SortRefs(s, versionLess)) == multiset(s)
    decreases |s|
  {
    if s != [] {
      SortRefsCorrect(s[..|s| - 1], versionLess);
      InsertSorted(s[|s| - 1], SortRefs(s[..|s| - 1], versionLess), versionLess);
      assert s == s[..|s| - 1] + [s[|s| - 1]];
    }
  }

  /** A duplicate-free list stays duplicate-free and keeps its elements. */
  lemma SortRefsKeepsElements(s: seq<Reference>, versionLess: (string, string) -> bool)
    requires StrictTotalOrder(versionLess)
    ensures forall x :: x in SortRefs(s, versionLess) <==> x in s
    ensures NoDuplicates(s) ==> NoDuplicates(SortRefs(s, versionLess))
  {
    SortRefsCorrect(s, versionLess);
    var t := SortRefs(s, versionLess);
    assert forall x :: x in t <==> x in multiset(t);
    assert forall x :: x in s <==> x in multiset(s);
    if NoDuplicates(s) {
      forall i, j | 0 <= i < j < |t| ensures t[i] != t[j] {
        if t[i] == t[j] {
          MultiplicityAtLeastTwo(t, i, j);
          MultiplicityAtMostOne(s, t[i]);
          assert false;
        }
      }
    }
  }

  predicate NoDuplicates<T(==)>(s: seq<T>) {
    forall i, j :: 0 <= i < j < |s| ==> s[i] != s[j]
  }

  lemma {:induction false} MultiplicityAtLeastTwo<T>(s: seq<T>, i: nat, j: nat)
    requires i < j < |s| && s[i] == s[j]
    ensures multiset(s)[s[i]] >= 2
  {
    assert s == s[..i] + [s[i]] + s[i + 1..j] + [s[j]] + s[j + 1..];
  }

  lemma {:induction false} MultiplicityAtMostOne<T>(s: seq<T>, x: T)
    requires NoDuplicates(s)
    ensures multiset(s)[x] <= 1
    decreases |s|
  {
    if s != [] {
      assert s == s[..|s| - 1] + [s[|s| - 1]];
      MultiplicityAtMostOne(s[..|s| - 1], x);
      if x == s[|s| - 1] {
        assert x !in s[..|s| - 1];
      }
    }
  }
}
