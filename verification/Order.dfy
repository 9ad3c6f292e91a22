/** The order of Rust strings and the strictly sorted sequences a BTreeSet of them iterates as. */
module Order {

  /** Lexicographic by code point, which for UTF-8 is also byte order. */
  predicate Less(a: string, b: string) {
    if b == "" then false
    else if a == "" then true
    else a[0] < b[0] || (a[0] == b[0] && Less(a[1..], b[1..]))
  }

  lemma {:induction false} LessTotal(a: string, b: string)
    ensures Less(a, b) || a == b || Less(b, a)
  {
    if a != "" && b != "" && a[0] == b[0] {
      LessTotal(a[1..], b[1..]);
      assert a == [a[0]] + a[1..] && b == [b[0]] + b[1..];
    }
  }

  lemma {:induction false} LessTransitive(a: string, b: string, c: string)
    requires Less(a, b) && Less(b, c)
    ensures Less(a, c)
  {
    if a != "" && a[0] == b[0] && b[0] == c[0] {
      LessTransitive(a[1..], b[1..], c[1..]);
    }
  }

  lemma {:induction false} LessIrreflexive(a: string)
    ensures !Less(a, a)
  {
    if a != "" {
      LessIrreflexive(a[1..]);
    }
  }

  /** `a` ends where `b` goes on, or has the smaller character at the first difference. */
  predicate LessAt(a: string, b: string, n: nat) {
    n <= |a| && n < |b| && a[..n] == b[..n] && (n == |a| || a[n] < b[n])
  }

  lemma {:induction false} LessMeans(a: string, b: string)
    ensures Less(a, b) <==> exists n: nat :: LessAt(a, b, n)
  {
    if b != "" {
      if a == "" {
        assert LessAt(a, b, 0);
      } else {
        LessMeans(a[1..], b[1..]);
        assert a == [a[0]] + a[1..] && b == [b[0]] + b[1..];
        if n: nat :| LessAt(a, b, n) {
          if n > 0 {
            assert a[..n][0] == b[..n][0] && a[..n][1..] == a[1..][..n - 1] && b[..n][1..] == b[1..][..n - 1];
            assert LessAt(a[1..], b[1..], n - 1);
          }
        }
        if Less(a, b) {
          if a[0] < b[0] {
            assert LessAt(a, b, 0);
          } else {
            var n: nat :| LessAt(a[1..], b[1..], n);
            assert a[..n + 1] == [a[0]] + a[1..][..n] && b[..n + 1] == [b[0]] + b[1..][..n];
            assert LessAt(a, b, n + 1);
          }
        }
      }
    }
  }

  predicate StrictlySorted(s: seq<string>) {
    forall i, j :: 0 <= i < j < |s| ==> Less(s[i], s[j])
  }

  function Elements<T>(s: seq<T>): set<T> {
    set x | x in s
  }

  /** `BTreeSet::insert`. */
  function Insert(s: seq<string>, x: string): seq<string> {
    if s == [] then [x]
    else if Less(x, s[0]) then [x] + s
    else if x == s[0] then s
    else [s[0]] + Insert(s[1..], x)
  }

  lemma {:induction false} InsertSorted(s: seq<string>, x: string)
    requires StrictlySorted(s)
    ensures StrictlySorted(Insert(s, x))
    ensures forall y :: y in Insert(s, x) <==> y in s || y == x
  {
    if s != [] {
      if Less(x, s[0]) {
        forall j | 0 < j < |s| ensures Less(x, s[j]) {
          LessTransitive(x, s[0], s[j]);
        }
      } else if x != s[0] {
        LessTotal(x, s[0]);
        InsertSorted(s[1..], x);
        assert s == [s[0]] + s[1..];
        var r := Insert(s[1..], x);
        forall j | 0 <= j < |r| ensures Less(s[0], r[j]) {
          assert r[j] in r;
        }
      }
    }
  }

  /** Collecting into a BTreeSet, or `sort` followed by `dedup`. */
  function SortedSet(xs: seq<string>): seq<string> {
    if xs == [] then [] else Insert(SortedSet(xs[..|xs| - 1]), xs[|xs| - 1])
  }

  lemma {:induction false} SortedSetSorts(xs: seq<string>)
    ensures StrictlySorted(SortedSet(xs))
    ensures forall y :: y in SortedSet(xs) <==> y in xs
  {
    if xs != [] {
      SortedSetSorts(xs[..|xs| - 1]);
      InsertSorted(SortedSet(xs[..|xs| - 1]), xs[|xs| - 1]);
      assert xs == xs[..|xs| - 1] + [xs[|xs| - 1]];
    }
  }

  /** A strictly sorted sequence is determined by its elements. */
  lemma {:induction false} SortedUnique(a: seq<string>, b: seq<string>)
    requires StrictlySorted(a) && StrictlySorted(b)
    requires forall y :: y in a <==> y in b
    ensures a == b
  {
    HasMember(a);
    HasMember(b);
    if a != [] && b != [] {
      FirstIsLeast(a, b[0]);
      FirstIsLeast(b, a[0]);
      if a[0] != b[0] {
        LessTransitive(a[0], b[0], a[0]);
        LessIrreflexive(a[0]);
      }
      forall y ensures y in a[1..] <==> y in b[1..] {
        TailMembers(a, y);
        TailMembers(b, y);
      }
      SortedUnique(a[1..], b[1..]);
      assert a == [a[0]] + a[1..] && b == [b[0]] + b[1..];
    }
  }

  lemma HasMember(s: seq<string>)
    ensures s == [] <==> forall y :: y !in s
  {
    if s != [] {
      assert s[0] in s;
    }
  }

  lemma FirstIsLeast(s: seq<string>, y: string)
    requires StrictlySorted(s) && y in s
    ensures y == s[0] || Less(s[0], y)
  {
  }

  lemma TailMembers(s: seq<string>, y: string)
    requires StrictlySorted(s) && s != []
    ensures y in s[1..] <==> y in s && y != s[0]
  {
    LessIrreflexive(s[0]);
    assert s == [s[0]] + s[1..];
  }

  /** The set of listed elements decides the result: order and repetition do not matter. */
  lemma SortedSetCanonical(xs: seq<string>, ys: seq<string>)
    requires forall y :: y in xs <==> y in ys
    ensures SortedSet(xs) == SortedSet(ys)
  {
    SortedSetSorts(xs);
    SortedSetSorts(ys);
    SortedUnique(SortedSet(xs), SortedSet(ys));
  }

  predicate Distinct(names: seq<string>) {
    forall i, j :: 0 <= i < j < |names| ==> names[i] != names[j]
  }

  lemma DistinctNext(names: seq<string>, name: string)
    ensures Distinct(names + [name]) <==> Distinct(names) && name !in names
    ensures Elements(names + [name]) == Elements(names) + {name}
  {
    var all := names + [name];
    assert all[|names|] == name;
    assert forall i :: 0 <= i < |names| ==> all[i] == names[i];
  }

  /** As many elements as entries exactly when no entry is repeated. */
  lemma {:induction false} DistinctCount(names: seq<string>)
    ensures |Elements(names)| <= |names|
    ensures |Elements(names)| == |names| <==> Distinct(names)
  {
    if names != [] {
      var front, last := names[..|names| - 1], names[|names| - 1];
      DistinctCount(front);
      assert names == front + [last];
      DistinctNext(front, last);
    }
  }

  lemma SortedIsDistinct(names: seq<string>)
    requires StrictlySorted(names)
    ensures Distinct(names)
  {
    forall i, j | 0 <= i < j < |names| ensures names[i] != names[j] {
      LessIrreflexive(names[i]);
    }
  }
}
