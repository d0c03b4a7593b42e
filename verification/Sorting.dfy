/** Byte order on names, order on paths, and the library's stable sort. */
module Sorting {

  /** Lexicographic order of strings. */
  predicate Before(a: string, b: string) {
    b != [] && (a == [] || a[0] < b[0] || (a[0] == b[0] && Before(a[1..], b[1..])))
  }

  lemma {:induction false} BeforeTransitive(a: string, b: string, c: string)
    requires Before(a, b) && Before(b, c)
    ensures Before(a, c)
  {
    if a != [] && a[0] == b[0] && b[0] == c[0] { BeforeTransitive(a[1..], b[1..], c[1..]); }
  }

  lemma {:induction false} BeforeTotal(a: string, b: string)
    ensures (Before(a, b) || Before(b, a)) == (a != b)
    ensures !(Before(a, b) && Before(b, a))
  {
    if a != [] && b != [] {
      if a[0] == b[0] { BeforeTotal(a[1..], b[1..]); }
      assert a == [a[0]] + a[1..] && b == [b[0]] + b[1..];
    }
  }

  /** Paths compare component by component, so `a/b` stands before `a-b`. */
  predicate PathBefore(a: seq<string>, b: seq<string>) {
    b != [] && (a == [] || Before(a[0], b[0]) || (a[0] == b[0] && PathBefore(a[1..], b[1..])))
  }

  lemma {:induction false} PathBeforeTransitive(a: seq<string>, b: seq<string>, c: seq<string>)
    requires PathBefore(a, b) && PathBefore(b, c)
    ensures PathBefore(a, c)
  {
    if a != [] {
      if Before(a[0], b[0]) && Before(b[0], c[0]) {
        BeforeTransitive(a[0], b[0], c[0]);
      } else if a[0] == b[0] && b[0] == c[0] {
        BeforeTotal(a[0], a[0]);
        PathBeforeTransitive(a[1..], b[1..], c[1..]);
      }
    }
  }

  lemma {:induction false} PathBeforeTotal(a: seq<string>, b: seq<string>)
    ensures (PathBefore(a, b) || PathBefore(b, a)) == (a != b)
    ensures !(PathBefore(a, b) && PathBefore(b, a))
  {
    if a != [] && b != [] {
      BeforeTotal(a[0], b[0]);
      if a[0] == b[0] { PathBeforeTotal(a[1..], b[1..]); }
      assert a == [a[0]] + a[1..] && b == [b[0]] + b[1..];
    }
  }

  /** One is a proper prefix of the other, or they first differ at a smaller element. */
  ghost predicate FirstDiffers<T(!new)>(a: seq<T>, b: seq<T>, smaller: (T, T) -> bool, n: nat) {
    && n <= |a| && n < |b| && a[..n] == b[..n]
    && (n == |a| || (a[n] != b[n] && smaller(a[n], b[n])))
  }

  lemma {:induction false} DiffersBehind<T(!new)>(a: seq<T>, b: seq<T>, smaller: (T, T) -> bool, n: nat)
    requires a != [] && b != [] && a[0] == b[0]
    ensures FirstDiffers(a, b, smaller, n + 1) <==> FirstDiffers(a[1..], b[1..], smaller, n)
  {
    if n + 1 <= |a| && n + 1 <= |b| {
      assert a[..n + 1] == [a[0]] + a[1..][..n] && b[..n + 1] == [b[0]] + b[1..][..n];
    }
  }

  predicate Smaller(c: char, d: char) { c < d }

  /** Strings are ordered by their first differing character, a prefix before what extends it, */
  lemma {:induction false} BeforeExactly(a: string, b: string)
    ensures Before(a, b) <==> exists n: nat :: FirstDiffers(a, b, Smaller, n)
  {
    if a == [] || b == [] || a[0] != b[0] {
      assert b != [] && (a == [] || a[0] < b[0]) ==> FirstDiffers(a, b, Smaller, 0);
      assert forall n: nat :: FirstDiffers(a, b, Smaller, n) && n > 0 ==> a[..n][0] == b[..n][0];
    } else {
      BeforeExactly(a[1..], b[1..]);
      forall n: nat ensures FirstDiffers(a, b, Smaller, n + 1) <==> FirstDiffers(a[1..], b[1..], Smaller, n) {
        DiffersBehind(a, b, Smaller, n);
      }
      assert forall n: nat :: FirstDiffers(a, b, Smaller, n) ==> FirstDiffers(a[1..], b[1..], Smaller, n - 1);
    }
  }

  predicate Precedes(p: string, q: string) { Before(p, q) }

  /** paths by their first differing component. */
  lemma {:induction false} PathBeforeExactly(a: seq<string>, b: seq<string>)
    ensures PathBefore(a, b) <==> exists n: nat :: FirstDiffers(a, b, Precedes, n)
  {
    if a != [] && b != [] {
      BeforeTotal(a[0], b[0]);
    }
    if a == [] || b == [] || a[0] != b[0] {
      assert b != [] && (a == [] || Before(a[0], b[0])) ==> FirstDiffers(a, b, Precedes, 0);
      assert forall n: nat :: FirstDiffers(a, b, Precedes, n) && n > 0 ==> a[..n][0] == b[..n][0];
    } else {
      PathBeforeExactly(a[1..], b[1..]);
      forall n: nat ensures FirstDiffers(a, b, Precedes, n + 1) <==> FirstDiffers(a[1..], b[1..], Precedes, n) {
        DiffersBehind(a, b, Precedes, n);
      }
      assert forall n: nat :: FirstDiffers(a, b, Precedes, n) ==> FirstDiffers(a[1..], b[1..], Precedes, n - 1);
    }
  }

  // ----- stable sort -----

  ghost predicate IsOrder<T(!new)>(lt: (T, T) -> bool) {
    && (forall x, y :: lt(x, y) ==> !lt(y, x))
    && (forall x, y, z :: !lt(y, x) && !lt(z, y) ==> !lt(z, x))
  }

  ghost predicate Sorted<T>(lt: (T, T) -> bool, s: seq<T>) {
    forall i, j :: 0 <= i < j < |s| ==> !lt(s[j], s[i])
  }

  function Insert<T>(lt: (T, T) -> bool, x: T, s: seq<T>): seq<T> {
    if s == [] || !lt(s[0], x) then [x] + s else [s[0]] + Insert(lt, x, s[1..])
  }

  /** Elements the order does not tell apart stay as they stood. */
  function SortBy<T>(lt: (T, T) -> bool, s: seq<T>): seq<T> {
    if s == [] then [] else Insert(lt, s[0], SortBy(lt, s[1..]))
  }

  lemma {:induction false} InsertKeeps<T>(lt: (T, T) -> bool, x: T, s: seq<T>)
    ensures multiset(Insert(lt, x, s)) == multiset{x} + multiset(s)
  {
    if s != [] && lt(s[0], x) {
      InsertKeeps(lt, x, s[1..]);
      assert s == [s[0]] + s[1..];
    }
  }

  lemma {:induction false} InsertSorted<T(!new)>(lt: (T, T) -> bool, x: T, s: seq<T>)
    requires IsOrder(lt) && Sorted(lt, s)
    ensures Sorted(lt, Insert(lt, x, s))
  {
    if s != [] && lt(s[0], x) {
      var rest := Insert(lt, x, s[1..]);
      InsertSorted(lt, x, s[1..]);
      InsertKeeps(lt, x, s[1..]);
      forall j | 0 <= j < |rest| ensures !lt(rest[j], s[0]) {
        assert rest[j] in multiset(rest);
        if rest[j] != x {
          assert rest[j] in s[1..];
        }
      }
    } else if s != [] {
      forall j | 0 <= j < |s| ensures !lt(s[j], x) {
        assert j == 0 || !lt(s[j], s[0]);
      }
    }
  }

  lemma {:induction false} SortSpec<T(!new)>(lt: (T, T) -> bool, s: seq<T>)
    requires IsOrder(lt)
    ensures Sorted(lt, SortBy(lt, s)) && multiset(SortBy(lt, s)) == multiset(s)
  {
    if s != [] {
      SortSpec(lt, s[1..]);
      InsertSorted(lt, s[0], SortBy(lt, s[1..]));
      InsertKeeps(lt, s[0], SortBy(lt, s[1..]));
      assert s == [s[0]] + s[1..];
    }
  }

  lemma {:induction false} SortOfSorted<T>(lt: (T, T) -> bool, s: seq<T>)
    requires Sorted(lt, s)
    ensures SortBy(lt, s) == s
  {
    if s != [] {
      SortOfSorted(lt, s[1..]);
      assert s == [s[0]] + s[1..];
      assert s[1..] != [] ==> s[1..][0] == s[1];
    }
  }

  /** The elements that tie with `y`, in their order. */
  function Tied<T>(lt: (T, T) -> bool, s: seq<T>, y: T): seq<T> {
    if s == [] then [] else (if !lt(s[0], y) && !lt(y, s[0]) then [s[0]] else []) + Tied(lt, s[1..], y)
  }

  lemma {:induction false} InsertIsStable<T(!new)>(lt: (T, T) -> bool, x: T, s: seq<T>, y: T)
    requires IsOrder(lt)
    ensures Tied(lt, Insert(lt, x, s), y) == Tied(lt, [x] + s, y)
  {
    assert ([x] + s)[1..] == s;
    if s != [] && lt(s[0], x) {
      var rest := Insert(lt, x, s[1..]);
      InsertIsStable(lt, x, s[1..], y);
      assert Insert(lt, x, s)[1..] == rest && ([x] + s[1..])[1..] == s[1..];
      assert !lt(x, y) && !lt(y, s[0]) ==> !lt(x, s[0]);
      assert !(!lt(s[0], y) && !lt(y, x));
    }
  }

  /** Sorting moves no element across one it ties with. */
  lemma {:induction false} SortIsStable<T(!new)>(lt: (T, T) -> bool, s: seq<T>, y: T)
    requires IsOrder(lt)
    ensures Tied(lt, SortBy(lt, s), y) == Tied(lt, s, y)
  {
    if s != [] {
      SortIsStable(lt, s[1..], y);
      InsertIsStable(lt, s[0], SortBy(lt, s[1..]), y);
      assert ([s[0]] + SortBy(lt, s[1..]))[1..] == SortBy(lt, s[1..]);
    }
  }

  /** Any two elements of `s` at different places are told apart by the order. */
  ghost predicate Distinct<T>(lt: (T, T) -> bool, s: seq<T>) {
    forall i, j :: 0 <= i < j < |s| ==> lt(s[i], s[j]) || lt(s[j], s[i])
  }

  lemma {:induction false} SortedHead<T(!new)>(lt: (T, T) -> bool, a: seq<T>, b: seq<T>)
    requires IsOrder(lt) && Sorted(lt, a) && Sorted(lt, b) && Distinct(lt, a)
    requires multiset(a) == multiset(b) && a != [] && b != []
    ensures a[0] == b[0]
  {
    assert a[0] in multiset(b) && b[0] in multiset(a);
    var i :| 0 <= i < |b| && b[i] == a[0];
    var j :| 0 <= j < |a| && a[j] == b[0];
    NothingBeforeHead(lt, a, j);
    NothingBeforeHead(lt, b, i);
  }

  lemma {:induction false} NothingBeforeHead<T(!new)>(lt: (T, T) -> bool, s: seq<T>, i: nat)
    requires IsOrder(lt) && Sorted(lt, s) && i < |s|
    ensures !lt(s[i], s[0])
  {
  }

  /** Sorting has one answer when no two elements tie. */
  lemma {:induction false} SortedUnique<T(!new)>(lt: (T, T) -> bool, a: seq<T>, b: seq<T>)
    requires IsOrder(lt) && Sorted(lt, a) && Sorted(lt, b) && Distinct(lt, a)
    requires multiset(a) == multiset(b)
    ensures a == b
  {
    SameLength(a, b);
    if a != [] {
      SortedHead(lt, a, b);
      TailsAgree(a, b);
      SortedUnique(lt, a[1..], b[1..]);
    }
  }

  lemma {:induction false} SameLength<T>(a: seq<T>, b: seq<T>)
    requires multiset(a) == multiset(b)
    ensures |a| == |b|
  {
    assert |multiset(a)| == |a| && |multiset(b)| == |b|;
  }

  lemma {:induction false} TailsAgree<T>(a: seq<T>, b: seq<T>)
    requires multiset(a) == multiset(b) && a != [] && b != [] && a[0] == b[0]
    ensures multiset(a[1..]) == multiset(b[1..]) && a == [a[0]] + a[1..] && b == [b[0]] + b[1..]
  {
    assert a == [a[0]] + a[1..] && b == [b[0]] + b[1..];
    assert multiset(a) == multiset{a[0]} + multiset(a[1..]);
    assert multiset(b) == multiset{b[0]} + multiset(b[1..]);
    assert multiset(a[1..]) == multiset(a) - multiset{a[0]};
    assert multiset(b[1..]) == multiset(b) - multiset{a[0]};
  }

  lemma {:induction false} CountTwo<T>(s: seq<T>, i: nat, j: nat)
    requires i < j < |s| && s[i] == s[j]
    ensures multiset(s)[s[i]] >= 2
  {
    assert s == s[..i] + [s[i]] + (s[i + 1..j] + [s[j]] + s[j + 1..]);
  }
}
