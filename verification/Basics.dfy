/** Results, text and sorting shared by every part of the model. */
module Basics {

  datatype Option<+T> = None | Some(value: T)

  /** The service's errors: the two sentinels of store.go, and everything reported as text. */
  datatype Error = NotFound | Conflict | Refused(why: string)

  datatype Result<+T> = Ok(value: T) | Err(error: Error)

  /** Seconds since the zero time; 0 is the unset time (time.Time.IsZero). */
  type Time = nat

  // ---------------------------------------------------------------- text

  /** strings.Compare(a, b) < 0. */
  predicate Less(a: string, b: string) {
    if b == "" then false
    else if a == "" then true
    else a[0] < b[0] || (a[0] == b[0] && Less(a[1..], b[1..]))
  }

  lemma {:induction false} LessTotal(a: string, b: string)
    ensures Less(a, b) || a == b || Less(b, a)
    ensures !(Less(a, b) && Less(b, a))
  {
    if a == "" || b == "" {
    } else {
      LessTotal(a[1..], b[1..]);
      assert a[0] == b[0] && a[1..] == b[1..] ==> a == b by {
        assert a == [a[0]] + a[1..] && b == [b[0]] + b[1..];
      }
    }
  }

  lemma {:induction false} LessTransitive(a: string, b: string, c: string)
    requires Less(a, b) && Less(b, c)
    ensures Less(a, c)
  {
    if a != "" && a[0] == b[0] == c[0] {
      LessTransitive(a[1..], b[1..], c[1..]);
    }
  }

  /** a comes first where the two first differ, or is a proper beginning of b. */
  lemma {:induction false} LessMeans(a: string, b: string)
    ensures Less(a, b) <==> exists i :: 0 <= i <= |a| && i < |b| && a[..i] == b[..i] && (i == |a| || a[i] < b[i])
  {
    if a == "" || b == "" {
      assert b != "" ==> a[..0] == b[..0];
    } else {
      LessMeans(a[1..], b[1..]);
      assert a == [a[0]] + a[1..] && b == [b[0]] + b[1..];
      if a[0] == b[0] && Less(a[1..], b[1..]) {
        var i :| 0 <= i <= |a[1..]| && i < |b[1..]| && a[1..][..i] == b[1..][..i] && (i == |a[1..]| || a[1..][i] < b[1..][i]);
        assert a[..i + 1] == [a[0]] + a[1..][..i] && b[..i + 1] == [b[0]] + b[1..][..i];
      }
      if a[0] < b[0] {
        assert a[..0] == b[..0];
      }
      if i :| 0 <= i <= |a| && i < |b| && a[..i] == b[..i] && (i == |a| || a[i] < b[i]) {
        if i > 0 {
          assert a[0] == a[..i][0] == b[..i][0] == b[0];
          assert a[1..][..i - 1] == a[..i][1..] && b[1..][..i - 1] == b[..i][1..];
        }
      }
    }
  }

  /** unicode.IsSpace. */
  predicate IsSpace(c: char) {
    || '\t' <= c <= '\r' || c == ' ' || c == '\U{85}' || c == '\U{A0}' || c == '\U{1680}'
    || '\U{2000}' <= c <= '\U{200A}' || c == '\U{2028}' || c == '\U{2029}' || c == '\U{202F}'
    || c == '\U{205F}' || c == '\U{3000}'
  }

  function TrimLeft(s: string): string {
    if s != "" && IsSpace(s[0]) then TrimLeft(s[1..]) else s
  }

  function TrimRight(s: string): string {
    if s != "" && IsSpace(s[|s| - 1]) then TrimRight(s[..|s| - 1]) else s
  }

  /** strings.TrimSpace. */
  function Trim(s: string): string {
    TrimRight(TrimLeft(s))
  }

  lemma {:induction false} TrimLeftStart(s: string)
    ensures TrimLeft(s) == "" || !IsSpace(TrimLeft(s)[0])
  {
    if s == "" || !IsSpace(s[0]) {
    } else {
      TrimLeftStart(s[1..]);
    }
  }

  lemma {:induction false} TrimRightEnd(s: string)
    ensures TrimRight(s) <= s && (TrimRight(s) == "" || !IsSpace(TrimRight(s)[|TrimRight(s)| - 1]))
  {
    if s == "" || !IsSpace(s[|s| - 1]) {
    } else {
      TrimRightEnd(s[..|s| - 1]);
    }
  }

  lemma {:induction false} TrimLeftShortens(s: string)
    ensures |TrimLeft(s)| <= |s|
  {
    if s == "" || !IsSpace(s[0]) {
    } else {
      TrimLeftShortens(s[1..]);
    }
  }

  /** Trimmed text has no space at either end. */
  lemma TrimEnds(s: string)
    ensures |Trim(s)| <= |s|
    ensures Trim(s) == "" || (!IsSpace(Trim(s)[0]) && !IsSpace(Trim(s)[|Trim(s)| - 1]))
  {
    TrimLeftShortens(s);
    TrimLeftStart(s);
    TrimRightEnd(TrimLeft(s));
  }

  lemma SpacesMean(c: char)
    ensures IsSpace(c) <==>
            c in "\U{9}\U{A}\U{B}\U{C}\U{D}\U{20}\U{85}\U{A0}\U{1680}" ||
            c in "\U{2000}\U{2001}\U{2002}\U{2003}\U{2004}\U{2005}\U{2006}\U{2007}\U{2008}\U{2009}\U{200A}\U{2028}\U{2029}\U{202F}\U{205F}\U{3000}"
  {
  }

  predicate AllSpaces(s: string) {
    forall i :: 0 <= i < |s| ==> IsSpace(s[i])
  }

  lemma {:induction false} TrimLeftDrops(s: string) returns (dropped: string)
    ensures s == dropped + TrimLeft(s) && AllSpaces(dropped)
  {
    if s == "" || !IsSpace(s[0]) {
      dropped := "";
    } else {
      var rest := TrimLeftDrops(s[1..]);
      dropped := [s[0]] + rest;
      assert s == [s[0]] + s[1..];
    }
  }

  lemma {:induction false} TrimRightDrops(s: string) returns (dropped: string)
    ensures s == TrimRight(s) + dropped && AllSpaces(dropped)
  {
    if s == "" || !IsSpace(s[|s| - 1]) {
      dropped := "";
    } else {
      var rest := TrimRightDrops(s[..|s| - 1]);
      dropped := rest + [s[|s| - 1]];
      assert s == s[..|s| - 1] + [s[|s| - 1]];
    }
  }

  /** Trimming drops spaces at both ends, and nothing but spaces. */
  lemma TrimMeans(s: string)
    ensures exists left, right :: s == left + Trim(s) + right && AllSpaces(left) && AllSpaces(right)
    ensures Trim(s) == "" || (!IsSpace(Trim(s)[0]) && !IsSpace(Trim(s)[|Trim(s)| - 1]))
  {
    var left := TrimLeftDrops(s);
    var right := TrimRightDrops(TrimLeft(s));
    assert s == left + Trim(s) + right;
    TrimEnds(s);
  }

  predicate HasSuffix(s: string, suffix: string) {
    |suffix| <= |s| && s[|s| - |suffix|..] == suffix
  }

  // ---------------------------------------------------------------- lists

  function Filter<T>(keep: T -> bool, xs: seq<T>): seq<T> {
    if xs == [] then []
    else (if keep(xs[0]) then [xs[0]] else []) + Filter(keep, xs[1..])
  }

  lemma {:induction false} FilterAppend<T>(keep: T -> bool, xs: seq<T>, ys: seq<T>)
    ensures Filter(keep, xs + ys) == Filter(keep, xs) + Filter(keep, ys)
  {
    if xs == [] {
      assert xs + ys == ys;
    } else {
      FilterAppend(keep, xs[1..], ys);
      assert (xs + ys)[0] == xs[0] && (xs + ys)[1..] == xs[1..] + ys;
      var first := if keep(xs[0]) then [xs[0]] else [];
      assert Filter(keep, xs + ys) == first + (Filter(keep, xs[1..]) + Filter(keep, ys));
      assert Filter(keep, xs) == first + Filter(keep, xs[1..]);
    }
  }

  lemma FilterOne<T>(keep: T -> bool, x: T)
    ensures Filter(keep, [x]) == if keep(x) then [x] else []
  {
    assert [x][1..] == [];
  }

  lemma {:induction false} FilterMember<T>(keep: T -> bool, xs: seq<T>, x: T)
    ensures x in Filter(keep, xs) <==> x in xs && keep(x)
  {
    if xs == [] {
    } else {
      FilterMember(keep, xs[1..], x);
    }
  }

  /** Two opposite tests part a list between them. */
  lemma {:induction false} FilterSplits<T>(keep: T -> bool, drop: T -> bool, xs: seq<T>)
    requires forall x <- xs :: keep(x) != drop(x)
    ensures multiset(Filter(keep, xs)) + multiset(Filter(drop, xs)) == multiset(xs)
  {
    if xs == [] {
    } else {
      FilterSplits(keep, drop, xs[1..]);
      assert xs == [xs[0]] + xs[1..];
    }
  }

  // ---------------------------------------------------------------- sorting

  /** A strict weak order, as slices.SortFunc asks of its comparison. */
  ghost predicate StrictWeak<T(!new)>(less: (T, T) -> bool) {
    && (forall x, y :: less(x, y) ==> !less(y, x))
    && (forall x, y, z :: !less(y, x) && !less(z, y) ==> !less(z, x))
  }

  ghost predicate SortedBy<T>(less: (T, T) -> bool, xs: seq<T>) {
    forall i, j :: 0 <= i < j < |xs| ==> !less(xs[j], xs[i])
  }

  /** All that slices.SortFunc promises: a sorted permutation; ties fall in any order. */
  ghost predicate IsSorting<T>(less: (T, T) -> bool, xs: seq<T>, ys: seq<T>) {
    multiset(xs) == multiset(ys) && SortedBy(less, ys)
  }

  lemma InsertedSorted<T(!new)>(less: (T, T) -> bool, ys: seq<T>, at: nat, x: T)
    requires StrictWeak(less) && SortedBy(less, ys) && at <= |ys|
    requires forall k :: at <= k < |ys| ==> less(x, ys[k])
    requires at == 0 || !less(x, ys[at - 1])
    ensures SortedBy(less, ys[..at] + [x] + ys[at..])
  {
    var zs := ys[..at] + [x] + ys[at..];
    forall i, j | 0 <= i < j < |zs|
      ensures !less(zs[j], zs[i])
    {
      if j == at && i < at - 1 {
        assert !less(ys[at - 1], ys[i]);
      }
    }
  }

  method Sort<T(!new)>(xs: seq<T>, less: (T, T) -> bool) returns (ys: seq<T>)
    requires StrictWeak(less)
    ensures IsSorting(less, xs, ys)
  {
    ys := [];
    for i := 0 to |xs|
      invariant IsSorting(less, xs[..i], ys)
    {
      ghost var before := ys;
      var at := |ys|;
      while 0 < at && less(xs[i], ys[at - 1])
        invariant 0 <= at <= |ys|
        invariant forall k :: at <= k < |ys| ==> less(xs[i], ys[k])
      {
        at := at - 1;
      }
      ys := ys[..at] + [xs[i]] + ys[at..];
      InsertedSorted(less, before, at, xs[i]);
      assert before == before[..at] + before[at..];
      assert xs[..i + 1] == xs[..i] + [xs[i]];
    }
    assert xs[..|xs|] == xs;
  }

  /** Where no two elements tie, a sorted permutation is unique. */
  lemma {:induction false} SortingUnique<T(!new)>(less: (T, T) -> bool, xs: seq<T>, ys: seq<T>)
    requires StrictWeak(less) && SortedBy(less, xs) && SortedBy(less, ys)
    requires multiset(xs) == multiset(ys)
    requires forall x, y :: x in xs && y in xs && x != y ==> less(x, y) || less(y, x)
    ensures xs == ys
  {
    assert |xs| == |ys| by {
      assert |multiset(xs)| == |xs| && |multiset(ys)| == |ys|;
    }
    if xs == [] {
    } else {
      assert ys[0] in multiset(xs) && xs[0] in multiset(ys);
      assert xs[0] == ys[0];
      assert xs == [xs[0]] + xs[1..] && ys == [ys[0]] + ys[1..];
      assert multiset(xs[1..]) == multiset(xs) - multiset{xs[0]};
      assert multiset(ys[1..]) == multiset(ys) - multiset{ys[0]};
      SortingUnique(less, xs[1..], ys[1..]);
    }
  }
}
