/** Small generic building blocks shared by the whole model: optional values,
    results with an error, and the array helpers the TypeScript code uses
    (`filter`, `find`, and "prepend then keep the first n"). */
module Basics {

  datatype Option<+T> = None | Some(value: T)

  datatype Result<+T, +E> = Ok(value: T) | Err(error: E)

  function Min(a: int, b: int): int { if a <= b then a else b }

  /** `xs.filter(p)`: the elements of `xs` that satisfy `p`, in their original order. */
  function Filter<T>(xs: seq<T>, p: T -> bool): (r: seq<T>)
    ensures |r| <= |xs|
    ensures forall x :: x in r ==> x in xs && p(x)
    ensures forall x :: x in xs && p(x) ==> x in r
  {
    if xs == [] then []
    else (if p(xs[0]) then [xs[0]] else []) + Filter(xs[1..], p)
  }

  /** A list of twelve filters to the concatenation of what each element
      keeps. */
  lemma FilterTwelveIs<T>(xs: seq<T>, x0: T, x1: T, x2: T, x3: T, x4: T, x5: T, x6: T, x7: T,
                          x8: T, x9: T, x10: T, x11: T, p: T -> bool, expected: seq<T>)
    requires xs == [x0, x1, x2, x3, x4, x5, x6, x7, x8, x9, x10, x11]
    requires (Keep(x0, p) + Keep(x1, p) + Keep(x2, p) + Keep(x3, p)) +
             (Keep(x4, p) + Keep(x5, p) + Keep(x6, p) + Keep(x7, p)) +
             (Keep(x8, p) + Keep(x9, p) + Keep(x10, p) + Keep(x11, p)) == expected
    ensures Filter(xs, p) == expected
  {
    var a, b, c := [x0, x1, x2, x3], [x4, x5, x6, x7], [x8, x9, x10, x11];
    assert [x0, x1, x2, x3, x4, x5, x6, x7, x8, x9, x10, x11] == a + b + c;
    FilterAppend(a + b, c, p);
    FilterAppend(a, b, p);
    FilterFour(x0, x1, x2, x3, p);
    FilterFour(x4, x5, x6, x7, p);
    FilterFour(x8, x9, x10, x11, p);
  }

  lemma FilterFour<T>(x0: T, x1: T, x2: T, x3: T, p: T -> bool)
    ensures Filter([x0, x1, x2, x3], p) == Keep(x0, p) + Keep(x1, p) + Keep(x2, p) + Keep(x3, p)
  {
    assert [x0, x1, x2, x3] == [x0] + [x1] + [x2] + [x3];
    FilterAppend([x0] + [x1] + [x2], [x3], p);
    FilterAppend([x0] + [x1], [x2], p);
    FilterAppend([x0], [x1], p);
    KeepIsFilter(x0, p);
    KeepIsFilter(x1, p);
    KeepIsFilter(x2, p);
    KeepIsFilter(x3, p);
  }

  /** What `Filter` keeps of one element. */
  function Keep<T>(x: T, p: T -> bool): seq<T> {
    if p(x) then [x] else []
  }

  lemma KeepIsFilter<T>(x: T, p: T -> bool)
    ensures Filter([x], p) == Keep(x, p)
  {
    assert [x][1..] == [];
  }

  /** Filtering with a predicate that no element satisfies leaves nothing. */
  lemma {:induction false} FilterNone<T>(xs: seq<T>, p: T -> bool)
    requires forall x :: x in xs ==> !p(x)
    ensures Filter(xs, p) == []
  {
    if xs != [] {
      assert xs[0] in xs;
      FilterNone(xs[1..], p);
    }
  }

  /** Filtering with a predicate that every element satisfies keeps everything. */
  lemma {:induction false} FilterAll<T>(xs: seq<T>, p: T -> bool)
    requires forall x :: x in xs ==> p(x)
    ensures Filter(xs, p) == xs
  {
    if xs != [] {
      assert xs[0] in xs;
      FilterAll(xs[1..], p);
      assert xs == [xs[0]] + xs[1..];
    }
  }

  /** Filtering distributes over concatenation: together with the one-element
      case this pins down the order of the result, not only its contents. */
  lemma {:induction false} FilterAppend<T>(a: seq<T>, b: seq<T>, p: T -> bool)
    ensures Filter(a + b, p) == Filter(a, p) + Filter(b, p)
  {
    if a == [] {
      assert a + b == b;
    } else {
      assert (a + b)[0] == a[0];
      assert (a + b)[1..] == a[1..] + b;
      FilterAppend(a[1..], b, p);
    }
  }

  /** The index of the first element satisfying `p` (`findIndex`), if any. */
  function FindIndex<T>(xs: seq<T>, p: T -> bool): (r: Option<nat>)
    ensures r.Some? ==> r.value < |xs| && p(xs[r.value])
    ensures r.Some? ==> forall j :: 0 <= j < r.value ==> !p(xs[j])
    ensures r.None? <==> forall j :: 0 <= j < |xs| ==> !p(xs[j])
  {
    if xs == [] then None
    else if p(xs[0]) then Some(0)
    else match FindIndex(xs[1..], p)
      case None => None
      case Some(i) => Some(i + 1)
  }

  /** `xs.find(p)`: the first element satisfying `p`, or nothing (`undefined`). */
  function Find<T>(xs: seq<T>, p: T -> bool): (r: Option<T>)
    ensures r.Some? ==> r.value in xs && p(r.value)
    ensures r.None? <==> forall x :: x in xs ==> !p(x)
    ensures r.Some? ==> exists i :: 0 <= i < |xs| && xs[i] == r.value && forall j :: 0 <= j < i ==> !p(xs[j])
  {
    match FindIndex(xs, p)
    case None => None
    case Some(i) => Some(xs[i])
  }

  /** `xs.filter((_, i) => i !== index)`: every element except the one at
      position `index`, if there is one. */
  function RemoveIndex<T>(xs: seq<T>, index: int): (r: seq<T>)
    ensures 0 <= index < |xs| ==> r == xs[..index] + xs[index + 1..]
    ensures !(0 <= index < |xs|) ==> r == xs
  {
    if xs == [] then []
    else (if index == 0 then [] else [xs[0]]) + RemoveIndex(xs[1..], index - 1)
  }

  /** `[x, ...xs].slice(0, cap)`: a most-recent-first list bounded by `cap`. */
  function PrependCapped<T>(x: T, xs: seq<T>, cap: nat): (r: seq<T>)
    requires cap >= 1
    ensures |r| == Min(cap, |xs| + 1) && |r| <= cap
    ensures r[0] == x
    ensures r[1..] == xs[..|r| - 1]
  {
    ([x] + xs)[..Min(cap, |xs| + 1)]
  }
}
