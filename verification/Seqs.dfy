/** Sequence vocabulary shared by the models: filtering, suffixes and uniqueness by a key, with the algebra the proofs
    need. */
module Seqs {

  datatype Option<+T> = None | Some(value: T)

  /** The elements of `xs` that satisfy `f`, in order (a list comprehension with a condition). */
  function Filter<T(!new)>(f: T -> bool, xs: seq<T>): (r: seq<T>)
    ensures |r| <= |xs|
  {
    if xs == [] then []
    else if f(xs[0]) then [xs[0]] + Filter(f, xs[1..])
    else Filter(f, xs[1..])
  }

  /** The last `n` elements of `xs` (Python's `xs[-n:]` for n > 0). */
  function Last<T(!new)>(xs: seq<T>, n: nat): (r: seq<T>)
    ensures |r| == if |xs| <= n then |xs| else n
  {
    if |xs| <= n then xs else xs[|xs| - n..]
  }

  function RemoveAt<T(!new)>(xs: seq<T>, i: nat): (r: seq<T>)
    requires i < |xs|
    ensures |r| == |xs| - 1
  {
    xs[..i] + xs[i + 1..]
  }

  /** No two positions of `xs` carry the same key. */
  ghost predicate Unique<T(!new), K>(key: T -> K, xs: seq<T>) {
    forall i, j :: 0 <= i < j < |xs| ==> key(xs[i]) != key(xs[j])
  }

  lemma FilterMembers<T(!new)>(f: T -> bool, xs: seq<T>)
    ensures forall x {:trigger x in Filter(f, xs)} :: x in Filter(f, xs) <==> x in xs && f(x)
  {
    if xs != [] {
      FilterMembers(f, xs[1..]);
      assert xs == [xs[0]] + xs[1..];
    }
  }

  lemma {:induction false} FilterSame<T(!new)>(f: T -> bool, h: T -> bool, xs: seq<T>)
    requires forall x :: x in xs ==> (f(x) <==> h(x))
    ensures Filter(f, xs) == Filter(h, xs)
  {
    if xs != [] {
      FilterSame(f, h, xs[1..]);
    }
  }

  lemma FilterConcat<T(!new)>(f: T -> bool, xs: seq<T>, ys: seq<T>)
    ensures Filter(f, xs + ys) == Filter(f, xs) + Filter(f, ys)
  {
    if xs == [] {
      assert xs + ys == ys;
    } else {
      assert (xs + ys)[1..] == xs[1..] + ys;
      FilterConcat(f, xs[1..], ys);
    }
  }

  lemma FilterAll<T(!new)>(f: T -> bool, xs: seq<T>)
    requires forall x :: x in xs ==> f(x)
    ensures Filter(f, xs) == xs
  {
  }

  lemma FilterNone<T(!new)>(f: T -> bool, xs: seq<T>)
    requires forall x :: x in xs ==> !f(x)
    ensures Filter(f, xs) == []
  {
  }

  lemma FilterAllButOne<T(!new)>(f: T -> bool, xs: seq<T>, i: nat)
    requires i < |xs| && !f(xs[i]) && forall k :: 0 <= k < |xs| && k != i ==> f(xs[k])
    ensures Filter(f, xs) == RemoveAt(xs, i)
  {
    assert xs == xs[..i] + ([xs[i]] + xs[i + 1..]);
    FilterConcat(f, xs[..i], [xs[i]] + xs[i + 1..]);
    FilterConcat(f, [xs[i]], xs[i + 1..]);
    FilterAll(f, xs[..i]);
    FilterAll(f, xs[i + 1..]);
  }

  lemma FilterCommutes<T(!new)>(f: T -> bool, g: T -> bool, xs: seq<T>)
    ensures Filter(f, Filter(g, xs)) == Filter(g, Filter(f, xs))
  {
    if xs != [] {
      FilterCommutes(f, g, xs[1..]);
      FilterConcat(f, [xs[0]], Filter(g, xs[1..]));
      FilterConcat(g, [xs[0]], Filter(f, xs[1..]));
    }
  }

  lemma FilterLast<T(!new)>(f: T -> bool, xs: seq<T>, n: nat)
    ensures |Filter(f, Last(xs, n))| <= |Filter(f, xs)|
  {
    if |xs| > n {
      var k := |xs| - n;
      assert xs == xs[..k] + xs[k..];
      FilterConcat(f, xs[..k], xs[k..]);
    }
  }

  lemma UniqueFilter<T(!new), K>(key: T -> K, f: T -> bool, xs: seq<T>)
    requires Unique(key, xs)
    ensures Unique(key, Filter(f, xs))
  {
    if xs != [] {
      assert Unique(key, xs[1..]);
      UniqueFilter(key, f, xs[1..]);
      var rest := Filter(f, xs[1..]);
      FilterMembers(f, xs[1..]);
      if f(xs[0]) {
        forall j | 0 <= j < |rest| ensures key(rest[j]) != key(xs[0]) {
          assert rest[j] in rest;
        }
      }
    }
  }

  lemma UniqueLast<T(!new), K>(key: T -> K, xs: seq<T>, n: nat)
    requires Unique(key, xs)
    ensures Unique(key, Last(xs, n))
  {
  }

  lemma UniqueAppend<T(!new), K>(key: T -> K, xs: seq<T>, x: T)
    requires Unique(key, xs)
    requires forall y :: y in xs ==> key(y) != key(x)
    ensures Unique(key, xs + [x])
  {
  }

  /** Under unique keys, dropping the keys of a prefix leaves exactly the matching suffix. */
  lemma DropPrefixByKey<T(!new), K>(key: T -> K, f: T -> bool, xs: seq<T>, k: nat)
    requires Unique(key, xs) && k <= |xs|
    requires forall x :: x in xs ==> (f(x) <==> key(x) !in set i | 0 <= i < k :: key(xs[i]))
    ensures Filter(f, xs) == xs[k..]
  {
    assert xs == xs[..k] + xs[k..];
    FilterConcat(f, xs[..k], xs[k..]);
    FilterNone(f, xs[..k]);
    FilterAll(f, xs[k..]);
  }
}
