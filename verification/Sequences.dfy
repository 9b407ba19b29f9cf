/** Options, results and the sequence vocabulary shared by the other modules. */
module Sequences {

  datatype Option<+T> = None | Some(value: T)

  datatype Result<+T, +E> = Ok(value: T) | Err(error: E)

  /** One byte of a UTF-8 string. */
  type Octet = c: char | c as int < 256 witness 'a'

  /** A Rust `String`, seen as its bytes. */
  type Text = seq<Octet>

  ghost predicate NoDup<T>(s: seq<T>) {
    forall i, j :: 0 <= i < j < |s| ==> s[i] != s[j]
  }

  function ToSet<T>(s: seq<T>): set<T> {
    set x | x in s
  }

  /** The elements of `s` that satisfy `p`, in their order. */
  function Filter<T(!new)>(s: seq<T>, p: T -> bool): (r: seq<T>)
    ensures forall x :: x in r <==> x in s && p(x)
  {
    if s == [] then []
    else
      var front := Filter(s[..|s| - 1], p);
      var last := s[|s| - 1];
      if p(last) then front + [last] else front
  }

  /** `IndexSet::insert`: a member keeps its place, a newcomer goes last. */
  function Insert<T(==)>(s: seq<T>, x: T): seq<T> {
    if x in s then s else s + [x]
  }

  /** `shift_remove`: the others keep their order. */
  function Without<T(!new, ==)>(s: seq<T>, x: T): seq<T> {
    Filter(s, Other(x))
  }

  /** The elements of `xs` that are not `known`, each where it occurs first. */
  function Newcomers<T(!new, ==)>(known: seq<T>, xs: seq<T>): (r: seq<T>)
    ensures NoDup(r)
    ensures forall x :: x in r <==> x in xs && x !in known
  {
    if xs == [] then []
    else
      var front, last := Newcomers(known, xs[..|xs| - 1]), xs[|xs| - 1];
      assert xs == xs[..|xs| - 1] + [last];
      if last in known || last in front then front else front + [last]
  }

  lemma NewcomersPlus<T(!new)>(known: seq<T>, xs: seq<T>, x: T)
    ensures Newcomers(known, xs + [x])
         == Newcomers(known, xs) + if x in known || x in Newcomers(known, xs) then [] else [x]
  {
    assert (xs + [x])[..|xs|] == xs;
  }

  lemma {:induction false} NewcomersInOrder<T(!new)>(known: seq<T>, xs: seq<T>, a: nat, b: nat)
    requires a < b < |Newcomers(known, xs)|
    ensures exists i :: 0 <= i < |xs| && xs[i] == Newcomers(known, xs)[a] && Newcomers(known, xs)[b] !in xs[..i + 1]
  {
    var n := |xs| - 1;
    var front := Newcomers(known, xs[..n]);
    if b < |front| {
      NewcomersInOrder(known, xs[..n], a, b);
      var i :| 0 <= i < n && xs[..n][i] == front[a] && front[b] !in xs[..n][..i + 1];
      assert xs[..n][..i + 1] == xs[..i + 1];
    } else {
      assert front[a] in xs[..n];
      var i :| 0 <= i < n && xs[..n][i] == front[a];
      assert xs[n] !in xs[..n] by {
        assert xs[n] !in front && xs[n] !in known;
      }
      assert forall x :: x in xs[..i + 1] ==> x in xs[..n];
    }
  }

  function Other<T(==)>(x: T): T -> bool {
    y => y != x
  }

  function Both<T>(p: T -> bool, q: T -> bool): T -> bool {
    x => p(x) && q(x)
  }

  /** `filter_map(|id| m.get(id))`. */
  function Resolve<K, V>(ids: seq<K>, m: map<K, V>): (r: seq<V>)
    ensures forall v :: v in r ==> exists k :: k in ids && k in m && m[k] == v
    ensures forall k :: k in ids && k in m ==> m[k] in r
  {
    if ids == [] then []
    else
      var front := Resolve(ids[..|ids| - 1], m);
      var last := ids[|ids| - 1];
      if last in m then front + [m[last]] else front
  }

  lemma {:induction false} FilterNoDup<T(!new)>(s: seq<T>, p: T -> bool)
    requires NoDup(s)
    ensures NoDup(Filter(s, p))
  {
    if s != [] {
      FilterNoDup(s[..|s| - 1], p);
    }
  }

  lemma {:induction false} FilterSame<T(!new)>(s: seq<T>, p: T -> bool, q: T -> bool)
    requires forall x :: x in s ==> p(x) == q(x)
    ensures Filter(s, p) == Filter(s, q)
  {
    if s != [] {
      FilterSame(s[..|s| - 1], p, q);
    }
  }

  lemma {:induction false} FilterConcat<T(!new)>(a: seq<T>, b: seq<T>, p: T -> bool)
    ensures Filter(a + b, p) == Filter(a, p) + Filter(b, p)
  {
    if b == [] {
      assert a + b == a;
    } else {
      FilterConcat(a, b[..|b| - 1], p);
      assert (a + b)[..|a + b| - 1] == a + b[..|b| - 1];
    }
  }

  lemma {:induction false} FilterFilter<T(!new)>(s: seq<T>, p: T -> bool, q: T -> bool)
    ensures Filter(Filter(s, p), q) == Filter(s, Both(p, q))
  {
    if s != [] {
      var front, last := s[..|s| - 1], s[|s| - 1];
      FilterFilter(front, p, q);
      if p(last) {
        assert (Filter(front, p) + [last])[..|Filter(front, p)|] == Filter(front, p);
      }
    }
  }

  lemma {:induction false} FilterAll<T(!new)>(s: seq<T>, p: T -> bool)
    requires forall x :: x in s ==> p(x)
    ensures Filter(s, p) == s
  {
    if s != [] {
      FilterAll(s[..|s| - 1], p);
    }
  }

  lemma {:induction false} FilterNone<T(!new)>(s: seq<T>, p: T -> bool)
    requires forall x :: x in s ==> !p(x)
    ensures Filter(s, p) == []
  {
    if s != [] {
      FilterNone(s[..|s| - 1], p);
    }
  }

  lemma FilterOne<T(!new)>(x: T, p: T -> bool)
    ensures Filter([x], p) == if p(x) then [x] else []
  {
    assert [x][..0] == [];
  }

  lemma FilterSplit<T(!new)>(a: seq<T>, x: T, b: seq<T>, p: T -> bool)
    ensures Filter(a + [x] + b, p) == Filter(a, p) + (if p(x) then [x] else []) + Filter(b, p)
  {
    FilterConcat(a + [x], b, p);
    assert (a + [x])[..|a|] == a;
  }

  /** Looking ids up commutes with filtering them. */
  lemma {:induction false} ResolveFilter<K(!new), V(!new)>(ids: seq<K>, m: map<K, V>, p: K -> bool, q: V -> bool)
    requires forall k :: k in ids && k in m ==> p(k) == q(m[k])
    ensures Resolve(Filter(ids, p), m) == Filter(Resolve(ids, m), q)
  {
    if ids != [] {
      var front, last := ids[..|ids| - 1], ids[|ids| - 1];
      ResolveFilter(front, m, p, q);
      if p(last) {
        assert (Filter(front, p) + [last])[..|Filter(front, p)|] == Filter(front, p);
      }
      if last in m {
        assert (Resolve(front, m) + [m[last]])[..|Resolve(front, m)|] == Resolve(front, m);
      }
    }
  }

  lemma {:induction false} ResolveAll<K, V>(ids: seq<K>, m: map<K, V>)
    requires forall i :: 0 <= i < |ids| ==> ids[i] in m
    ensures |Resolve(ids, m)| == |ids| && forall i :: 0 <= i < |ids| ==> Resolve(ids, m)[i] == m[ids[i]]
  {
    if ids != [] {
      ResolveAll(ids[..|ids| - 1], m);
    }
  }

  /** `map(f)`. */
  function Each<T, U>(s: seq<T>, f: T -> U): (r: seq<U>)
    ensures |r| == |s| && forall i :: 0 <= i < |r| ==> r[i] == f(s[i])
  {
    seq(|s|, i requires 0 <= i < |s| => f(s[i]))
  }

  lemma EachPlus<T, U>(s: seq<T>, x: T, f: T -> U)
    ensures Each(s + [x], f) == Each(s, f) + [f(x)]
  {
  }

  /** Mapping what is kept is keeping what is mapped, when the tests agree. */
  lemma {:induction false} EachFilter<T(!new), U(!new)>(s: seq<T>, f: T -> U, p: T -> bool, q: U -> bool)
    requires forall x :: x in s ==> p(x) == q(f(x))
    ensures Each(Filter(s, p), f) == Filter(Each(s, f), q)
  {
    if s != [] {
      var front, last := s[..|s| - 1], s[|s| - 1];
      assert s == front + [last] && last in s;
      EachFilter(front, f, p, q);
      EachPlus(front, last, f);
      EachPlus(Filter(front, p), last, f);
      FilterConcat(Each(front, f), [f(last)], q);
      FilterOne(f(last), q);
    }
  }
}
