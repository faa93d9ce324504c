/** Shared vocabulary: an optional value, Python's `str.join`, and Python's
    insertion-ordered `dict`, modelled as an association list. */
module Common {

  datatype Option<+T> = None | Some(value: T) {
    /** `d.get(key, default)` once the lookup has produced this option. */
    function GetOr(default: T): T {
      match this
      case Some(v) => v
      case None => default
    }
  }

  /** `sep.join(parts)`. */
  function Join(parts: seq<string>, sep: string): string
  {
    if |parts| == 0 then ""
    else if |parts| == 1 then parts[0]
    else parts[0] + sep + Join(parts[1..], sep)
  }

  /** Inserting `t` before a final empty piece appends `t` and a separator. */
  lemma {:induction false} JoinBeforeEmpty(xs: seq<string>, t: string, sep: string)
    ensures Join(xs + [t, ""], sep) == Join(xs + [""], sep) + t + sep
  {
    if |xs| > 0 {
      assert (xs + [t, ""])[1..] == xs[1..] + [t, ""];
      assert (xs + [""])[1..] == xs[1..] + [""];
      JoinBeforeEmpty(xs[1..], t, sep);
    } else {
      assert xs + [t, ""] == [t, ""];
      assert [t, ""][1..] == [""];
    }
  }

  /** Flattening a list of lists, left to right. */
  function Concat<T>(xss: seq<seq<T>>): seq<T>
  {
    if |xss| == 0 then [] else Concat(xss[..|xss| - 1]) + xss[|xss| - 1]
  }

  lemma {:induction false} ConcatAppend<T>(a: seq<seq<T>>, b: seq<seq<T>>)
    ensures Concat(a + b) == Concat(a) + Concat(b)
  {
    if |b| == 0 {
      assert a + b == a;
    } else {
      var init := b[..|b| - 1];
      var x := b[|b| - 1];
      assert a + b == (a + init) + [x];
      assert ((a + init) + [x])[..|a + init|] == a + init;
      ConcatAppend(a, init);
      assert Concat(a + b) == (Concat(a) + Concat(init)) + x;
    }
  }

  /** The pieces `f` gives for each element, joined in order. */
  function ConcatMap<A, X>(xs: seq<A>, f: A -> seq<X>): seq<X>
  {
    if |xs| == 0 then [] else ConcatMap(xs[..|xs| - 1], f) + f(xs[|xs| - 1])
  }

  lemma {:induction false} ConcatMapAppend<A, X>(a: seq<A>, b: seq<A>, f: A -> seq<X>)
    ensures ConcatMap(a + b, f) == ConcatMap(a, f) + ConcatMap(b, f)
  {
    if |b| == 0 {
      assert a + b == a;
    } else {
      var init := b[..|b| - 1];
      var x := b[|b| - 1];
      var ab := a + b;
      assert ab[..|ab| - 1] == a + init;
      assert ab[|ab| - 1] == x;
      ConcatMapAppend(a, init, f);
      assert ConcatMap(ab, f) == ConcatMap(a + init, f) + f(x);
      assert ConcatMap(b, f) == ConcatMap(init, f) + f(x);
    }
  }

  /** One more element of a prefix. */
  lemma ConcatMapPrefix<A, X>(xs: seq<A>, f: A -> seq<X>, i: nat)
    requires i < |xs|
    ensures ConcatMap(xs[..i + 1], f) == ConcatMap(xs[..i], f) + f(xs[i])
  {
    assert xs[..i + 1][..i] == xs[..i];
  }

  /** The pieces of the elements before, at and after position `i`. */
  lemma ConcatMapAround<A, X>(xs: seq<A>, f: A -> seq<X>, i: nat)
    requires i < |xs|
    ensures ConcatMap(xs, f) == ConcatMap(xs[..i], f) + f(xs[i]) + ConcatMap(xs[i + 1..], f)
  {
    assert xs == xs[..i + 1] + xs[i + 1..];
    ConcatMapAppend(xs[..i + 1], xs[i + 1..], f);
    ConcatMapPrefix(xs, f, i);
  }

  lemma AppendAssoc<X>(x: seq<X>, a: seq<X>, b: seq<X>, c: seq<X>)
    ensures x + (a + b + c) == (x + a) + b + c
  {
  }

  lemma AppendAssoc3<X>(a: seq<X>, b: seq<X>, c: seq<X>)
    ensures (a + b) + c == a + (b + c)
  {
  }

  /** Replacing an appended element, appending more, then replacing it
      again. */
  lemma ReplaceAppended<X>(a: seq<X>, x: X, y: X, z: X, rest: seq<X>)
    ensures ((a + [x])[|a| := y] + rest)[|a| := z] == a + ([z] + rest)
  {
  }

  /** Pieces of equal lengths join to equal lengths. */
  lemma {:induction false} ConcatMapSameLength<A, X, Y>(xs: seq<A>, f: A -> seq<X>, g: A -> seq<Y>)
    requires forall a :: |f(a)| == |g(a)|
    ensures |ConcatMap(xs, f)| == |ConcatMap(xs, g)|
  {
    if |xs| > 0 {
      ConcatMapSameLength(xs[..|xs| - 1], f, g);
    }
  }

  // ---------------------------------------------------------------------
  // Python dict: keys in order of first insertion, the latest value wins.
  // ---------------------------------------------------------------------

  type Dict<V> = seq<(string, V)>

  ghost predicate UniqueKeys<V>(d: Dict<V>)
  {
    forall i, j :: 0 <= i < j < |d| ==> d[i].0 != d[j].0
  }

  /** The keys in iteration order (`d.keys()`). */
  function Keys<V>(d: Dict<V>): seq<string>
  {
    if |d| == 0 then [] else [d[0].0] + Keys(d[1..])
  }

  /** `d.get(k)`: the value stored under `k`, if any. */
  function Get<V>(d: Dict<V>, k: string): (r: Option<V>)
    ensures r.None? <==> k !in Keys(d)
  {
    if |d| == 0 then None
    else if d[0].0 == k then Some(d[0].1)
    else Get(d[1..], k)
  }

  /** `d[k] = v`: an existing key keeps its position and takes the new value;
      a new key is appended at the end. */
  function Put<V>(d: Dict<V>, k: string, v: V): (r: Dict<V>)
    ensures Get(r, k) == Some(v)
    ensures forall k' :: k' != k ==> Get(r, k') == Get(d, k')
    ensures Keys(r) == if k in Keys(d) then Keys(d) else Keys(d) + [k]
    ensures |r| <= |d| + 1
  {
    if |d| == 0 then [(k, v)]
    else if d[0].0 == k then
      var r := [(k, v)] + d[1..];
      assert r[1..] == d[1..];
      r
    else
      var rest := Put(d[1..], k, v);
      var r := [d[0]] + rest;
      assert r[1..] == rest;
      r
  }

  /** Keys stay unique under `d[k] = v`. */
  lemma PutKeepsUnique<V>(d: Dict<V>, k: string, v: V)
    requires UniqueKeys(d)
    ensures UniqueKeys(Put(d, k, v))
  {
    var r := Put(d, k, v);
    KeysIndex(d);
    KeysIndex(r);
    forall i, j | 0 <= i < j < |r| ensures r[i].0 != r[j].0 {
      assert Keys(r)[i] == r[i].0 && Keys(r)[j] == r[j].0;
      if j < |d| {
        assert Keys(d)[i] == d[i].0 && Keys(d)[j] == d[j].0;
      } else {
        assert Keys(r)[j] == k && k !in Keys(d);
        assert Keys(d)[i] == d[i].0;
      }
    }
  }

  /** Insert every pair of `items`, left to right, into `d`. */
  function PutAll<V>(d: Dict<V>, items: seq<(string, V)>): Dict<V>
  {
    if |items| == 0 then d
    else
      var last := items[|items| - 1];
      Put(PutAll(d, items[..|items| - 1]), last.0, last.1)
  }

  /** `dict(items)`. */
  function FromItems<V>(items: seq<(string, V)>): Dict<V>
  {
    PutAll([], items)
  }

  /** The value of the last pair of `items` whose key is `k`. */
  function LastValue<V>(items: seq<(string, V)>, k: string): Option<V>
  {
    if |items| == 0 then None
    else if items[|items| - 1].0 == k then Some(items[|items| - 1].1)
    else LastValue(items[..|items| - 1], k)
  }

  lemma {:induction false} KeysIndex<V>(d: Dict<V>)
    ensures |Keys(d)| == |d|
    ensures forall i :: 0 <= i < |d| ==> Keys(d)[i] == d[i].0
  {
    if |d| > 0 {
      KeysIndex(d[1..]);
    }
  }

  /** `dict(items)` has unique keys and maps every key to the value of its
      LAST occurrence in `items`; keys never seen are absent. */
  lemma {:induction false} FromItemsLastWins<V>(items: seq<(string, V)>, k: string)
    ensures UniqueKeys(FromItems(items))
    ensures Get(FromItems(items), k) == LastValue(items, k)
  {
    if |items| > 0 {
      var last := items[|items| - 1];
      FromItemsLastWins(items[..|items| - 1], k);
      PutKeepsUnique(FromItems(items[..|items| - 1]), last.0, last.1);
    }
  }

  lemma {:induction false} PutAllAppend<V>(d: Dict<V>, a: seq<(string, V)>, b: seq<(string, V)>)
    ensures PutAll(d, a + b) == PutAll(PutAll(d, a), b)
  {
    if |b| == 0 {
      assert a + b == a;
    } else {
      assert (a + b)[..|a + b| - 1] == a + b[..|b| - 1];
      PutAllAppend(d, a, b[..|b| - 1]);
    }
  }

  lemma {:induction false} KeysAppend<V>(a: Dict<V>, b: Dict<V>)
    ensures Keys(a + b) == Keys(a) + Keys(b)
  {
    if |a| > 0 {
      assert (a + b)[1..] == a[1..] + b;
      KeysAppend(a[1..], b);
    } else {
      assert a + b == b;
    }
  }

  /** A dict read back through `dict(...)` is itself. */
  lemma {:induction false} FromItemsOfDict<V>(d: Dict<V>)
    requires UniqueKeys(d)
    ensures FromItems(d) == d
  {
    if |d| > 0 {
      var init := d[..|d| - 1];
      assert UniqueKeys(init);
      FromItemsOfDict(init);
      KeysIndex(init);
      var k := d[|d| - 1].0;
      assert k !in Keys(init);
      PutFresh(init, k, d[|d| - 1].1);
      assert init + [(k, d[|d| - 1].1)] == d;
    }
  }

  lemma {:induction false} PutFresh<V>(d: Dict<V>, k: string, v: V)
    requires k !in Keys(d)
    ensures Put(d, k, v) == d + [(k, v)]
  {
    if |d| > 0 {
      PutFresh(d[1..], k, v);
      assert [d[0]] + (d[1..] + [(k, v)]) == d + [(k, v)];
    }
  }

  /** The last pair for `k` in `x + y` is in `y` if `y` has one. */
  lemma {:induction false} LastValueAppend<V>(x: seq<(string, V)>, y: seq<(string, V)>, k: string)
    ensures LastValue(x + y, k) == if LastValue(y, k).Some? then LastValue(y, k) else LastValue(x, k)
  {
    if |y| == 0 {
      assert x + y == x;
    } else {
      assert (x + y)[..|x + y| - 1] == x + y[..|y| - 1];
      LastValueAppend(x, y[..|y| - 1], k);
    }
  }

  /** `k` has a last pair exactly when some pair has key `k`. */
  lemma {:induction false} LastValueFound<V>(items: seq<(string, V)>, k: string)
    ensures LastValue(items, k).Some? <==> exists i :: 0 <= i < |items| && items[i].0 == k
  {
    if |items| > 0 {
      var init := items[..|items| - 1];
      LastValueFound(init, k);
      assert forall i :: 0 <= i < |init| ==> init[i] == items[i];
    }
  }

  /** Reading `dict(items)` back as pairs loses nothing: the last pair for
      each key is the one `dict` kept. */
  lemma LastValueOfFromItems<V>(items: seq<(string, V)>, k: string)
    ensures LastValue(FromItems(items), k) == LastValue(items, k)
  {
    FromItemsLastWins(items, k);
    LastValueOfUnique(FromItems(items), k);
  }

  lemma {:induction false} LastValueOfUnique<V>(d: Dict<V>, k: string)
    requires UniqueKeys(d)
    ensures LastValue(d, k) == Get(d, k)
  {
    if |d| > 0 {
      var rest := d[1..];
      assert UniqueKeys(rest);
      LastValueOfUnique(rest, k);
      LastValueAppend([d[0]], rest, k);
      assert [d[0]] + rest == d;
      if d[0].0 == k {
        LastValueFound(rest, k);
        assert LastValue(rest, k).None?;
      }
    }
  }
}
