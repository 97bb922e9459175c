/** The in-memory shape of the file-backed stores: each store is one ordered
    list of records, looked up by first match, appended to, and updated by
    replacing the first record whose id matches. File reads and writes are
    abstracted away: a list value is the whole content of the store. */
module ListStore {
  import opened Wrappers

  /** The only failure of a store operation: `update` of an id that is not there. */
  datatype StoreError = NotFound

  /** No two records share a key. */
  ghost predicate UniqueKeys<T>(s: seq<T>, key: T -> string)
  {
    forall i, j :: 0 <= i < |s| && 0 <= j < |s| && i != j ==> key(s[i]) != key(s[j])
  }

  /** Appending a record whose key is new keeps keys unique. */
  lemma AppendKeepsUnique<T>(s: seq<T>, x: T, key: T -> string)
    requires UniqueKeys(s, key)
    requires forall j :: 0 <= j < |s| ==> key(s[j]) != key(x)
    ensures UniqueKeys(s + [x], key)
  {
    var r := s + [x];
    forall i, j | 0 <= i < |r| && 0 <= j < |r| && i != j
      ensures key(r[i]) != key(r[j])
    {
      if i < |s| && j < |s| {
        assert r[i] == s[i] && r[j] == s[j];
      }
    }
  }

  /** Index of the first record whose key is `k` (`Array.prototype.findIndex`). */
  function IndexOf<T>(s: seq<T>, key: T -> string, k: string): (r: Option<nat>)
    ensures r.Some? ==> r.value < |s| && key(s[r.value]) == k
    ensures r.Some? ==> forall j :: 0 <= j < r.value ==> key(s[j]) != k
    ensures r.None? <==> forall j :: 0 <= j < |s| ==> key(s[j]) != k
    decreases |s|
  {
    if |s| == 0 then None
    else if key(s[0]) == k then Some(0)
    else match IndexOf(s[1..], key, k)
      case None => None
      case Some(i) => Some(i + 1)
  }

  /** The first record whose key is `k`, or `None` (`find(...) ?? null`). */
  function FindFirst<T>(s: seq<T>, key: T -> string, k: string): (r: Option<T>)
    ensures r.None? <==> forall j :: 0 <= j < |s| ==> key(s[j]) != k
    ensures r.Some? ==> IndexOf(s, key, k).Some? && r.value == s[IndexOf(s, key, k).value]
    ensures r.Some? ==> key(r.value) == k && r.value in s
  {
    match IndexOf(s, key, k)
    case None => None
    case Some(i) => Some(s[i])
  }

  /** The records that satisfy `p`, in their original order (`filter`). */
  function Filter<T(!new)>(s: seq<T>, p: T -> bool): (r: seq<T>)
    ensures |r| <= |s|
    ensures forall x :: x in r <==> x in s && p(x)
    ensures forall x {:trigger multiset(r)[x]} :: multiset(r)[x] == if p(x) then multiset(s)[x] else 0
    decreases |s|
  {
    if |s| == 0 then []
    else
      var init := s[..|s| - 1];
      var last := s[|s| - 1];
      assert s == init + [last];
      Filter(init, p) + (if p(last) then [last] else [])
  }

  /** Filtering distributes over concatenation, so it keeps the relative order
      of the records it keeps. */
  lemma {:induction false} FilterConcat<T(!new)>(a: seq<T>, b: seq<T>, p: T -> bool)
    ensures Filter(a + b, p) == Filter(a, p) + Filter(b, p)
    decreases |b|
  {
    if |b| == 0 {
      assert a + b == a;
    } else {
      var b' := b[..|b| - 1];
      var last := b[|b| - 1];
      var tail := if p(last) then [last] else [];
      var ab := a + b;
      assert ab[..|ab| - 1] == a + b';
      assert ab[|ab| - 1] == last;
      calc {
        Filter(ab, p);
        Filter(a + b', p) + tail;
        { FilterConcat(a, b', p); }
        (Filter(a, p) + Filter(b', p)) + tail;
        Filter(a, p) + (Filter(b', p) + tail);
        Filter(a, p) + Filter(b, p);
      }
    }
  }

  /** Two filters in a row keep what their conjunction keeps. */
  lemma {:induction false} FilterFilter<T(!new)>(s: seq<T>, p: T -> bool, q: T -> bool, pq: T -> bool)
    requires forall x :: pq(x) == (p(x) && q(x))
    ensures Filter(Filter(s, p), q) == Filter(s, pq)
    decreases |s|
  {
    if |s| > 0 {
      var init := s[..|s| - 1];
      var last := s[|s| - 1];
      FilterFilter(init, p, q, pq);
      FilterConcat(Filter(init, p), if p(last) then [last] else [], q);
    }
  }

  /** A store write that adds one record at the end (`push` then rewrite). */
  function Append<T>(s: seq<T>, x: T): (r: seq<T>)
    ensures |r| == |s| + 1 && r[|s|] == x
    ensures forall j :: 0 <= j < |s| ==> r[j] == s[j]
  {
    s + [x]
  }

  /** Whole-record replace of the first record with the same key as `x`;
      `NotFound`, and nothing written, when there is none. */
  function Update<T>(s: seq<T>, key: T -> string, x: T): (r: Result<seq<T>, StoreError>)
    ensures r.Err? <==> forall j :: 0 <= j < |s| ==> key(s[j]) != key(x)
    ensures r.Ok? ==> IndexOf(s, key, key(x)).Some?
    ensures r.Ok? ==>
              var i := IndexOf(s, key, key(x)).value;
              |r.value| == |s| && r.value[i] == x
              && forall j :: 0 <= j < |s| && j != i ==> r.value[j] == s[j]
  {
    match IndexOf(s, key, key(x))
    case None => Err(NotFound)
    case Some(i) => Ok(s[i := x])
  }

  /** After an update, looking the key up finds the record just written. */
  lemma UpdateLuegoFind<T>(s: seq<T>, key: T -> string, x: T)
    requires Update(s, key, x).Ok?
    ensures FindFirst(Update(s, key, x).value, key, key(x)) == Some(x)
  {
    var i := IndexOf(s, key, key(x)).value;
    var r := Update(s, key, x).value;
    assert key(r[i]) == key(x);
    assert forall j :: 0 <= j < i ==> r[j] == s[j];
    assert IndexOf(r, key, key(x)) == Some(i);
  }

  /** A record appended under a fresh key is what a lookup of that key finds. */
  lemma AppendLuegoFind<T>(s: seq<T>, key: T -> string, x: T)
    requires forall j :: 0 <= j < |s| ==> key(s[j]) != key(x)
    ensures FindFirst(Append(s, x), key, key(x)) == Some(x)
  {
    var r := Append(s, x);
    assert IndexOf(r, key, key(x)) == Some(|s|);
  }

  /** Appending never hides an earlier record from a lookup. */
  lemma AppendConservaFind<T>(s: seq<T>, key: T -> string, x: T, k: string)
    requires FindFirst(s, key, k).Some?
    ensures FindFirst(Append(s, x), key, k) == FindFirst(s, key, k)
  {
    var i := IndexOf(s, key, k).value;
    var r := Append(s, x);
    assert IndexOf(r, key, k) == Some(i);
  }

  /** What a loop step leaves in place of `x`: its replacement, or `x` itself. */
  function Effect<T>(step: T -> Option<T>, x: T): T
  {
    match step(x)
    case Some(y) => y
    case None => x
  }

  /** The maintenance loop shape: walk a snapshot of the store and, for each
      record the step rewrites, `Update` the current store with the rewrite.
      The first failed update aborts the loop. */
  function Apply<T>(snap: seq<T>, cur: seq<T>, key: T -> string, step: T -> Option<T>): (r: Result<seq<T>, StoreError>)
    ensures r.Ok? ==> |r.value| == |cur|
    decreases |snap|
  {
    if |snap| == 0 then Ok(cur)
    else match step(snap[0])
      case None => Apply(snap[1..], cur, key, step)
      case Some(y) =>
        match Update(cur, key, y)
        case Err(e) => Err(e)
        case Ok(next) => Apply(snap[1..], next, key, step)
  }

  /** The loop never fails when every snapshot record's key is in the store
      and the step keeps keys: each update finds its record. */
  lemma {:induction false} ApplyOk<T>(snap: seq<T>, cur: seq<T>, key: T -> string, step: T -> Option<T>)
    requires forall x :: step(x).Some? ==> key(step(x).value) == key(x)
    requires forall x :: x in snap ==> exists i :: 0 <= i < |cur| && key(cur[i]) == key(x)
    ensures Apply(snap, cur, key, step).Ok?
    decreases |snap|
  {
    if |snap| > 0 {
      assert snap[0] in snap;
      assert forall x :: x in snap[1..] ==> x in snap;
      match step(snap[0])
      case None =>
        ApplyOk(snap[1..], cur, key, step);
      case Some(y) =>
        var next := Update(cur, key, y).value;
        var k := IndexOf(cur, key, key(y)).value;
        forall x | x in snap[1..]
          ensures exists i :: 0 <= i < |next| && key(next[i]) == key(x)
        {
          var i :| 0 <= i < |cur| && key(cur[i]) == key(x);
          if i == k {
            assert key(next[k]) == key(x);
          } else {
            assert key(next[i]) == key(x);
          }
        }
        ApplyOk(snap[1..], next, key, step);
    }
  }

  /** When keys are unique and the step keeps keys, the loop is a pointwise map:
      every record of the snapshot (or already done) is replaced by its
      effect at its own position, and every other record is untouched. */
  lemma {:induction false} ApplyIsPointwise<T>(base: seq<T>, done: seq<T>, snap: seq<T>, cur: seq<T>,
                                                key: T -> string, step: T -> Option<T>)
    requires UniqueKeys(base, key)
    requires forall x :: x in snap ==> x in base
    requires forall x :: step(x).Some? ==> key(step(x).value) == key(x)
    requires |cur| == |base|
    requires forall i :: 0 <= i < |base| ==> cur[i] == if base[i] in done then Effect(step, base[i]) else base[i]
    ensures Apply(snap, cur, key, step).Ok?
    ensures |Apply(snap, cur, key, step).value| == |base|
    ensures forall i :: 0 <= i < |base| ==>
              Apply(snap, cur, key, step).value[i] == if base[i] in done + snap then Effect(step, base[i]) else base[i]
    decreases |snap|
  {
    if |snap| == 0 {
      assert done + snap == done;
    } else {
      var x := snap[0];
      var done' := done + [x];
      assert snap == [x] + snap[1..];
      assert done + snap == done' + snap[1..];
      assert x in base;
      var j :| 0 <= j < |base| && base[j] == x;
      assert forall i :: 0 <= i < |base| ==> key(cur[i]) == key(base[i]);
      match step(x)
      case None =>
        forall i | 0 <= i < |base|
          ensures cur[i] == if base[i] in done' then Effect(step, base[i]) else base[i]
        {
          if base[i] == x {
            assert Effect(step, base[i]) == base[i];
          }
        }
        ApplyIsPointwise(base, done', snap[1..], cur, key, step);
      case Some(y) =>
        assert key(y) == key(x);
        var idx := IndexOf(cur, key, key(y));
        assert idx.Some? && idx.value == j by {
          assert key(cur[j]) == key(y);
        }
        var next := Update(cur, key, y).value;
        assert forall i :: 0 <= i < |base| ==> next[i] == if base[i] in done' then Effect(step, base[i]) else base[i];
        ApplyIsPointwise(base, done', snap[1..], next, key, step);
    }
  }
}
