/** The array operations the hooks are built from: `filter`, `map` with a
    conditional replacement, `find`, and `reverse`, over immutable sequences,
    together with the facts the rest of the model needs about them. */
module Lists {
  import opened Wrappers

  /** `s.filter(p)`: the elements of `s` that satisfy `p`, in their original order. */
  function Keep<T(==,!new)>(s: seq<T>, p: T -> bool): (r: seq<T>)
    ensures |r| <= |s|
    ensures forall x :: x in r <==> x in s && p(x)
  {
    if s == [] then []
    else
      assert s == [s[0]] + s[1..];
      (if p(s[0]) then [s[0]] else []) + Keep(s[1..], p)
  }

  /** A filter keeps every element that satisfies it as often as it occurs, and no other. */
  lemma {:induction false} KeepMultiset<T(!new)>(s: seq<T>, p: T -> bool)
    ensures forall x :: multiset(Keep(s, p))[x] == if p(x) then multiset(s)[x] else 0
  {
    if s != [] {
      assert s == [s[0]] + s[1..];
      KeepMultiset(s[1..], p);
    }
  }

  /** Filtering distributes over concatenation: the survivors keep their relative order. */
  lemma {:induction false} KeepAppend<T(!new)>(a: seq<T>, b: seq<T>, p: T -> bool)
    ensures Keep(a + b, p) == Keep(a, p) + Keep(b, p)
  {
    if a == [] {
      assert a + b == b;
    } else {
      assert (a + b)[0] == a[0];
      assert (a + b)[1..] == a[1..] + b;
      KeepAppend(a[1..], b, p);
    }
  }

  /** A filter that rejects nothing returns its input unchanged. */
  lemma {:induction false} KeepAll<T(!new)>(s: seq<T>, p: T -> bool)
    requires forall x :: x in s ==> p(x)
    ensures Keep(s, p) == s
  {
    if s != [] {
      KeepAll(s[1..], p);
    }
  }

  /** Two filters that agree on the elements of `s` return the same sequence. */
  lemma {:induction false} KeepSame<T(!new)>(s: seq<T>, p: T -> bool, q: T -> bool)
    requires forall x :: x in s ==> p(x) == q(x)
    ensures Keep(s, p) == Keep(s, q)
  {
    if s != [] {
      KeepSame(s[1..], p, q);
    }
  }

  /** A weaker filter keeps at least as many elements. */
  lemma {:induction false} KeepMonotone<T(!new)>(s: seq<T>, p: T -> bool, q: T -> bool)
    requires forall x :: x in s && p(x) ==> q(x)
    ensures |Keep(s, p)| <= |Keep(s, q)|
  {
    if s != [] {
      KeepMonotone(s[1..], p, q);
    }
  }

  /** `s.map(x => p(x) ? f(x) : x)`: rewrite exactly the elements that satisfy `p`. */
  function MapWhere<T>(s: seq<T>, p: T -> bool, f: T -> T): (r: seq<T>)
    ensures |r| == |s|
    ensures forall i :: 0 <= i < |s| ==> r[i] == if p(s[i]) then f(s[i]) else s[i]
  {
    if s == [] then [] else [if p(s[0]) then f(s[0]) else s[0]] + MapWhere(s[1..], p, f)
  }

  /** A conditional map whose condition holds nowhere is the identity. */
  lemma MapWhereNone<T>(s: seq<T>, p: T -> bool, f: T -> T)
    requires forall x :: x in s ==> !p(x)
    ensures MapWhere(s, p, f) == s
  {
    var r := MapWhere(s, p, f);
    assert forall i :: 0 <= i < |s| ==> r[i] == s[i];
  }

  /** The position of the first element with the given key, or |s| when there is none. */
  function FirstIndex<T, K(==)>(s: seq<T>, key: T -> K, id: K): (k: nat)
    ensures k <= |s|
    ensures forall j :: 0 <= j < k ==> key(s[j]) != id
    ensures k < |s| ==> key(s[k]) == id
  {
    if s == [] then 0
    else if key(s[0]) == id then 0
    else 1 + FirstIndex(s[1..], key, id)
  }

  /** `s.find(x => key(x) === id)`: the first element with the given key, if any. */
  function FindByKey<T(==), K(==)>(s: seq<T>, key: T -> K, id: K): (r: Option<T>)
    ensures r.None? <==> forall x :: x in s ==> key(x) != id
    ensures r.Some? ==> exists i :: 0 <= i < |s| && s[i] == r.value && key(s[i]) == id &&
                          forall j :: 0 <= j < i ==> key(s[j]) != id
  {
    var k := FirstIndex(s, key, id);
    if k < |s| then Some(s[k]) else None
  }

  /** `s.filter(x => key(x) !== id)`: drop every element carrying the key `id`. */
  function RemoveByKey<T(==,!new), K(==)>(s: seq<T>, key: T -> K, id: K): (r: seq<T>)
    ensures forall x :: multiset(r)[x] == if key(x) == id then 0 else multiset(s)[x]
    ensures forall x :: x in r <==> x in s && key(x) != id
  {
    KeepMultiset(s, x => key(x) != id);
    Keep(s, x => key(x) != id)
  }

  /** Removing from a concatenation removes from each part, preserving the order of the rest. */
  lemma RemoveByKeyAppend<T(!new), K>(a: seq<T>, b: seq<T>, key: T -> K, id: K)
    ensures RemoveByKey(a + b, key, id) == RemoveByKey(a, key, id) + RemoveByKey(b, key, id)
  {
    KeepAppend(a, b, x => key(x) != id);
  }

  /** Removing a key that no element carries changes nothing. */
  lemma RemoveByKeyAbsent<T(!new), K>(s: seq<T>, key: T -> K, id: K)
    requires forall x :: x in s ==> key(x) != id
    ensures RemoveByKey(s, key, id) == s
  {
    KeepAll(s, x => key(x) != id);
  }

  /** Removing twice is removing once. */
  lemma RemoveByKeyIdempotent<T(!new), K>(s: seq<T>, key: T -> K, id: K)
    ensures RemoveByKey(RemoveByKey(s, key, id), key, id) == RemoveByKey(s, key, id)
  {
    RemoveByKeyAbsent(RemoveByKey(s, key, id), key, id);
  }

  /** `s.map(y => key(y) === key(x) ? x : y)`: replace every element sharing x's key by x. */
  function ReplaceByKey<T, K(==)>(s: seq<T>, key: T -> K, x: T): (r: seq<T>)
    ensures |r| == |s|
    ensures forall i :: 0 <= i < |s| ==> r[i] == if key(s[i]) == key(x) then x else s[i]
  {
    MapWhere(s, y => key(y) == key(x), y => x)
  }

  /** Replacing a key that no element carries changes nothing. */
  lemma ReplaceByKeyAbsent<T, K>(s: seq<T>, key: T -> K, x: T)
    requires forall y :: y in s ==> key(y) != key(x)
    ensures ReplaceByKey(s, key, x) == s
  {
    MapWhereNone(s, y => key(y) == key(x), y => x);
  }

  /** Replacing is idempotent, and x occurs afterwards exactly when its key occurred before. */
  lemma ReplaceByKeyIdempotent<T, K>(s: seq<T>, key: T -> K, x: T)
    ensures ReplaceByKey(ReplaceByKey(s, key, x), key, x) == ReplaceByKey(s, key, x)
    ensures (x in ReplaceByKey(s, key, x)) <==> exists y :: y in s && key(y) == key(x)
  {
    var r := ReplaceByKey(s, key, x);
    var rr := ReplaceByKey(r, key, x);
    assert forall i :: 0 <= i < |s| ==> rr[i] == r[i];
    if exists y :: y in s && key(y) == key(x) {
      var y :| y in s && key(y) == key(x);
      var i :| 0 <= i < |s| && s[i] == y;
      assert r[i] == x;
    }
  }

  /** `s.reverse()`, as a value. */
  function Reverse<T>(s: seq<T>): (r: seq<T>)
    ensures |r| == |s|
    ensures forall i :: 0 <= i < |s| ==> r[i] == s[|s| - 1 - i]
  {
    if s == [] then [] else Reverse(s[1..]) + [s[0]]
  }
}
