/** Python list operations on entities whose `__eq__` compares a key (an id, a
    name, or a pair of them): `x in s`, the guarded `append` that the link
    helpers use, and `list.remove`. */
module Lists {

  /** Some element of `s` has key `k`. */
  predicate HasKey<T, K(==, !new)>(s: seq<T>, k: K, key: T -> K)
  {
    exists i :: 0 <= i < |s| && key(s[i]) == k
  }

  /** `x in s`, where two elements are equal exactly when their keys are. */
  predicate Contains<T, K(==, !new)>(s: seq<T>, x: T, key: T -> K)
  {
    HasKey(s, key(x), key)
  }

  /** No two elements of `s` are equal. */
  predicate Distinct<T, K(==, !new)>(s: seq<T>, key: T -> K)
  {
    forall i, j :: 0 <= i < j < |s| ==> key(s[i]) != key(s[j])
  }

  /** `if x not in s: s.append(x)`. */
  function AddIfAbsent<T, K(==, !new)>(s: seq<T>, x: T, key: T -> K): (r: seq<T>)
    ensures Contains(r, x, key)
    ensures |s| <= |r| <= |s| + 1 && r[..|s|] == s
  {
    if Contains(s, x, key) then s else
      var r := s + [x];
      assert r[|s|] == x;
      r
  }

  /** The keys after the guarded `append` are the old ones and `x`'s, and a
      list without duplicates stays without them. */
  lemma AddIfAbsentKeys<T, K(!new)>(s: seq<T>, x: T, key: T -> K)
    ensures forall k :: HasKey(AddIfAbsent(s, x, key), k, key) <==> HasKey(s, k, key) || k == key(x)
    ensures Distinct(s, key) ==> Distinct(AddIfAbsent(s, x, key), key)
  {
    var r := AddIfAbsent(s, x, key);
    if !Contains(s, x, key) {
      assert r == s + [x];
      forall k | HasKey(r, k, key) ensures HasKey(s, k, key) || k == key(x) {
        var i :| 0 <= i < |r| && key(r[i]) == k;
        if i < |s| { assert r[i] == s[i]; }
      }
      forall k | HasKey(s, k, key) ensures HasKey(r, k, key) {
        var i :| 0 <= i < |s| && key(s[i]) == k;
        assert r[i] == s[i];
      }
    }
  }

  /** Adding an element that is already there changes nothing, so the helper
      is idempotent. */
  lemma {:induction false} AddIfAbsentIdempotent<T, K(!new)>(s: seq<T>, x: T, key: T -> K)
    ensures AddIfAbsent(AddIfAbsent(s, x, key), x, key) == AddIfAbsent(s, x, key)
  {
  }

  /** `AddIfAbsent` applied to each element of `xs` in turn. */
  function AddAll<T, K(==, !new)>(s: seq<T>, xs: seq<T>, key: T -> K): (r: seq<T>)
    ensures |s| <= |r| && r[..|s|] == s
    decreases |xs|
  {
    if |xs| == 0 then s
    else AddIfAbsent(AddAll(s, xs[..|xs| - 1], key), xs[|xs| - 1], key)
  }

  /** After adding every element of `xs`, the keys present are those of `s`
      and those of `xs`, and a list without duplicates stays without them. */
  lemma {:induction false} AddAllKeys<T, K(!new)>(s: seq<T>, xs: seq<T>, key: T -> K)
    ensures forall k :: HasKey(AddAll(s, xs, key), k, key) <==> HasKey(s, k, key) || HasKey(xs, k, key)
    ensures Distinct(s, key) ==> Distinct(AddAll(s, xs, key), key)
    decreases |xs|
  {
    if |xs| > 0 {
      var init := xs[..|xs| - 1];
      var x := xs[|xs| - 1];
      AddAllKeys(s, init, key);
      AddIfAbsentKeys(AddAll(s, init, key), x, key);
      forall k ensures HasKey(xs, k, key) <==> HasKey(init, k, key) || key(x) == k {
        if HasKey(xs, k, key) {
          var i :| 0 <= i < |xs| && key(xs[i]) == k;
          if i < |xs| - 1 { assert init[i] == xs[i]; }
        }
        if HasKey(init, k, key) {
          var i :| 0 <= i < |init| && key(init[i]) == k;
          assert xs[i] == init[i];
        }
      }
    }
  }

  /** One more element: `AddAll` of `xs + [x]` adds `x` last. */
  lemma AddAllSnoc<T, K(!new)>(s: seq<T>, xs: seq<T>, x: T, key: T -> K)
    ensures AddAll(s, xs + [x], key) == AddIfAbsent(AddAll(s, xs, key), x, key)
  {
    assert (xs + [x])[..|xs|] == xs;
  }

  /** The position `list.index` / `list.remove` finds: the first equal element,
      or `|s|` when there is none. */
  function IndexOf<T, K(==, !new)>(s: seq<T>, x: T, key: T -> K): (i: nat)
    ensures i <= |s|
    ensures i < |s| <==> Contains(s, x, key)
    ensures i < |s| ==> key(s[i]) == key(x)
    ensures forall j :: 0 <= j < i ==> key(s[j]) != key(x)
  {
    if |s| == 0 then 0
    else if key(s[0]) == key(x) then 0
    else
      var i := IndexOf(s[1..], x, key);
      assert forall j :: 1 <= j < 1 + i ==> s[j] == s[1..][j - 1];
      assert i < |s| - 1 ==> s[1 + i] == s[1..][i];
      assert Contains(s, x, key) ==> Contains(s[1..], x, key) by {
        if Contains(s, x, key) {
          var k :| 0 <= k < |s| && key(s[k]) == key(x);
          assert k > 0 && s[1..][k - 1] == s[k];
        }
      }
      1 + i
  }

  /** `if x in s: s.remove(x)`: the first equal element is dropped. */
  function RemoveFirst<T, K(==, !new)>(s: seq<T>, x: T, key: T -> K): (r: seq<T>)
    ensures !Contains(s, x, key) ==> r == s
    ensures Contains(s, x, key) ==> |r| == |s| - 1
    ensures forall k :: HasKey(r, k, key) ==> HasKey(s, k, key)
    ensures Distinct(s, key) ==> Distinct(r, key) && !Contains(r, x, key)
  {
    var i := IndexOf(s, x, key);
    if i == |s| then s
    else
      var r := s[..i] + s[i + 1..];
      assert forall j :: 0 <= j < |r| ==> r[j] == s[if j < i then j else j + 1];
      r
  }

  /** Removing what was just added restores the list: `remove` undoes a
      guarded `append` of a new element. */
  lemma {:induction false} RemoveUndoesAdd<T, K(!new)>(s: seq<T>, x: T, key: T -> K)
    requires !Contains(s, x, key)
    ensures RemoveFirst(AddIfAbsent(s, x, key), x, key) == s
  {
    var r := AddIfAbsent(s, x, key);
    assert r == s + [x];
    assert IndexOf(r, x, key) == |s|;
    assert r[..|s|] == s;
  }
}
