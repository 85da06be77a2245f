/** Grouping a sequence by a key, as the modelled code does by filling a JavaScript
    `Map` in one pass: the map's keys come out in order of first appearance, and
    each key's entry lists the matching elements in their original order. */
module Grouping {

  predicate Distinct<K(==)>(ks: seq<K>) {
    forall i, j :: 0 <= i < j < |ks| ==> ks[i] != ks[j]
  }

  /** The keys of s, each once, in order of first appearance. */
  function KeysInOrder<T, K(==)>(s: seq<T>, key: T -> K): (ks: seq<K>)
    ensures |ks| <= |s|
  {
    if s == [] then []
    else
      var p := KeysInOrder(s[..|s| - 1], key);
      var k := key(s[|s| - 1]);
      if k in p then p else p + [k]
  }

  /** The key list names each key once, names the key of every element, and names
      no key that no element has. */
  lemma {:induction false} KeysInOrderSpec<T, K>(s: seq<T>, key: T -> K)
    ensures Distinct(KeysInOrder(s, key))
    ensures forall i :: 0 <= i < |s| ==> key(s[i]) in KeysInOrder(s, key)
    ensures forall k :: k in KeysInOrder(s, key) ==> exists i :: 0 <= i < |s| && key(s[i]) == k
  {
    if s != [] {
      var init := s[..|s| - 1];
      KeysInOrderSpec(init, key);
      forall k | k in KeysInOrder(s, key)
        ensures exists i :: 0 <= i < |s| && key(s[i]) == k
      {
        if k in KeysInOrder(init, key) {
          var i :| 0 <= i < |init| && key(init[i]) == k;
          assert s[i] == init[i];
        } else {
          assert key(s[|s| - 1]) == k;
        }
      }
      forall i | 0 <= i < |s|
        ensures key(s[i]) in KeysInOrder(s, key)
      {
        if i < |init| {
          assert s[i] == init[i];
        }
      }
    }
  }

  /** The elements of s whose key is k, in order (`s.filter(x => key(x) === k)`). */
  function Group<T, K(==)>(s: seq<T>, key: T -> K, k: K): (g: seq<T>)
    ensures |g| <= |s|
  {
    if s == [] then []
    else
      var p := Group(s[..|s| - 1], key, k);
      var x := s[|s| - 1];
      if key(x) == k then p + [x] else p
  }

  /** A group holds exactly the elements of s that have its key. */
  lemma {:induction false} GroupMembers<T, K>(s: seq<T>, key: T -> K, k: K)
    ensures forall x :: x in Group(s, key, k) <==> x in s && key(x) == k
  {
    if s != [] {
      var init := s[..|s| - 1];
      GroupMembers(init, key, k);
      assert s == init + [s[|s| - 1]];
    }
  }

  /** One more element: its key joins the end of the key list when it is new. */
  lemma KeysInOrderSnoc<T, K>(s: seq<T>, x: T, key: T -> K)
    ensures KeysInOrder(s + [x], key)
         == if key(x) in KeysInOrder(s, key) then KeysInOrder(s, key) else KeysInOrder(s, key) + [key(x)]
  {
    assert (s + [x])[..|s + [x]| - 1] == s;
  }

  /** The next prefix of s is the current one and the element after it. */
  lemma PrefixSnoc<T>(s: seq<T>, i: nat)
    requires i < |s|
    ensures s[..i + 1] == s[..i] + [s[i]]
  {
  }

  /** One more element joins the end of its own key's group and no other. */
  lemma GroupSnoc<T, K>(s: seq<T>, x: T, key: T -> K, k: K)
    ensures Group(s + [x], key, k) == if key(x) == k then Group(s, key, k) + [x] else Group(s, key, k)
  {
    assert (s + [x])[..|s + [x]| - 1] == s;
  }

  /** The state of a one-pass grouping into a map after the elements s: the keys
      seen so far in insertion order, and for each key the elements with it. */
  ghost predicate GroupedInto<T, K>(byKey: map<K, seq<T>>, ks: seq<K>, s: seq<T>, key: T -> K) {
    && ks == KeysInOrder(s, key)
    && (forall k :: k in byKey ==> k in ks && byKey[k] == Group(s, key, k))
    && (forall i :: 0 <= i < |ks| ==> ks[i] in byKey)
  }

  /** Adding x to its key's entry keeps the map a grouping of the longer sequence. */
  lemma GroupedIntoStep<T, K>(byKey: map<K, seq<T>>, ks: seq<K>, s: seq<T>, x: T, key: T -> K)
    requires GroupedInto(byKey, ks, s, key)
    ensures GroupedInto(byKey[key(x) := (if key(x) in byKey then byKey[key(x)] else []) + [x]],
                        if key(x) in byKey then ks else ks + [key(x)], s + [x], key)
  {
    var k0 := key(x);
    var m := byKey[k0 := (if k0 in byKey then byKey[k0] else []) + [x]];
    var ks' := if k0 in byKey then ks else ks + [k0];
    GroupedIntoKeysStep(byKey, ks, s, x, key, ks');
    GroupedIntoEntriesStep(byKey, ks, s, x, key, m, ks');
    GroupedIntoCoverStep(byKey, ks, s, x, key, m, ks');
  }

  /** The key list grows by the new key exactly when the map lacks it. */
  lemma GroupedIntoKeysStep<T, K>(byKey: map<K, seq<T>>, ks: seq<K>, s: seq<T>, x: T, key: T -> K, ks': seq<K>)
    requires GroupedInto(byKey, ks, s, key)
    requires ks' == if key(x) in byKey then ks else ks + [key(x)]
    ensures ks' == KeysInOrder(s + [x], key)
  {
    var k0 := key(x);
    assert k0 in byKey <==> k0 in ks by {
      if k0 in ks {
        var i :| 0 <= i < |ks| && ks[i] == k0;
      }
    }
    KeysInOrderSnoc(s, x, key);
  }

  /** Every entry of the updated map is its key's group in the longer sequence. */
  lemma GroupedIntoEntriesStep<T, K>(byKey: map<K, seq<T>>, ks: seq<K>, s: seq<T>, x: T, key: T -> K,
                                     m: map<K, seq<T>>, ks': seq<K>)
    requires GroupedInto(byKey, ks, s, key)
    requires m == byKey[key(x) := (if key(x) in byKey then byKey[key(x)] else []) + [x]]
    requires ks' == if key(x) in byKey then ks else ks + [key(x)]
    ensures forall k :: k in m ==> k in ks' && m[k] == Group(s + [x], key, k)
  {
    forall k | k in m
      ensures k in ks' && m[k] == Group(s + [x], key, k)
    {
      GroupedIntoEntry(byKey, ks, s, x, key, k);
    }
  }

  /** Every key of the longer list has an entry in the updated map. */
  lemma GroupedIntoCoverStep<T, K>(byKey: map<K, seq<T>>, ks: seq<K>, s: seq<T>, x: T, key: T -> K,
                                   m: map<K, seq<T>>, ks': seq<K>)
    requires forall i :: 0 <= i < |ks| ==> ks[i] in byKey
    requires m == byKey[key(x) := (if key(x) in byKey then byKey[key(x)] else []) + [x]]
    requires ks' == if key(x) in byKey then ks else ks + [key(x)]
    ensures forall i :: 0 <= i < |ks'| ==> ks'[i] in m
  {
    forall i | 0 <= i < |ks'|
      ensures ks'[i] in m
    {
      if i < |ks| {
        assert ks'[i] == ks[i];
      }
    }
  }

  lemma GroupedIntoEntry<T, K>(byKey: map<K, seq<T>>, ks: seq<K>, s: seq<T>, x: T, key: T -> K, k: K)
    requires GroupedInto(byKey, ks, s, key)
    requires k in byKey || k == key(x)
    ensures (if k == key(x) then (if k in byKey then byKey[k] else []) + [x] else byKey[k]) == Group(s + [x], key, k)
  {
    GroupSnoc(s, x, key, k);
    if k !in byKey {
      GroupOfAbsentKey(s, key, k);
    }
  }

  /** The total size of the groups of the keys ks. */
  function SumGroupSizes<T, K(==)>(ks: seq<K>, s: seq<T>, key: T -> K): nat {
    if ks == [] then 0 else |Group(s, key, ks[0])| + SumGroupSizes(ks[1..], s, key)
  }

  /** No element has a key outside KeysInOrder, so such a key has an empty group. */
  lemma {:induction false} GroupOfAbsentKey<T, K>(s: seq<T>, key: T -> K, k: K)
    requires k !in KeysInOrder(s, key)
    ensures Group(s, key, k) == []
  {
    if s != [] {
      KeysInOrderSpec(s, key);
      assert key(s[|s| - 1]) in KeysInOrder(s, key);
      GroupOfAbsentKey(s[..|s| - 1], key, k);
    }
  }

  lemma {:induction false} SumGroupSizesSnoc<T, K>(ks: seq<K>, k: K, s: seq<T>, key: T -> K)
    ensures SumGroupSizes(ks + [k], s, key) == SumGroupSizes(ks, s, key) + |Group(s, key, k)|
  {
    if ks != [] {
      assert (ks + [k])[1..] == ks[1..] + [k];
      SumGroupSizesSnoc(ks[1..], k, s, key);
    }
  }

  /** The last key's group size is added last. */
  lemma SumGroupSizesLast<T, K>(ks: seq<K>, s: seq<T>, key: T -> K)
    requires ks != []
    ensures SumGroupSizes(ks, s, key) == SumGroupSizes(ks[..|ks| - 1], s, key) + |Group(s, key, ks[|ks| - 1])|
  {
    var n := |ks| - 1;
    assert ks[..n] + [ks[n]] == ks;
    SumGroupSizesSnoc(ks[..n], ks[n], s, key);
  }

  lemma {:induction false} SumGroupSizesAppend<T, K>(ks: seq<K>, s: seq<T>, x: T, key: T -> K)
    requires Distinct(ks)
    ensures SumGroupSizes(ks, s + [x], key)
         == SumGroupSizes(ks, s, key) + (if key(x) in ks then 1 else 0)
  {
    if ks != [] {
      assert (s + [x])[..|s + [x]| - 1] == s;
      assert key(x) in ks[1..] ==> key(x) != ks[0];
      assert key(x) in ks <==> key(x) == ks[0] || key(x) in ks[1..];
      SumGroupSizesAppend(ks[1..], s, x, key);
    }
  }

  /** Every element lands in exactly one group: the group sizes add up to |s|. */
  lemma {:induction false} GroupSizesAddUp<T, K>(s: seq<T>, key: T -> K)
    ensures SumGroupSizes(KeysInOrder(s, key), s, key) == |s|
  {
    if s != [] {
      var p, x := s[..|s| - 1], s[|s| - 1];
      assert s == p + [x];
      var ks := KeysInOrder(p, key);
      KeysInOrderSpec(p, key);
      GroupSizesAddUp(p, key);
      SumGroupSizesAppend(ks, p, x, key);
      if key(x) !in ks {
        SumGroupSizesSnoc(ks, key(x), s, key);
        GroupOfAbsentKey(p, key, key(x));
      }
    }
  }
}
