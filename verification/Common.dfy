/** Values shared by the models: options, JavaScript `Map`s and facts about sequences. */
module Common {
  datatype Option<+T> = None | Some(value: T)

  /** The set of the elements of a sequence. */
  function Elements<T(==)>(s: seq<T>): set<T> {
    set x | x in s
  }

  lemma ConcatAssoc<T>(a: seq<T>, b: seq<T>, c: seq<T>)
    ensures (a + b) + c == a + (b + c)
  {
  }

  /** Membership in a non-empty sequence, seen from its end. */
  lemma InFrontOrLast<T>(s: seq<T>, x: T)
    requires s != []
    ensures x in s <==> x in s[..|s|-1] || x == s[|s|-1]
  {
    assert s == s[..|s|-1] + [s[|s|-1]];
  }

  lemma ElementsSnoc<T>(s: seq<T>, x: T)
    ensures Elements(s + [x]) == Elements(s) + {x}
  {
  }

  ghost predicate Distinct<T(!new)>(s: seq<T>) {
    forall i, j :: 0 <= i < j < |s| ==> s[i] != s[j]
  }

  /** A JavaScript `Map`: lookup by key and iteration in insertion order.
      Writing a key that is present keeps its position. */
  datatype OMap<K(!new, ==), V> = OMap(keys: seq<K>, vals: map<K, V>) {
    ghost predicate Valid() {
      && (forall k :: k in keys <==> k in vals)
      && Distinct(keys)
    }

    function Put(k: K, v: V): (m: OMap<K, V>)
      ensures Valid() ==> m.Valid()
    {
      OMap(if k in vals then keys else keys + [k], vals[k := v])
    }
  }

  function Empty<K(!new, ==), V>(): (m: OMap<K, V>)
    ensures m.Valid()
  {
    OMap([], map[])
  }

  /** The sum of a weight over the entries of a map, in iteration order. */
  ghost function SumOver<K(!new), V>(keys: seq<K>, vals: map<K, V>, w: (K, V) -> nat): nat
    requires forall k :: k in keys ==> k in vals
  {
    if keys == [] then 0 else
    SumOver(keys[..|keys|-1], vals, w) + w(keys[|keys|-1], vals[keys[|keys|-1]])
  }

  /** A write to a key outside the summed keys does not matter. */
  lemma {:induction false} SumUnchanged<K(!new), V>(keys: seq<K>, vals: map<K, V>, vals': map<K, V>, w: (K, V) -> nat)
    requires forall k :: k in keys ==> k in vals && k in vals' && vals[k] == vals'[k]
    ensures SumOver(keys, vals, w) == SumOver(keys, vals', w)
  {
    if keys != [] {
      SumUnchanged(keys[..|keys|-1], vals, vals', w);
    }
  }

  /** Rewriting one key of the summed keys exchanges that key's weight. */
  lemma {:induction false} SumRewritten<K(!new), V>(keys: seq<K>, vals: map<K, V>, k: K, v: V, w: (K, V) -> nat)
    requires forall x :: x in keys ==> x in vals
    requires Distinct(keys) && k in keys
    ensures SumOver(keys, vals[k := v], w) + w(k, vals[k]) == SumOver(keys, vals, w) + w(k, v)
  {
    var front, last := keys[..|keys|-1], keys[|keys|-1];
    if last == k {
      SumUnchanged(front, vals, vals[k := v], w);
    } else {
      SumRewritten(front, vals, k, v, w);
    }
  }

  /** What one write does to the sum over a map. */
  lemma SumPut<K(!new), V>(m: OMap<K, V>, k: K, v: V, w: (K, V) -> nat)
    requires m.Valid()
    ensures m.Put(k, v).Valid()
    ensures SumOver(m.Put(k, v).keys, m.Put(k, v).vals, w) + (if k in m.vals then w(k, m.vals[k]) else 0)
         == SumOver(m.keys, m.vals, w) + w(k, v)
  {
    if k in m.vals {
      SumRewritten(m.keys, m.vals, k, v, w);
    } else {
      SumUnchanged(m.keys, m.vals, m.vals[k := v], w);
      assert (m.keys + [k])[..|m.keys|] == m.keys;
    }
  }

  /** Counting one more under a key adds what that is worth. */
  lemma SumIncrement<K(!new)>(m: OMap<K, nat>, k: K, n: nat, w: (K, nat) -> nat, more: nat)
    requires m.Valid() && n == if k in m.vals then m.vals[k] else 0
    requires w(k, 0) == 0 && w(k, n + 1) == w(k, n) + more
    ensures m.Put(k, n + 1).Valid()
    ensures SumOver(m.Put(k, n + 1).keys, m.Put(k, n + 1).vals, w) == SumOver(m.keys, m.vals, w) + more
  {
    SumPut(m, k, n + 1, w);
  }

  /** Last position of `c` in `s`, or -1: JavaScript's `lastIndexOf` for one character. */
  function LastIndexOf(s: string, c: char): (i: int)
    ensures -1 <= i < |s|
    ensures i >= 0 ==> s[i] == c
    ensures forall k :: i < k < |s| ==> s[k] != c
  {
    if s == [] then -1
    else if s[|s|-1] == c then |s| - 1
    else LastIndexOf(s[..|s|-1], c)
  }

  /** The distinct elements in order of first occurrence: `[...new Set(s)]`. */
  function Dedup<T(!new, ==)>(s: seq<T>): (d: seq<T>)
    ensures forall x :: x in d <==> x in s
    ensures forall i, j :: 0 <= i < j < |d| ==> d[i] != d[j]
  {
    if s == [] then [] else
    var front := Dedup(s[..|s|-1]);
    assert s == s[..|s|-1] + [s[|s|-1]];
    if s[|s|-1] in front then front else front + [s[|s|-1]]
  }

  /** The positions of the first occurrences, in order. */
  lemma {:induction false} DedupMeans<T(!new)>(s: seq<T>) returns (at: seq<nat>)
    ensures |at| == |Dedup(s)|
    ensures forall k :: 0 <= k < |at| ==> at[k] < |s| && Dedup(s)[k] == s[at[k]] && s[at[k]] !in s[..at[k]]
    ensures forall k, l :: 0 <= k < l < |at| ==> at[k] < at[l]
  {
    at := [];
    if s != [] {
      var front, last := s[..|s|-1], s[|s|-1];
      at := DedupMeans(front);
      assert forall k :: 0 <= k < |at| ==> s[..at[k]] == front[..at[k]];
      if last !in Dedup(front) {
        at := at + [|s| - 1];
      }
    }
  }
}
