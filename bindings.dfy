/** The `hotkeys` dictionary: canonical key string to sound file name.

    A Python dict remembers insertion order, and the source relies on it
    (`next(...)` returns the FIRST key bound to a sound), so the dictionary is
    an association list whose keys are pairwise distinct. Deleting an entry
    keeps the order of the others; assigning to an absent key appends. */
module Bindings {
  import opened Wrappers

  type Bindings = seq<(string, string)>

  /** Dictionary structure: no key occurs twice. */
  ghost predicate UniqueKeys(h: Bindings) {
    forall i, j :: 0 <= i < j < |h| ==> h[i].0 != h[j].0
  }

  /** The binding invariant of the shortcut manager: no sound is the value of two keys. */
  ghost predicate Injective(h: Bindings) {
    forall i, j :: 0 <= i < j < |h| ==> h[i].1 != h[j].1
  }

  /** Position of key `k`, or `|h|` when `k` is not a key. */
  function KeyIndex(h: Bindings, k: string): (i: nat)
    ensures i <= |h|
    ensures i < |h| ==> h[i].0 == k
    ensures forall j :: 0 <= j < i ==> h[j].0 != k
  {
    if h == [] then 0
    else if h[0].0 == k then 0
    else 1 + KeyIndex(h[1..], k)
  }

  /** Position of the first key whose value is `v`, or `|h|` when `v` is not a value. */
  function ValueIndex(h: Bindings, v: string): (i: nat)
    ensures i <= |h|
    ensures i < |h| ==> h[i].1 == v
    ensures forall j :: 0 <= j < i ==> h[j].1 != v
  {
    if h == [] then 0
    else if h[0].1 == v then 0
    else 1 + ValueIndex(h[1..], v)
  }

  /** `k in hotkeys` */
  predicate HasKey(h: Bindings, k: string) {
    KeyIndex(h, k) < |h|
  }

  /** `v in hotkeys.values()` */
  predicate HasValue(h: Bindings, v: string) {
    ValueIndex(h, v) < |h|
  }

  /** `hotkeys.get(k)` */
  function Lookup(h: Bindings, k: string): Option<string> {
    if HasKey(h, k) then Some(h[KeyIndex(h, k)].1) else None
  }

  /** `next((key for key, value in hotkeys.items() if value == v), None)` */
  function FindKey(h: Bindings, v: string): Option<string> {
    if HasValue(h, v) then Some(h[ValueIndex(h, v)].0) else None
  }

  /** The entry at position `i` deleted, the others kept in order. */
  function RemoveAt(h: Bindings, i: nat): (r: Bindings)
    requires i < |h|
    ensures |r| == |h| - 1
    ensures forall j :: 0 <= j < i ==> r[j] == h[j]
    ensures forall j :: i <= j < |r| ==> r[j] == h[j + 1]
  {
    h[..i] + h[i + 1..]
  }

  /** `del hotkeys[k]` (when `k` is a key). */
  function Delete(h: Bindings, k: string): Bindings
    requires HasKey(h, k)
  {
    RemoveAt(h, KeyIndex(h, k))
  }

  /** `hotkeys[k] = v`: overwrite in place when `k` is a key, append otherwise. */
  function Put(h: Bindings, k: string, v: string): Bindings {
    if HasKey(h, k) then h[KeyIndex(h, k) := (k, v)] else h + [(k, v)]
  }

  /** A key is found exactly where it sits, when keys are unique. */
  lemma KeyIndexAt(h: Bindings, j: nat)
    requires UniqueKeys(h) && j < |h|
    ensures KeyIndex(h, h[j].0) == j
  {
  }

  /** With an injective map, the first key bound to a value is the only one. */
  lemma ValueIndexAt(h: Bindings, j: nat)
    requires Injective(h) && j < |h|
    ensures ValueIndex(h, h[j].1) == j
  {
  }

  /** `hotkeys.get(k)` recovers a stored entry. */
  lemma LookupAt(h: Bindings, j: nat)
    requires UniqueKeys(h) && j < |h|
    ensures Lookup(h, h[j].0) == Some(h[j].1)
  {
    KeyIndexAt(h, j);
  }

  /** A key is present exactly when some entry carries it. */
  lemma HasKeyIff(h: Bindings, k: string)
    ensures HasKey(h, k) <==> exists j :: 0 <= j < |h| && h[j].0 == k
  {
    if exists j :: 0 <= j < |h| && h[j].0 == k {
      var j :| 0 <= j < |h| && h[j].0 == k;
      assert KeyIndex(h, k) <= j;
    }
  }

  /** Lookup after `del`: the deleted key is gone, every other key keeps its value. */
  lemma LookupRemoveAt(h: Bindings, i: nat, k: string)
    requires UniqueKeys(h) && i < |h|
    ensures UniqueKeys(RemoveAt(h, i))
    ensures Lookup(RemoveAt(h, i), k) == if k == h[i].0 then None else Lookup(h, k)
  {
    var r := RemoveAt(h, i);
    forall a, b | 0 <= a < b < |r| ensures r[a].0 != r[b].0 {
      var a', b' := if a < i then a else a + 1, if b < i then b else b + 1;
      assert r[a] == h[a'] && r[b] == h[b'] && a' < b';
    }
    if k != h[i].0 && HasKey(h, k) {
      var j := KeyIndex(h, k);
      var j' := if j < i then j else j - 1;
      assert r[j'] == h[j];
      KeyIndexAt(r, j');
    } else {
      forall m | 0 <= m < |r| ensures r[m].0 != k {
        var m' := if m < i then m else m + 1;
        assert r[m] == h[m'] && m' != i;
      }
      HasKeyIff(r, k);
    }
  }

  /** Lookup after appending a fresh key. */
  lemma LookupAppend(h: Bindings, k: string, v: string, k': string)
    requires UniqueKeys(h) && !HasKey(h, k)
    ensures UniqueKeys(h + [(k, v)])
    ensures Lookup(h + [(k, v)], k') == if k' == k then Some(v) else Lookup(h, k')
  {
    var r := h + [(k, v)];
    forall a, b | 0 <= a < b < |r| ensures r[a].0 != r[b].0 {
      if b == |h| {
        assert h[a].0 != k;
      }
    }
    if k' == k {
      LookupAt(r, |h|);
    } else if HasKey(h, k') {
      var j := KeyIndex(h, k');
      assert r[j] == h[j];
      KeyIndexAt(r, j);
    } else {
      forall m | 0 <= m < |r| ensures r[m].0 != k' {
        if m < |h| { assert r[m] == h[m]; }
      }
      HasKeyIff(r, k');
    }
  }

  /** A value is present exactly when some entry carries it. */
  lemma HasValueIff(h: Bindings, v: string)
    ensures HasValue(h, v) <==> exists j :: 0 <= j < |h| && h[j].1 == v
  {
    if exists j :: 0 <= j < |h| && h[j].1 == v {
      var j :| 0 <= j < |h| && h[j].1 == v;
      assert ValueIndex(h, v) <= j;
    }
  }

  /** Deleting an entry keeps the map injective and removes exactly that entry's value. */
  lemma RemoveAtInjective(h: Bindings, i: nat)
    requires Injective(h) && i < |h|
    ensures Injective(RemoveAt(h, i))
    ensures !HasValue(RemoveAt(h, i), h[i].1)
    ensures forall v :: v != h[i].1 ==> (HasValue(RemoveAt(h, i), v) <==> HasValue(h, v))
  {
    var r := RemoveAt(h, i);
    forall a, b | 0 <= a < b < |r| ensures r[a].1 != r[b].1 {
      var a', b' := if a < i then a else a + 1, if b < i then b else b + 1;
      assert r[a] == h[a'] && r[b] == h[b'] && a' < b';
    }
    HasValueIff(r, h[i].1);
    forall v | v != h[i].1 ensures HasValue(r, v) <==> HasValue(h, v) {
      HasValueIff(r, v);
      HasValueIff(h, v);
      if HasValue(h, v) {
        var j := ValueIndex(h, v);
        assert j != i;
        assert r[if j < i then j else j - 1].1 == v;
      }
      if HasValue(r, v) {
        var m := ValueIndex(r, v);
        assert r[m] == h[if m < i then m else m + 1];
      }
    }
  }

  /** For a dictionary whose values are distinct, `next(...)` finds `k` for `v` exactly when `k` is bound to `v`. */
  lemma LookupFindKey(h: Bindings, k: string, v: string)
    requires UniqueKeys(h) && Injective(h)
    ensures Lookup(h, k) == Some(v) <==> FindKey(h, v) == Some(k)
  {
    if Lookup(h, k) == Some(v) {
      ValueIndexAt(h, KeyIndex(h, k));
    }
    if FindKey(h, v) == Some(k) {
      KeyIndexAt(h, ValueIndex(h, v));
    }
  }

  /** `hotkeys[k] = v` binds `k` to `v`, keeps the keys distinct and leaves every other key alone. */
  lemma LookupPut(h: Bindings, k: string, v: string, k': string)
    requires UniqueKeys(h)
    ensures UniqueKeys(Put(h, k, v))
    ensures Lookup(Put(h, k, v), k') == if k' == k then Some(v) else Lookup(h, k')
  {
    if HasKey(h, k) {
      var i := KeyIndex(h, k);
      var r := Put(h, k, v);
      assert forall j :: 0 <= j < |r| ==> r[j].0 == h[j].0;
      if HasKey(h, k') {
        KeyIndexAt(r, KeyIndex(h, k'));
      } else {
        HasKeyIff(h, k');
        HasKeyIff(r, k');
      }
    } else {
      LookupAppend(h, k, v, k');
    }
  }
}
