/** The rules of the shortcut binding manager, as functions on the `hotkeys`
    dictionary: what a captured key, a "Clear Shortcut" and a "Delete" do to
    it, and the "Shortcut" column's lookup. The `Soundboard` class applies
    them to its state; the lemmas here say why they keep every sound under
    at most one key. */
module Shortcuts {
  import opened Wrappers
  import opened Bindings
  import opened Keys

  /** `on_key_press` (lines 483-497): a used key changes nothing; otherwise the sound's
      old key, if any, is deleted and the captured key is added for it. */
  function Capture(h: Bindings, key: string, sound: string): Bindings {
    if HasKey(h, key) then h
    else if HasValue(h, sound) then RemoveAt(h, ValueIndex(h, sound)) + [(key, sound)]
    else h + [(key, sound)]
  }

  /** `clear_selected_shortcut` (lines 315-317): delete the first key bound to the sound, if any. */
  function Clear(h: Bindings, sound: string): Bindings {
    if HasValue(h, sound) then RemoveAt(h, ValueIndex(h, sound)) else h
  }

  /** `delete_shortcut` (lines 516-517): delete the key, if it is a key. */
  function DeleteKey(h: Bindings, key: string): Bindings {
    if HasKey(h, key) then Delete(h, key) else h
  }

  /** `delete_shortcut` (lines 514-517): delete the key read off the selected line. */
  function DeleteLine(h: Bindings, line: string): Bindings {
    DeleteKey(h, ParseKey(line))
  }

  /** The "Shortcut" column (lines 281-284, 309): the first key bound to the sound, else `"None"`. */
  function ShortcutLabel(h: Bindings, sound: string): string {
    match FindKey(h, sound)
    case Some(k) => k
    case None => "None"
  }

  /** Key `k` is bound in `r` as in `h`, unless it was bound to `sound`, in which case it is unbound. */
  ghost predicate RemovedAt(h: Bindings, r: Bindings, sound: string, k: string) {
    Lookup(r, k) == (if Lookup(h, k) == Some(sound) then None else Lookup(h, k))
  }

  /** `r` is `h` without the binding to `sound`: that key is unbound, every other key keeps its value. */
  ghost predicate SoundRemoved(h: Bindings, r: Bindings, sound: string) {
    forall k :: RemovedAt(h, r, sound, k)
  }

  /** Every key but `key` is bound in `r` as in `h`, except that the binding to `sound` is gone. */
  ghost predicate OthersUnchanged(h: Bindings, r: Bindings, key: string, sound: string) {
    forall k :: k != key ==> RemovedAt(h, r, sound, k)
  }

  /** Deleting the sound's key: the sound is no longer a value and every other key keeps its value. */
  lemma ClearSpec(h: Bindings, sound: string)
    requires UniqueKeys(h) && Injective(h)
    ensures var r := Clear(h, sound);
      UniqueKeys(r) && Injective(r) && !HasValue(r, sound) && SoundRemoved(h, r, sound)
  {
    var r := Clear(h, sound);
    if HasValue(h, sound) {
      var j := ValueIndex(h, sound);
      RemoveAtInjective(h, j);
      forall k ensures Lookup(r, k) == (if Lookup(h, k) == Some(sound) then None else Lookup(h, k)) {
        LookupRemoveAt(h, j, k);
        LookupFindKey(h, k, sound);
      }
    } else {
      forall k ensures Lookup(h, k) != Some(sound) {
        LookupFindKey(h, k, sound);
      }
    }
  }

  /** Clearing twice in a row: the second clear finds no shortcut and changes nothing. */
  lemma ClearTwice(h: Bindings, sound: string)
    requires UniqueKeys(h) && Injective(h)
    ensures !HasValue(Clear(h, sound), sound)
    ensures Clear(Clear(h, sound), sound) == Clear(h, sound)
  {
    ClearSpec(h, sound);
  }

  /** Every rule keeps the dictionary's keys distinct, whatever its values. */
  lemma RulesKeepUniqueKeys(h: Bindings, key: string, sound: string)
    requires UniqueKeys(h)
    ensures UniqueKeys(Capture(h, key, sound))
    ensures UniqueKeys(Clear(h, sound))
    ensures UniqueKeys(DeleteKey(h, key))
    ensures !HasKey(h, key) ==> !HasKey(Clear(h, sound), key)
  {
    var c := Clear(h, sound);
    if HasValue(h, sound) {
      LookupRemoveAt(h, ValueIndex(h, sound), key);
    }
    if HasKey(h, key) {
      LookupRemoveAt(h, KeyIndex(h, key), key);
    } else {
      LookupAppend(c, key, sound, key);
    }
  }

  /** A captured key that is free ends up bound to the sound, as the sound's only key; the
      sound's previous key is gone and every other binding is unchanged. */
  lemma CaptureSpec(h: Bindings, key: string, sound: string)
    requires UniqueKeys(h) && Injective(h) && !HasKey(h, key)
    ensures var r := Capture(h, key, sound);
      UniqueKeys(r) && Injective(r) &&
      Lookup(r, key) == Some(sound) && FindKey(r, sound) == Some(key) &&
      OthersUnchanged(h, r, key, sound)
  {
    var c := Clear(h, sound);
    assert Capture(h, key, sound) == c + [(key, sound)];
    ClearSpec(h, sound);
    RulesKeepUniqueKeys(h, key, sound);
    var r := c + [(key, sound)];
    forall k ensures Lookup(r, k) == (if k == key then Some(sound) else Lookup(c, k)) {
      LookupAppend(c, key, sound, k);
    }
    forall k | k != key ensures RemovedAt(h, r, sound, k) {
      assert RemovedAt(h, c, sound, k);
    }
    forall a, b | 0 <= a < b < |r| ensures r[a].1 != r[b].1 {
      if b == |c| {
        HasValueIff(c, sound);
        assert c[a].1 != sound;
      }
    }
    LookupFindKey(r, key, sound);
  }

  /** A used key is refused: the dictionary is returned unchanged, whoever holds the key. */
  lemma CaptureUsedKey(h: Bindings, key: string, sound: string)
    requires HasKey(h, key)
    ensures Capture(h, key, sound) == h
  {
  }

  /** Deleting by key removes exactly that key; an unknown key changes nothing. A dictionary
      with one key per sound keeps that property. */
  lemma DeleteKeySpec(h: Bindings, key: string)
    requires UniqueKeys(h)
    ensures var r := DeleteKey(h, key);
      UniqueKeys(r) && (Injective(h) ==> Injective(r)) &&
      forall k :: Lookup(r, k) == (if k == key then None else Lookup(h, k))
  {
    if HasKey(h, key) {
      var j := KeyIndex(h, key);
      if Injective(h) {
        RemoveAtInjective(h, j);
      }
      forall k ensures Lookup(DeleteKey(h, key), k) == (if k == key then None else Lookup(h, k)) {
        LookupRemoveAt(h, j, k);
      }
    }
  }

  /** Deleting the listbox line of a binding whose key has no colon and no surrounding
      whitespace removes exactly that binding. */
  lemma DeleteListedBinding(h: Bindings, i: nat)
    requires UniqueKeys(h) && i < |h|
    requires ':' !in h[i].0 && Stripped(h[i].0)
    ensures DeleteLine(h, ShortcutLines(h)[i]) == RemoveAt(h, i)
  {
    ParseFormatRoundTrip(h[i].0, h[i].1);
    KeyIndexAt(h, i);
  }

  /** The "Shortcut" column shows a sound's key when it has one, and `"None"` when it has none. */
  lemma ShortcutLabelSpec(h: Bindings, sound: string, k: string)
    requires UniqueKeys(h) && Injective(h)
    ensures Lookup(h, k) == Some(sound) ==> ShortcutLabel(h, sound) == k
    ensures !HasValue(h, sound) ==> ShortcutLabel(h, sound) == "None"
  {
    LookupFindKey(h, k, sound);
  }

  /** One user action on the bindings. */
  datatype Action =
    | CaptureKey(key: string, sound: string)
    | ClearSound(sound: string)
    | DeleteSelected(line: string)

  function Apply(h: Bindings, a: Action): Bindings {
    match a
    case CaptureKey(key, sound) => Capture(h, key, sound)
    case ClearSound(sound) => Clear(h, sound)
    case DeleteSelected(line) => DeleteLine(h, line)
  }

  function Run(h: Bindings, actions: seq<Action>): Bindings
    decreases |actions|
  {
    if actions == [] then h else Run(Apply(h, actions[0]), actions[1..])
  }

  /** After any sequence of captures, clears and deletes, no sound is bound to two keys. */
  lemma {:induction false} RunKeepsInjective(h: Bindings, actions: seq<Action>)
    requires UniqueKeys(h) && Injective(h)
    ensures UniqueKeys(Run(h, actions)) && Injective(Run(h, actions))
    decreases |actions|
  {
    if actions != [] {
      match actions[0] {
      case CaptureKey(key, sound) =>
        if !HasKey(h, key) { CaptureSpec(h, key, sound); }
      case ClearSound(sound) => ClearSpec(h, sound);
      case DeleteSelected(line) => DeleteKeySpec(h, ParseKey(line));
      }
      RunKeepsInjective(Apply(h, actions[0]), actions[1..]);
    }
  }

  /** `hotkeys[key] = sound` regardless (the uncalled `set_hotkey`, lines 136-142) can bind a
      sound to a second key. */
  lemma PutBreaksInjective()
    ensures Injective([("a", "laugh.wav")])
    ensures !Injective(Put([("a", "laugh.wav")], "b", "laugh.wav"))
  {
    var r := Put([("a", "laugh.wav")], "b", "laugh.wav");
    assert KeyIndex([("a", "laugh.wav")], "b") == 1;
    assert r == [("a", "laugh.wav"), ("b", "laugh.wav")];
    assert r[0].1 == r[1].1;
  }

  /** A loaded dictionary may bind one sound to two keys. Clearing then deletes only the
      first key, so a second clear still changes the dictionary. */
  lemma ClearFirstKeyOnly()
    ensures !Injective([("a", "x.wav"), ("b", "x.wav")])
    ensures Clear([("a", "x.wav"), ("b", "x.wav")], "x.wav") == [("b", "x.wav")]
    ensures Clear([("b", "x.wav")], "x.wav") == []
  {
    var h := [("a", "x.wav"), ("b", "x.wav")];
    assert h[0].1 == h[1].1;
    assert ValueIndex(h, "x.wav") == 0;
    assert ValueIndex([("b", "x.wav")], "x.wav") == 0;
  }

  /** Conflict: with `{"a": "laugh.wav"}`, capturing `a` for `applause.wav` leaves the map as it was. */
  lemma ScenarioConflict()
    ensures HasKey([("a", "laugh.wav")], "a")
    ensures Lookup([("a", "laugh.wav")], "a") == Some("laugh.wav")
    ensures Capture([("a", "laugh.wav")], "a", "applause.wav") == [("a", "laugh.wav")]
  {
    assert KeyIndex([("a", "laugh.wav")], "a") == 0;
  }

  /** Rebinding: with `{"a": "laugh.wav"}`, capturing `b` for `laugh.wav` gives `{"b": "laugh.wav"}`. */
  lemma ScenarioRebind()
    ensures Capture([("a", "laugh.wav")], "b", "laugh.wav") == [("b", "laugh.wav")]
  {
    var h := [("a", "laugh.wav")];
    assert KeyIndex(h, "b") == 1 by { assert KeyIndex(h[1..], "b") == 0; }
    assert ValueIndex(h, "laugh.wav") == 0;
    assert RemoveAt(h, 0) == [];
  }
}
