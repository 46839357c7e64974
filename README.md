# Python-Soundboard engine, in Dafny

A model of the non-GUI engine of a desktop soundboard (`main.py`). The program
keeps three pieces of process-wide state: `hotkeys`, a dictionary from a
canonical key string to a sound file name; `menu`, the catalog of sounds as a
list of categories `[directory, file, ...]`; and `play_score`, the number of
plays. It persists all three in a JSON configuration file after every change.

The model has six modules:

- `Bindings` is the `hotkeys` dictionary. It is an association list with
  distinct keys, kept in insertion order, because the program reads the first
  key bound to a sound (`next(...)`). The module holds the lookup, `del` and
  assignment rules and their lemmas.
- `Keys` covers the string rules. `str(key).replace("'", "")` turns a key
  event into the lookup key. `f"{key}: {sound}"` formats a listbox line, and
  `split(":")[0].strip()` reads the key back from such a line.
- `Paths` covers `os.path.join` and `os.path.splitext`, with POSIX separators.
- `SoundDirectory` is the directory scan of `get_files`. The directory listing
  is an input tree. The scan loops are methods, proved equal to the `Catalog`
  function, and lemmas state what that function promises.
- `Shortcuts` holds the shortcut manager's rules as functions on the
  dictionary: a captured key, "Clear Shortcut", "Delete" and the "Shortcut"
  column. Lemmas show that, starting from a dictionary with one key per sound,
  these rules never bind one sound to two keys.
- `Engine` holds the class `Soundboard`. Its fields are the program's global
  state, the configuration file (`configFile`), the playback requests it has
  started, and the capture session that is running. Its methods are the
  program's operations, each proved against the functions above.

Three facts about the program that the model keeps:
- File extensions are matched case-sensitively, so `.WAV` is not recognised
  (main.py:67, 77).
- A captured key that is already bound is refused, even when it is bound to
  the selected sound itself (main.py:483).
- The play counter is an unbounded Python integer (main.py:111).

## Model

| member | source | states |
|---|---|---|
| `Bindings.Lookup` | main.py:152-153 | the sound bound to a key, or nothing when the key is not in the dictionary |
| `Bindings.FindKey` | main.py:316 | the first key in dictionary order bound to a sound, or nothing when no key is |
| `Bindings.Delete` | main.py:517 | `del hotkeys[k]` for a bound key: its entry removed, the others kept in order |
| `Bindings.Put` | main.py:137-141 | `hotkeys[k] = v`: the value replaced in place when `k` is bound, a new last entry otherwise |
| `Bindings.KeyIndex` | main.py:483 | `key in hotkeys`: the position found holds the key, and no earlier entry does |
| `Bindings.ValueIndex` | main.py:487 | `next(k for k, v in hotkeys.items() if v == sound)`: the first entry bound to the sound, with no earlier one |
| `Bindings.RemoveAt` | main.py:488 | `del`: the entries before the deleted one stay where they were, the later ones move up by one |
| `Bindings.HasKeyIff` | main.py:516 | a key is in the dictionary exactly when some entry carries it |
| `Bindings.HasValueIff` | main.py:315 | a sound is among `hotkeys.values()` exactly when some entry carries it |
| `Bindings.LookupRemoveAt` | main.py:517 | after `del`, the deleted key is unbound, every other key keeps its value, and keys stay distinct |
| `Bindings.LookupAppend` | main.py:497 | assigning a fresh key binds it and leaves every other key as it was |
| `Bindings.LookupPut` | main.py:137 | `hotkeys[k] = v` binds `k` to `v` whether or not `k` was bound, and leaves every other key alone |
| `Bindings.RemoveAtInjective` | main.py:486-489 | deleting an entry of a one-key-per-sound dictionary keeps that property, removes that sound and no other |
| `Bindings.LookupFindKey` | main.py:281-284 | with one key per sound, the first key found for a sound is `k` exactly when `k` is bound to that sound |
| `Keys.FormatLine` | main.py:466-467 | the listbox line of a binding, `key: sound` |
| `Keys.Strip` | main.py:514 | `str.strip()`: the text without its leading and trailing whitespace |
| `Keys.ParseKey` | main.py:514 | the key read off a listbox line: the stripped text before its first colon |
| `Keys.Canonical` | main.py:482 | the lookup key has no `'` and is no longer than the event text |
| `Keys.CanonicalChars` | main.py:482 | the lookup key holds exactly the characters of the event text other than `'` |
| `Keys.CanonicalAppend` | main.py:152 | canonicalisation works character by character (it distributes over concatenation) |
| `Keys.CanonicalUnquoted` | main.py:135 | text without quotes is its own lookup key |
| `Keys.CanonicalIdempotent` | main.py:482 | canonicalising a lookup key again changes nothing |
| `Keys.QuotedCharKey` | main.py:152-153 | a character key written in single quotes is looked up by the bare character |
| `Keys.StripLeftSpec` | main.py:514 | `lstrip` removes exactly the leading whitespace (Python's `str.isspace` set) |
| `Keys.StripRightSpec` | main.py:514 | `rstrip` removes exactly the trailing whitespace |
| `Keys.StripSpec` | main.py:514 | `strip` leaves no whitespace at either end and never lengthens the text |
| `Keys.StripStripped` | main.py:514 | text with no surrounding whitespace is unchanged by `strip` |
| `Keys.BeforeColon` | main.py:514 | `split(":")[0]` is a colon-free prefix of the line, ending at the first colon or at the end |
| `Keys.ShortcutLines` | main.py:463-467 | the listbox has one line per binding, and the delete button reads each line back as its binding's key when that key has no colon and no surrounding whitespace |
| `Keys.BeforeColonFormat` | main.py:466-467 | the text before the first colon of a formatted line is its key, when the key has no colon |
| `Keys.ParseFormatRoundTrip` | main.py:514 | the key read off a formatted line is the original key, for keys with no colon and no surrounding whitespace |
| `Keys.ColonKeyParsesEmpty` | main.py:514 | for the `:` key the line `":: sound"` reads back as the empty key, so that binding cannot be deleted from the list |
| `Paths.Join` | main.py:155 | POSIX `os.path.join` of two parts: an absolute second part replaces the first, otherwise one separator goes between them |
| `Paths.Extension` | main.py:67 | POSIX `os.path.splitext(name)[1]`: from the last dot on, or empty when only dots precede that dot |
| `Paths.JoinBasename` | main.py:155 | the path played for a bound sound ends in the bound file name |
| `Paths.ExtensionOfLength4` | main.py:67 | `splitext` gives a four-character extension exactly when the name ends in it and something other than dots precedes it |
| `SoundDirectory.IsAudioName` | main.py:67 | a recognised name: it ends in `.wav`, `.mp3` or `.m4a` after something other than dots |
| `SoundDirectory.AudioFiles` | main.py:63-68 | a directory's recognised file names in listing order, folders and other entries skipped |
| `SoundDirectory.Catalog` | main.py:60-86 | the menu: one category per folder of the root with a recognised file, in listing order, then the root's own category if it has a recognised file |
| `SoundDirectory.IsAudioNameIff` | main.py:67 | a name is recognised exactly when its `splitext` extension is `.wav`, `.mp3` or `.m4a`; that is, when it ends in one of them, in that case, after something other than dots |
| `SoundDirectory.RecognisedNames` | main.py:77 | `laugh.wav` and `clip.final.m4a` are recognised |
| `SoundDirectory.NotAudioEnding` | main.py:67 | a name whose third-last character is neither `w` nor `m` is not recognised |
| `SoundDirectory.UnrecognisedNames` | main.py:77 | `LAUGH.WAV`, `.wav` and `laugh.wav.txt` are not recognised |
| `SoundDirectory.CollectFolder` | main.py:71-78 | a folder's category is its path followed by its recognised files, in listing order |
| `SoundDirectory.ScanEntry` | main.py:63-81 | one pass of the outer loop adds exactly the entry's recognised file to the root's category, or exactly its folder's category to the catalog |
| `SoundDirectory.ScanDirectory` | main.py:60-86 | the scan loop builds exactly the catalog of the listing |
| `SoundDirectory.AudioFilesIff` | main.py:63-68 | a name is among a directory's files exactly when the listing has it as a recognised file |
| `SoundDirectory.FoldersIff` | main.py:70-81 | the folder categories are exactly those of the root's folders that hold a recognised file |
| `SoundDirectory.CatalogCategoriesNonEmpty` | main.py:80-84 | every category names its directory and at least one file, and every file in it is recognised |
| `SoundDirectory.RootCategoryLast` | main.py:83-84 | the root's own category is last, and is present exactly when the root holds a recognised file |
| `SoundDirectory.FilesFlatten` | main.py:73-78 | the folders inside a folder add nothing to that folder's files |
| `SoundDirectory.CatalogIgnoresDeeperFolders` | main.py:73-78 | what lies deeper than the root's folders does not affect the catalog |
| `SoundDirectory.EmptyDirectoryEmptyCatalog` | main.py:56-86 | an empty sound directory gives an empty catalog |
| `Shortcuts.Capture` | main.py:482-497 | the dictionary after a captured key: unchanged when the key is bound; otherwise the sound's old key deleted and the key added for the sound |
| `Shortcuts.Clear` | main.py:315-317 | the dictionary after "Clear Shortcut": the sound's first key deleted, or unchanged when it has none |
| `Shortcuts.DeleteKey` | main.py:516-517 | the dictionary after deleting a key: its binding removed, or unchanged when it is not bound |
| `Shortcuts.DeleteLine` | main.py:514-517 | the dictionary after "Delete" on a listbox line: the key read off the line deleted |
| `Shortcuts.ShortcutLabel` | main.py:281-284 | the "Shortcut" column (also main.py:309): the sound's first key, or `"None"` |
| `Shortcuts.RulesKeepUniqueKeys` | main.py:486-497 | capture, clear and delete keep the dictionary's keys distinct, and clearing never adds a key |
| `Shortcuts.CaptureUsedKey` | main.py:483-485 | a captured key that is already bound, to any sound, leaves the dictionary unchanged |
| `Shortcuts.CaptureSpec` | main.py:486-502 | in a dictionary with one key per sound, a free captured key becomes the sound's only key; the sound's old key is gone; every other binding is unchanged; one key per sound is kept |
| `Shortcuts.ClearSpec` | main.py:315-318 | in a dictionary with one key per sound, clearing removes exactly the key bound to the sound, keeps every other binding and keeps one key per sound |
| `Shortcuts.ClearTwice` | main.py:315-322 | in a dictionary with one key per sound, after one clear the sound has no shortcut, so a second clear changes nothing |
| `Shortcuts.DeleteKeySpec` | main.py:516-518 | in any dictionary, deleting by key unbinds exactly that key and an unknown key changes nothing; a dictionary with one key per sound keeps that property |
| `Shortcuts.DeleteListedBinding` | main.py:510-518 | deleting the listbox line of a binding removes exactly that binding, for keys with no colon and no surrounding whitespace |
| `Shortcuts.ShortcutLabelSpec` | main.py:309 | in a dictionary with one key per sound, the "Shortcut" column shows the sound's key when it has one and `"None"` when it has none |
| `Shortcuts.RunKeepsInjective` | main.py:469-527 | starting from a dictionary with one key per sound, after any sequence of captures, clears and deletes, no sound is bound to two keys |
| `Shortcuts.PutBreaksInjective` | main.py:133-142 | the uncalled `set_hotkey` overwrites unconditionally and can bind one sound to two keys |
| `Shortcuts.ClearFirstKeyOnly` | main.py:315-317 | when a loaded dictionary binds `x.wav` to `a` and `b`, one clear deletes only `a`, and a second clear deletes `b` |
| `Shortcuts.ScenarioConflict` | main.py:483-485 | with `{"a": "laugh.wav"}`, capturing `a` for `applause.wav` is refused and changes nothing |
| `Shortcuts.ScenarioRebind` | main.py:486-490 | with `{"a": "laugh.wav"}`, capturing `b` for `laugh.wav` gives `{"b": "laugh.wav"}` |
| `Engine.Soundboard.constructor` | main.py:17-22 | the program starts with no bindings, an empty catalog and a zero play count |
| `Engine.Soundboard.Save` | main.py:128-130 | the file now holds the current bindings, catalog and play count |
| `Engine.Soundboard.GetFiles` | main.py:39-88 | the catalog is the scan of the listing and is also written under `"sounds"`; missing keys load as `{}` and `0`; a missing file is created; the import prompt appears exactly for an empty directory |
| `Engine.Soundboard.PlaySound` | main.py:91-115 | one play raises the count by exactly one, saves it, then records one play request for the path |
| `Engine.Soundboard.OnPress` | main.py:150-162 | a bound key records one play request for `dir_/sound`, adds one play and saves twice; an unbound key changes nothing |
| `Engine.Soundboard.StartAssigningShortcut` | main.py:469-478 | without a selected sound an error is reported and no capture starts; otherwise a capture for that sound starts |
| `Engine.Soundboard.OnKeyPress` | main.py:480-508 | the dictionary follows `Capture`; a used key is reported with its holder and nothing is saved; otherwise the assignment is reported and saved; the capture ends either way |
| `Engine.Soundboard.ClearSelectedShortcut` | main.py:312-325 | with a selected sound, its key is cleared, reported and saved, or "no shortcut" is reported and nothing changes |
| `Engine.Soundboard.DeleteShortcut` | main.py:510-527 | the key read off the selected line is deleted and saved if bound; otherwise "not found" or "no selection" is reported and nothing changes |
| `Engine.Soundboard.SetHotkeyRelease` | main.py:133-147 | the captured key is bound to the sound in either branch, and the result is saved |
| `Engine.DispatchScenario` | main.py:150-158 | with `{"x": "boo.wav"}`, pressing `x` records one play request for `sound/boo.wav` and counts one play |

## Left out

- The Tkinter interface is not modelled: windows, labels, buttons, Treeview and listbox contents, and the tray icon. `StartAssigningShortcut`, `OnKeyPress`, `ClearSelectedShortcut` and `DeleteShortcut` return a `Report` naming the message or label text the user would see. `GetFiles` returns whether the "drag and drop" prompt appears. `Save`, `PlaySound`, `OnPress` and `SetHotkeyRelease` return nothing. The play-count label that `on_press` refreshes (main.py:159), and that the play buttons refresh after `play_sound` (main.py:332, 339), shows `playScore`.
- Audio playback is reduced to the request it starts (`playRequests`): pygame, playsound, the two playback threads, `find_device`, `stop_sound` and `set_volume` (a float and a mixer call) are left out.
- The keyboard listener threads are left out (`start_hotkey_listener`, the dispatch listener, the capture listener), and so is their race with the interface thread. One key press reaches both the dispatch listener (main.py:166) and, during a capture, the capture listener (main.py:477). So pressing an already-bound key in the assign dialog also plays that sound and counts a play, and a key the capture has just bound may play as well. The model takes each event as one method call, either `OnPress` or `OnKeyPress`, and does not interleave them. Key events are method calls that carry the text `str(key)` produced by the keyboard library.
- Errors are not modelled: every `save()` write succeeds and `app` exists. `except Exception` (main.py:161, 507) catches any error, and the model does not capture these outcomes:
  - A failed write in `play_sound` (main.py:112) leaves `play_score` raised with no playback started. A failed write at main.py:158 leaves the play done but the second save missing.
  - A failed write in `on_key_press` (main.py:490, 498) skips main.py:504-505. The capture listener keeps running and the assign button stays disabled, with the dictionary already changed.
  - The listener starts at main.py:538, but `app` is bound only at main.py:540. A bound key pressed in between raises `NameError` at main.py:159, after the sound has played and both saves are done, so the state is the one the model gives.
- One key per sound is not part of the object invariant `Valid()`. The loaded `hotkeys` (main.py:47) may bind one sound to two keys, for example in a file edited by hand or one the uncalled `set_hotkey` (main.py:133-142) would write, and the program never checks this. Clear and capture then remove only the first such key (main.py:316-317, 487-488), as `Shortcuts.ClearFirstKeyOnly` shows. The lemmas about clear, capture, the "Shortcut" column and runs of actions assume one key per sound.
- JSON encoding, parsing and file writes are left out. The file is the value `configFile`, whose `hotkeys` are assumed to be strings. A loaded `play_score` may be any integer, including a negative one, from which the count goes on (main.py:49, 111). It is assumed to be an integer: `json.load` would accept any JSON value there. A string or `null` there would make `play_score += 1` (main.py:111) raise. `on_press` swallows that error (main.py:161), so from then on no bound key plays or saves. A malformed file, which makes `json.load` raise, is not modelled.
- `os.mkdir` of a missing sound directory is not modelled: the directory is then empty, so the model takes an empty listing.
- File sizes (`os.path.getsize`, float MB formatting), `handle_drop`, `delete_selected_sound`, `play_selected_sound` and the dialog window handling are interface or filesystem work. The file operations re-run `GetFiles`, and play buttons call `PlaySound`.
- Paths use POSIX `os.path` rules. The Windows `ntpath` rules (backslashes, drive letters) are not modelled.
- Engine.Soundboard.StartAssigningShortcut: requires that no capture is running, because the assign button is disabled during a capture (main.py:475, 505). Closing the dialog during a capture leaves its listener running; the model does not represent that.
