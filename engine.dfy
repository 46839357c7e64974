/** The soundboard's engine: the process-wide state of the program (`hotkeys`,
    `menu`, `play_score`) and the operations that change it, as one object.

    Key events arrive as method calls carrying the text `str(key)` of the
    event. Playback is not modelled beyond the request it starts: each play
    appends the sound's path to `playRequests`. The configuration file is the
    field `configFile`: `None` while it does not exist, otherwise the JSON
    object last written, whose three keys may each be missing. */
module Engine {
  import opened Wrappers
  import opened Bindings
  import opened Keys
  import opened Paths
  import opened SoundDirectory
  import opened Shortcuts

  /** The configuration file's JSON object: `{"hotkeys": ..., "sounds": ..., "play_score": ...}`. */
  datatype Config = Config(hotkeys: Option<Bindings>, sounds: Option<seq<seq<string>>>, playScore: Option<int>)

  /** A JSON object's keys are distinct, so the loaded `hotkeys` dictionary is a dictionary. */
  ghost predicate WellFormed(c: Config) {
    c.hotkeys.Some? ==> UniqueKeys(c.hotkeys.value)
  }

  /** What the user is told after an action (a label text or a message box). */
  datatype Report =
    | Listening(sound: string)                  // "Press a Button to assign to ..."
    | Assigned(key: string, sound: string)      // "Assigned KEY to ..."
    | AlreadyAssigned(key: string, holder: string) // "KEY already assigned to ..."
    | Cleared(key: string)                      // shortcut removed, no message
    | NoShortcutAssigned(sound: string)         // "No shortcut assigned to ..."
    | Deleted(key: string)                      // shortcut removed, no message
    | ShortcutNotFound                          // "Shortcut not found."
    | NoSoundSelected                           // "Please select a sound first" / "No soundboard selected."
    | NoShortcutSelected                        // "Please select a shortcut to delete."

  class Soundboard {
    /** `dir_`, the sound directory. */
    const root: string
    var hotkeys: Bindings
    var menu: seq<seq<string>>
    var playScore: int
    var configFile: Option<Config>
    /** The paths handed to the playback back-ends, oldest first. */
    var playRequests: seq<string>
    /** The selected sound while the assign dialog's one-shot key listener runs. */
    var capturing: Option<string>
    /** How many times `save()` has written the configuration file. */
    ghost var saves: nat

    ghost predicate Valid()
      reads this
    {
      UniqueKeys(hotkeys) && (configFile.Some? ==> WellFormed(configFile.value))
    }

    /** The object `save()` writes. */
    function Snapshot(): Config
      reads this
    {
      Config(Some(hotkeys), Some(menu), Some(playScore))
    }

    /** The module-level initial values (lines 17-22) and the configuration file found on disk. */
    constructor (root: string, configFile: Option<Config>)
      requires configFile.Some? ==> WellFormed(configFile.value)
      ensures Valid()
      ensures this.root == root && this.configFile == configFile
      ensures hotkeys == [] && menu == [] && playScore == 0
      ensures playRequests == [] && capturing == None && saves == 0
    {
      this.root := root;
      this.configFile := configFile;
      hotkeys, menu, playScore := [], [], 0;
      playRequests, capturing := [], None;
      saves := 0;
    }

    /** `save()`: write hotkeys, catalog and play count to the configuration file. */
    method Save()
      requires Valid()
      modifies this`configFile, this`saves
      ensures Valid()
      ensures configFile == Some(Snapshot())
      ensures saves == old(saves) + 1
    {
      configFile := Some(Snapshot());
      saves := saves + 1;
    }

    /** `get_files(dir_, config)`: load the configuration (missing keys default to an empty
        dictionary, an empty list and 0; a missing file is created), scan the sound directory
        into `menu`, and write the catalog back under `"sounds"`. Answers whether the
        directory was empty, which makes the program invite the user to drop files. A sound
        directory that does not exist is created, so its listing is empty. */
    method GetFiles(listing: seq<Entry>) returns (promptImport: bool)
      requires Valid()
      modifies this`hotkeys, this`menu, this`playScore, this`configFile
      ensures Valid()
      ensures promptImport <==> listing == []
      ensures menu == Catalog(root, listing)
      ensures old(configFile).Some? ==>
        var c := old(configFile).value;
        && hotkeys == c.hotkeys.GetOr([])
        && playScore == c.playScore.GetOr(0)
        && configFile == Some(c.(sounds := Some(menu)))
      ensures old(configFile).None? ==>
        && hotkeys == old(hotkeys)
        && playScore == old(playScore)
        && configFile == Some(Config(Some([]), Some(menu), Some(0)))
    {
      var data: Config;
      match configFile {
        case Some(c) =>
          hotkeys := c.hotkeys.GetOr([]);
          menu := c.sounds.GetOr([]);
          playScore := c.playScore.GetOr(0);
          data := c;
        case None =>
          menu := [];
          data := Config(Some([]), Some([]), Some(0));
          configFile := Some(data);
      }
      promptImport := |listing| == 0;
      var sounds := ScanDirectory(root, listing);
      menu := sounds;
      data := data.(sounds := Some(sounds));
      configFile := Some(data);
    }

    /** `play_sound(path)`: count the play and save before playback starts, then start it. */
    method PlaySound(path: string)
      requires Valid()
      modifies this`playScore, this`configFile, this`saves, this`playRequests
      ensures Valid()
      ensures playScore == old(playScore) + 1
      ensures configFile == Some(Snapshot()) && saves == old(saves) + 1
      ensures playRequests == old(playRequests) + [path]
    {
      playScore := playScore + 1;
      Save();
      playRequests := playRequests + [path];
    }

    /** `on_press(key)`: the global hotkey listener. A bound key plays its sound from the
        sound directory once (and saves a second time); any other key changes nothing. */
    method OnPress(text: string)
      requires Valid()
      modifies this`playScore, this`configFile, this`saves, this`playRequests
      ensures Valid()
      ensures var key := Canonical(text);
        if HasKey(hotkeys, key) then
          && playRequests == old(playRequests) + [Join(root, Lookup(hotkeys, key).value)]
          && playScore == old(playScore) + 1
          && configFile == Some(Snapshot()) && saves == old(saves) + 2
        else
          && playRequests == old(playRequests) && playScore == old(playScore)
          && configFile == old(configFile) && saves == old(saves)
    {
      var key := Canonical(text);
      if HasKey(hotkeys, key) {
        var sound := hotkeys[KeyIndex(hotkeys, key)].1;
        var soundPath := Join(root, sound);
        PlaySound(soundPath);
        Save();
      }
    }

    /** `start_assigning_shortcut`: with a selected sound, start listening for one key.
        The assign button is disabled while a listener runs, so no capture is running. */
    method StartAssigningShortcut(selected: string) returns (report: Report)
      requires Valid() && capturing.None?
      modifies this`capturing
      ensures Valid()
      ensures selected == "" ==> report == NoSoundSelected && capturing == None
      ensures selected != "" ==> report == Listening(selected) && capturing == Some(selected)
    {
      if selected == "" {
        report := NoSoundSelected;
        return;
      }
      report := Listening(selected);
      capturing := Some(selected);
    }

    /** `on_key_press`: the captured key. A key already in use is refused and nothing is
        saved; otherwise the selected sound's old key, if any, is deleted, the captured key is
        bound to it and the state is saved. Either way the capture ends. */
    method OnKeyPress(text: string) returns (report: Report)
      requires Valid() && capturing.Some?
      modifies this`hotkeys, this`configFile, this`saves, this`capturing
      ensures Valid() && capturing == None
      ensures var key, sound := Canonical(text), old(capturing).value;
        && hotkeys == Capture(old(hotkeys), key, sound)
        && if HasKey(old(hotkeys), key) then
             && report == AlreadyAssigned(key, Lookup(old(hotkeys), key).value)
             && configFile == old(configFile) && saves == old(saves)
           else
             && report == Assigned(key, sound)
             && configFile == Some(Snapshot()) && saves == old(saves) + 1
    {
      var key := Canonical(text);
      var sound := capturing.value;
      RulesKeepUniqueKeys(hotkeys, key, sound);
      if HasKey(hotkeys, key) {
        report := AlreadyAssigned(key, hotkeys[KeyIndex(hotkeys, key)].1);
      } else if HasValue(hotkeys, sound) {
        var current := hotkeys[ValueIndex(hotkeys, sound)].0;
        KeyIndexAt(hotkeys, ValueIndex(hotkeys, sound));
        hotkeys := Delete(hotkeys, current);
        hotkeys := hotkeys + [(key, sound)];
        Save();
        report := Assigned(key, sound);
      } else {
        hotkeys := hotkeys + [(key, sound)];
        Save();
        report := Assigned(key, sound);
      }
      capturing := None;
    }

    /** `clear_selected_shortcut`: delete the key bound to the selected sound and save, or
        report that it has none. */
    method ClearSelectedShortcut(selected: string) returns (report: Report)
      requires Valid()
      modifies this`hotkeys, this`configFile, this`saves
      ensures Valid()
      ensures selected == "" ==> report == NoSoundSelected && hotkeys == old(hotkeys)
      ensures selected != "" ==> hotkeys == Clear(old(hotkeys), selected)
      ensures selected != "" && HasValue(old(hotkeys), selected) ==>
        report == Cleared(FindKey(old(hotkeys), selected).value)
      ensures selected != "" && !HasValue(old(hotkeys), selected) ==>
        report == NoShortcutAssigned(selected) && hotkeys == old(hotkeys)
      ensures report.Cleared? ==> configFile == Some(Snapshot()) && saves == old(saves) + 1
      ensures !report.Cleared? ==> configFile == old(configFile) && saves == old(saves)
    {
      if selected == "" {
        report := NoSoundSelected;
      } else if HasValue(hotkeys, selected) {
        var current := hotkeys[ValueIndex(hotkeys, selected)].0;
        KeyIndexAt(hotkeys, ValueIndex(hotkeys, selected));
        RulesKeepUniqueKeys(hotkeys, current, selected);
        hotkeys := Delete(hotkeys, current);
        Save();
        report := Cleared(current);
      } else {
        report := NoShortcutAssigned(selected);
      }
    }

    /** `delete_shortcut`: read the key off the selected `"key: sound"` line; delete it and
        save when it is a key, report it as not found otherwise. */
    method DeleteShortcut(selectedLine: Option<string>) returns (report: Report)
      requires Valid()
      modifies this`hotkeys, this`configFile, this`saves
      ensures Valid()
      ensures selectedLine.None? ==> report == NoShortcutSelected && hotkeys == old(hotkeys)
      ensures selectedLine.Some? ==>
        var key := ParseKey(selectedLine.value);
        && hotkeys == DeleteLine(old(hotkeys), selectedLine.value)
        && report == (if HasKey(old(hotkeys), key) then Deleted(key) else ShortcutNotFound)
      ensures report.Deleted? ==> configFile == Some(Snapshot()) && saves == old(saves) + 1
      ensures !report.Deleted? ==> configFile == old(configFile) && saves == old(saves)
    {
      if selectedLine.None? {
        report := NoShortcutSelected;
        return;
      }
      var key := ParseKey(selectedLine.value);
      assert DeleteLine(hotkeys, selectedLine.value) == DeleteKey(hotkeys, key);
      if HasKey(hotkeys, key) {
        LookupRemoveAt(hotkeys, KeyIndex(hotkeys, key), key);
        hotkeys := Delete(hotkeys, key);
        Save();
        report := Deleted(key);
      } else {
        report := ShortcutNotFound;
      }
    }

    /** The release handler of the uncalled `set_hotkey`: bind the key to the sound whether
        or not the key or the sound was bound before, and save. */
    method SetHotkeyRelease(text: string, sound: string)
      requires Valid()
      modifies this`hotkeys, this`configFile, this`saves
      ensures Valid()
      ensures hotkeys == Put(old(hotkeys), Canonical(text), sound)
      ensures Lookup(hotkeys, Canonical(text)) == Some(sound)
      ensures configFile == Some(Snapshot()) && saves == old(saves) + 1
    {
      var key := Canonical(text);
      LookupPut(hotkeys, key, sound, key);
      hotkeys := Put(hotkeys, key, sound);
      Save();
    }
  }

  /** Dispatch: with `{"x": "boo.wav"}`, pressing `x` (text `'x'`) plays `sound/boo.wav` once
      and counts one play. */
  method DispatchScenario() returns (board: Soundboard)
    ensures board.playRequests == ["sound/boo.wav"] && board.playScore == 1
  {
    board := new Soundboard("sound", Some(Config(Some([("x", "boo.wav")]), None, None)));
    var prompt := board.GetFiles([]);
    assert board.hotkeys == [("x", "boo.wav")];
    assert KeyIndex(board.hotkeys, "x") == 0;
    QuotedCharKey('x');
    assert "'x'" == [Quote, 'x', Quote];
    board.OnPress("'x'");
    assert Lookup(board.hotkeys, "x") == Some("boo.wav");
    assert Join("sound", "boo.wav") == "sound/boo.wav";
  }
}
