/** The directory scan of `get_files`: the sound directory's listing becomes
    `menu`, a list of categories `[directory path, file name, ...]`.

    The listing is an input value. Each entry is what `os.path.isfile` /
    `os.path.isdir` report for it; a folder carries its own listing. */
module SoundDirectory {
  import opened Paths

  datatype Entry =
    | File(name: string)
    | Folder(name: string, entries: seq<Entry>)
    | Other(name: string)   // neither a regular file nor a directory

  /** The extensions `get_files` recognises, compared case-sensitively. */
  const AudioExtensions: seq<string> := [".wav", ".mp3", ".m4a"]

  /** A recognised name: one of the extensions ends it, after something other than dots.
      `IsAudioNameIff` proves this is the `splitext` test of `get_files`. */
  predicate IsAudioName(name: string) {
    |name| >= 4 && name[|name| - 4..] in AudioExtensions && !AllDots(name[..|name| - 4])
  }

  /** What one entry adds to its directory's files: its name, if it is a recognised file. */
  function AudioFile(e: Entry): seq<string> {
    if e.File? && IsAudioName(e.name) then [e.name] else []
  }

  /** The recognised file names among the first `n` entries, in listing order. */
  function FilesUpTo(es: seq<Entry>, n: nat): seq<string>
    requires n <= |es|
  {
    if n == 0 then [] else FilesUpTo(es, n - 1) + AudioFile(es[n - 1])
  }

  /** The recognised file names of one listing, in listing order (subfolders are skipped). */
  function AudioFiles(es: seq<Entry>): seq<string> {
    FilesUpTo(es, |es|)
  }

  /** The category a folder of the root contributes: none when it holds no recognised file. */
  function FolderCategory(root: string, e: Entry): seq<seq<string>> {
    if e.Folder? && AudioFiles(e.entries) != [] then [[Join(root, e.name)] + AudioFiles(e.entries)] else []
  }

  /** Folder entry `e` of the root contributes category `c`. */
  predicate YieldsCategory(root: string, e: Entry, c: seq<string>) {
    e.Folder? && AudioFiles(e.entries) != [] && c == [Join(root, e.name)] + AudioFiles(e.entries)
  }

  /** The categories of the first `n` entries of the root, in listing order. */
  function CategoriesUpTo(root: string, es: seq<Entry>, n: nat): seq<seq<string>>
    requires n <= |es|
  {
    if n == 0 then [] else CategoriesUpTo(root, es, n - 1) + FolderCategory(root, es[n - 1])
  }

  /** The categories of the root's folders, in listing order. */
  function Folders(root: string, es: seq<Entry>): seq<seq<string>> {
    CategoriesUpTo(root, es, |es|)
  }

  /** The catalog: one category per folder with a recognised file, then the root's own
      category when the root holds a recognised file. */
  function Catalog(root: string, es: seq<Entry>): seq<seq<string>> {
    Folders(root, es) + (if AudioFiles(es) != [] then [[root] + AudioFiles(es)] else [])
  }

  /** The inner loop of `get_files` (lines 71-78): `[path]` followed by the folder's recognised files. */
  method CollectFolder(path: string, entries: seq<Entry>) returns (category: seq<string>)
    ensures category == [path] + AudioFiles(entries)
  {
    category := [path];
    var i := 0;
    while i < |entries|
      invariant 0 <= i <= |entries|
      invariant category == [path] + FilesUpTo(entries, i)
    {
      var item := entries[i];
      if item.File? {
        IsAudioNameIff(item.name);
        if Extension(item.name) in AudioExtensions {
          category := category + [item.name];
        }
      }
      i := i + 1;
    }
  }

  /** One pass of the outer loop of `get_files` (lines 63-81): a recognised file of the root
      joins the root's category, a folder with a recognised file adds its category. */
  method ScanEntry(root: string, item: Entry, sounds: seq<seq<string>>, rootCategory: seq<string>)
    returns (sounds': seq<seq<string>>, rootCategory': seq<string>)
    ensures sounds' == sounds + FolderCategory(root, item)
    ensures rootCategory' == rootCategory + AudioFile(item)
  {
    sounds', rootCategory' := sounds, rootCategory;
    if item.File? {
      IsAudioNameIff(item.name);
      if Extension(item.name) in AudioExtensions {
        rootCategory' := rootCategory + [item.name];
      }
    } else if item.Folder? {
      var category := CollectFolder(Join(root, item.name), item.entries);
      if |category| > 1 {
        sounds' := sounds + [category];
      }
    }
  }

  /** The outer loop of `get_files` (lines 60-84): the catalog of the root's listing. */
  method ScanDirectory(root: string, listing: seq<Entry>) returns (sounds: seq<seq<string>>)
    ensures sounds == Catalog(root, listing)
  {
    sounds := [];
    var rootCategory := [root];
    var i := 0;
    while i < |listing|
      invariant 0 <= i <= |listing|
      invariant sounds == CategoriesUpTo(root, listing, i)
      invariant rootCategory == [root] + FilesUpTo(listing, i)
    {
      sounds, rootCategory := ScanEntry(root, listing[i], sounds, rootCategory);
      i := i + 1;
    }
    assert sounds == Folders(root, listing);
    assert rootCategory == [root] + AudioFiles(listing);
    if |rootCategory| > 1 {
      sounds := sounds + [rootCategory];
    }
  }

  /** A file entry contributes its name exactly when that name is recognised. */
  lemma AudioFileIff(e: Entry, f: string)
    ensures f in AudioFile(e) <==> e == File(f) && IsAudioName(f)
  {
  }

  /** A folder entry contributes category `c` exactly when it yields it. */
  lemma FolderCategoryIff(root: string, e: Entry, c: seq<string>)
    ensures c in FolderCategory(root, e) <==> YieldsCategory(root, e, c)
  {
  }

  /** Whatever one of the first `n` entries contributes is among their files. */
  lemma {:induction false} FilesComplete(es: seq<Entry>, n: nat, i: nat, f: string)
    requires i < n <= |es| && f in AudioFile(es[i])
    ensures f in FilesUpTo(es, n)
  {
    if i < n - 1 {
      FilesComplete(es, n - 1, i, f);
    }
  }

  /** Every file among the first `n` entries' files comes from one of them: its index. */
  lemma {:induction false} FilesSound(es: seq<Entry>, n: nat, f: string) returns (i: nat)
    requires n <= |es| && f in FilesUpTo(es, n)
    ensures i < n && f in AudioFile(es[i])
  {
    if f in FilesUpTo(es, n - 1) {
      i := FilesSound(es, n - 1, f);
    } else {
      i := n - 1;
    }
  }

  /** A file name is listed exactly when the listing holds it as a file with a recognised extension. */
  lemma AudioFilesIff(es: seq<Entry>, f: string)
    ensures f in AudioFiles(es) <==> exists i :: 0 <= i < |es| && es[i] == File(f) && IsAudioName(f)
  {
    if f in AudioFiles(es) {
      var i := FilesSound(es, |es|, f);
      AudioFileIff(es[i], f);
    }
    if exists i :: 0 <= i < |es| && es[i] == File(f) && IsAudioName(f) {
      var i :| 0 <= i < |es| && es[i] == File(f) && IsAudioName(f);
      AudioFileIff(es[i], f);
      FilesComplete(es, |es|, i, f);
    }
  }

  /** Whatever one of the first `n` entries contributes is among their categories. */
  lemma {:induction false} CategoriesComplete(root: string, es: seq<Entry>, n: nat, i: nat, c: seq<string>)
    requires i < n <= |es| && c in FolderCategory(root, es[i])
    ensures c in CategoriesUpTo(root, es, n)
  {
    if i < n - 1 {
      CategoriesComplete(root, es, n - 1, i, c);
    }
  }

  /** Every category of the first `n` entries comes from one of them: its index. */
  lemma {:induction false} CategoriesSound(root: string, es: seq<Entry>, n: nat, c: seq<string>) returns (i: nat)
    requires n <= |es| && c in CategoriesUpTo(root, es, n)
    ensures i < n && c in FolderCategory(root, es[i])
  {
    if c in CategoriesUpTo(root, es, n - 1) {
      i := CategoriesSound(root, es, n - 1, c);
    } else {
      i := n - 1;
    }
  }

  /** The folder categories are exactly those of the root's folders that hold a recognised file. */
  lemma FoldersIff(root: string, es: seq<Entry>, c: seq<string>)
    ensures c in Folders(root, es) <==> exists i :: 0 <= i < |es| && YieldsCategory(root, es[i], c)
  {
    if c in Folders(root, es) {
      var i := CategoriesSound(root, es, |es|, c);
      FolderCategoryIff(root, es[i], c);
    }
    if exists i :: 0 <= i < |es| && YieldsCategory(root, es[i], c) {
      var i :| 0 <= i < |es| && YieldsCategory(root, es[i], c);
      FolderCategoryIff(root, es[i], c);
      CategoriesComplete(root, es, |es|, i, c);
    }
  }

  /** Every category of the catalog names its directory and at least one recognised file. */
  lemma CatalogCategoriesNonEmpty(root: string, es: seq<Entry>, c: seq<string>)
    requires c in Catalog(root, es)
    ensures |c| >= 2
    ensures forall f :: f in c[1..] ==> IsAudioName(f)
  {
    var files: seq<string>;
    if c in Folders(root, es) {
      FoldersIff(root, es, c);
      var i :| 0 <= i < |es| && YieldsCategory(root, es[i], c);
      files := AudioFiles(es[i].entries);
      forall f | f in files ensures IsAudioName(f) { AudioFilesIff(es[i].entries, f); }
    } else {
      files := AudioFiles(es);
      forall f | f in files ensures IsAudioName(f) { AudioFilesIff(es, f); }
    }
    assert c[1..] == files;
  }

  /** The root category comes last, and is there exactly when the root holds a recognised file. */
  lemma RootCategoryLast(root: string, es: seq<Entry>)
    ensures var cat := Catalog(root, es);
      (exists i :: 0 <= i < |es| && es[i].File? && IsAudioName(es[i].name)) <==>
      (cat != [] && cat[|cat| - 1] == [root] + AudioFiles(es) && AudioFiles(es) != [])
  {
    if exists i :: 0 <= i < |es| && es[i].File? && IsAudioName(es[i].name) {
      var i :| 0 <= i < |es| && es[i].File? && IsAudioName(es[i].name);
      AudioFilesIff(es, es[i].name);
    }
    if AudioFiles(es) != [] {
      AudioFilesIff(es, AudioFiles(es)[0]);
    }
  }

  /** An entry as `get_files` sees it: a file is kept; for a folder, only its direct
      files matter, so the folders inside it are kept as empty folders. */
  function ShallowEntry(e: Entry): Entry {
    if e.Folder? then Folder(e.name, Flatten(e.entries)) else e
  }

  function FlatEntry(e: Entry): Entry {
    if e.Folder? then Folder(e.name, []) else e
  }

  /** The listing as `get_files` sees it: the folders inside a folder are kept only as empty folders. */
  function Shallow(es: seq<Entry>): seq<Entry> {
    seq(|es|, i requires 0 <= i < |es| => ShallowEntry(es[i]))
  }

  function Flatten(es: seq<Entry>): seq<Entry> {
    seq(|es|, i requires 0 <= i < |es| => FlatEntry(es[i]))
  }

  /** Two listings whose entries add the same files have the same files. */
  lemma {:induction false} FilesAgree(xs: seq<Entry>, ys: seq<Entry>, n: nat)
    requires n <= |xs| && n <= |ys|
    requires forall i :: 0 <= i < n ==> AudioFile(xs[i]) == AudioFile(ys[i])
    ensures FilesUpTo(xs, n) == FilesUpTo(ys, n)
  {
    if n > 0 {
      FilesAgree(xs, ys, n - 1);
    }
  }

  /** Two listings whose entries contribute the same categories have the same categories. */
  lemma {:induction false} CategoriesAgree(root: string, xs: seq<Entry>, ys: seq<Entry>, n: nat)
    requires n <= |xs| && n <= |ys|
    requires forall i :: 0 <= i < n ==> FolderCategory(root, xs[i]) == FolderCategory(root, ys[i])
    ensures CategoriesUpTo(root, xs, n) == CategoriesUpTo(root, ys, n)
  {
    if n > 0 {
      CategoriesAgree(root, xs, ys, n - 1);
    }
  }

  /** Only the files of a listing matter for its recognised files. */
  lemma FilesFlatten(es: seq<Entry>)
    ensures AudioFiles(Flatten(es)) == AudioFiles(es)
  {
    forall i | 0 <= i < |es| ensures AudioFile(Flatten(es)[i]) == AudioFile(es[i]) {
      assert Flatten(es)[i] == FlatEntry(es[i]);
    }
    FilesAgree(Flatten(es), es, |es|);
  }

  /** Seeing an entry shallowly changes neither what it adds to the root's files nor its category. */
  lemma ShallowEntrySame(root: string, e: Entry)
    ensures AudioFile(ShallowEntry(e)) == AudioFile(e)
    ensures FolderCategory(root, ShallowEntry(e)) == FolderCategory(root, e)
  {
    if e.Folder? {
      FilesFlatten(e.entries);
    }
  }

  /** Deeper directories are ignored: the catalog depends on the root and its folders only. */
  lemma CatalogIgnoresDeeperFolders(root: string, es: seq<Entry>)
    ensures Catalog(root, Shallow(es)) == Catalog(root, es)
  {
    var sh := Shallow(es);
    forall i | 0 <= i < |es|
      ensures AudioFile(sh[i]) == AudioFile(es[i])
      ensures FolderCategory(root, sh[i]) == FolderCategory(root, es[i])
    {
      assert sh[i] == ShallowEntry(es[i]);
      ShallowEntrySame(root, es[i]);
    }
    FilesAgree(sh, es, |es|);
    CategoriesAgree(root, sh, es, |es|);
  }

  /** An empty sound directory gives an empty catalog. */
  lemma EmptyDirectoryEmptyCatalog(root: string)
    ensures Catalog(root, []) == []
  {
  }

  /** The recognised names are exactly those whose `splitext` extension is in the list. */
  lemma IsAudioNameIff(name: string)
    ensures IsAudioName(name) <==> Extension(name) in AudioExtensions
  {
    ExtensionOfLength4(name, ".wav");
    ExtensionOfLength4(name, ".mp3");
    ExtensionOfLength4(name, ".m4a");
  }

  /** A name with one of the extensions after a stem is recognised, whatever dots the stem holds. */
  lemma RecognisedNames()
    ensures IsAudioName("laugh.wav") && IsAudioName("clip.final.m4a")
  {
    assert IsAudioName("laugh.wav") by {
      var n := "laugh.wav";
      assert n[5..] == AudioExtensions[0];
      assert n[..5][0] == 'l';
    }
    assert IsAudioName("clip.final.m4a") by {
      var n := "clip.final.m4a";
      assert n[10..] == AudioExtensions[2];
      assert n[..10][0] == 'c';
    }
  }

  /** A name whose third-last character is neither `w` nor `m` ends in none of the extensions. */
  lemma NotAudioEnding(name: string)
    requires |name| >= 4 && name[|name| - 3] != 'w' && name[|name| - 3] != 'm'
    ensures !IsAudioName(name)
  {
    var x := name[|name| - 4..];
    assert x[1] == name[|name| - 3];
    assert x != AudioExtensions[0] && x != AudioExtensions[1] && x != AudioExtensions[2];
  }

  /** The extension match is case-sensitive, needs a stem before the dot and looks only at the
      last extension. */
  lemma UnrecognisedNames()
    ensures !IsAudioName("LAUGH.WAV") && !IsAudioName(".wav") && !IsAudioName("laugh.wav.txt")
  {
    NotAudioEnding("LAUGH.WAV");
    NotAudioEnding("laugh.wav.txt");
    assert ".wav"[..0] == [];
  }
}
