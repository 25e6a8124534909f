/**
 * The file manager's directory listing: dotfiles are hidden, every other
 * entry gets one row whose icon name is chosen from the entry's kind and the
 * suffix of its lower-cased name, and the current path is remembered in a
 * fixed 4096-byte buffer.
 */
module Files {
  import opened Wrappers
  import opened Sequences
  import opened Text

  /** `sizeof(current_path)`: `g_strlcpy` keeps at most one byte less. */
  const PATH_BUF: nat := 4096

  const FOLDER_ICON: string := "folder"
  const DEFAULT_FILE_ICON: string := "text-x-generic"

  /** The suffix groups, in the order the branches test them, with the icon each selects. */
  const SuffixTable: seq<(seq<string>, string)> := [
    ([".png", ".jpg", ".jpeg", ".svg"], "image-x-generic"),
    ([".mp3", ".wav", ".flac"], "audio-x-generic"),
    ([".mp4", ".mkv"], "video-x-generic"),
    ([".pdf"], "application-pdf"),
    ([".c", ".py", ".js", ".h"], "text-x-script"),
    ([".zip", ".tar", ".gz"], "package-x-generic")
  ]

  /** `s` ends with one of `suffixes`. */
  predicate EndsWithAny(s: string, suffixes: seq<string>)
  {
    suffixes != [] && (HasSuffix(s, suffixes[0]) || EndsWithAny(s, suffixes[1..]))
  }

  /** The icon of the first group in `table` that has a suffix of `s`, or the default file icon. */
  function FirstMatch(s: string, table: seq<(seq<string>, string)>): (icon: string)
  {
    if table == [] then DEFAULT_FILE_ICON
    else if EndsWithAny(s, table[0].0) then table[0].1
    else FirstMatch(s, table[1..])
  }

  predicate IsImage(n: string)
  {
    HasSuffix(n, ".png") || HasSuffix(n, ".jpg") || HasSuffix(n, ".jpeg") || HasSuffix(n, ".svg")
  }

  predicate IsAudio(n: string)
  {
    HasSuffix(n, ".mp3") || HasSuffix(n, ".wav") || HasSuffix(n, ".flac")
  }

  predicate IsVideo(n: string)
  {
    HasSuffix(n, ".mp4") || HasSuffix(n, ".mkv")
  }

  predicate IsPdf(n: string)
  {
    HasSuffix(n, ".pdf")
  }

  predicate IsScript(n: string)
  {
    HasSuffix(n, ".c") || HasSuffix(n, ".py") || HasSuffix(n, ".js") || HasSuffix(n, ".h")
  }

  predicate IsPackage(n: string)
  {
    HasSuffix(n, ".zip") || HasSuffix(n, ".tar") || HasSuffix(n, ".gz")
  }

  /** The chain of suffix tests on a lower-cased file name; the first branch that matches wins. */
  function FileIcon(n: string): string
  {
    if IsImage(n) then "image-x-generic"
    else if IsAudio(n) then "audio-x-generic"
    else if IsVideo(n) then "video-x-generic"
    else if IsPdf(n) then "application-pdf"
    else if IsScript(n) then "text-x-script"
    else if IsPackage(n) then "package-x-generic"
    else DEFAULT_FILE_ICON
  }

  /** The icon `populate_files` picks: "folder" for a directory, otherwise by the suffix of the lower-cased name. */
  function IconFor(name: string, isDir: bool): string
  {
    if isDir then FOLDER_ICON else FileIcon(Lower(name))
  }

  /** Each branch of the chain tests exactly the suffixes of its group in the table. */
  lemma IsImageGroup(n: string)
    ensures EndsWithAny(n, SuffixTable[0].0) == IsImage(n)
  {
    assert SuffixTable[0].0 == [".png", ".jpg", ".jpeg", ".svg"];
    assert [".png", ".jpg", ".jpeg", ".svg"][1..] == [".jpg", ".jpeg", ".svg"];
    assert [".jpg", ".jpeg", ".svg"][1..] == [".jpeg", ".svg"];
    assert [".jpeg", ".svg"][1..] == [".svg"];
    assert [".svg"][1..] == [];
    assert EndsWithAny(n, [".png", ".jpg", ".jpeg", ".svg"]) == (HasSuffix(n, ".png") || EndsWithAny(n, [".jpg", ".jpeg", ".svg"]));
    assert EndsWithAny(n, [".jpg", ".jpeg", ".svg"]) == (HasSuffix(n, ".jpg") || EndsWithAny(n, [".jpeg", ".svg"]));
    assert EndsWithAny(n, [".jpeg", ".svg"]) == (HasSuffix(n, ".jpeg") || EndsWithAny(n, [".svg"]));
    assert EndsWithAny(n, [".svg"]) == (HasSuffix(n, ".svg") || EndsWithAny(n, []));
  }

  lemma IsAudioGroup(n: string)
    ensures EndsWithAny(n, SuffixTable[1].0) == IsAudio(n)
  {
    assert SuffixTable[1].0 == [".mp3", ".wav", ".flac"];
    assert [".mp3", ".wav", ".flac"][1..] == [".wav", ".flac"];
    assert [".wav", ".flac"][1..] == [".flac"];
    assert [".flac"][1..] == [];
    assert EndsWithAny(n, [".mp3", ".wav", ".flac"]) == (HasSuffix(n, ".mp3") || EndsWithAny(n, [".wav", ".flac"]));
    assert EndsWithAny(n, [".wav", ".flac"]) == (HasSuffix(n, ".wav") || EndsWithAny(n, [".flac"]));
    assert EndsWithAny(n, [".flac"]) == (HasSuffix(n, ".flac") || EndsWithAny(n, []));
  }

  lemma IsVideoGroup(n: string)
    ensures EndsWithAny(n, SuffixTable[2].0) == IsVideo(n)
  {
    assert SuffixTable[2].0 == [".mp4", ".mkv"];
    assert [".mp4", ".mkv"][1..] == [".mkv"];
    assert [".mkv"][1..] == [];
    assert EndsWithAny(n, [".mp4", ".mkv"]) == (HasSuffix(n, ".mp4") || EndsWithAny(n, [".mkv"]));
    assert EndsWithAny(n, [".mkv"]) == (HasSuffix(n, ".mkv") || EndsWithAny(n, []));
  }

  lemma IsPdfGroup(n: string)
    ensures EndsWithAny(n, SuffixTable[3].0) == IsPdf(n)
  {
    assert SuffixTable[3].0 == [".pdf"];
    assert [".pdf"][1..] == [];
    assert EndsWithAny(n, [".pdf"]) == (HasSuffix(n, ".pdf") || EndsWithAny(n, []));
  }

  lemma IsScriptGroup(n: string)
    ensures EndsWithAny(n, SuffixTable[4].0) == IsScript(n)
  {
    assert SuffixTable[4].0 == [".c", ".py", ".js", ".h"];
    assert [".c", ".py", ".js", ".h"][1..] == [".py", ".js", ".h"];
    assert [".py", ".js", ".h"][1..] == [".js", ".h"];
    assert [".js", ".h"][1..] == [".h"];
    assert [".h"][1..] == [];
    assert EndsWithAny(n, [".c", ".py", ".js", ".h"]) == (HasSuffix(n, ".c") || EndsWithAny(n, [".py", ".js", ".h"]));
    assert EndsWithAny(n, [".py", ".js", ".h"]) == (HasSuffix(n, ".py") || EndsWithAny(n, [".js", ".h"]));
    assert EndsWithAny(n, [".js", ".h"]) == (HasSuffix(n, ".js") || EndsWithAny(n, [".h"]));
    assert EndsWithAny(n, [".h"]) == (HasSuffix(n, ".h") || EndsWithAny(n, []));
  }

  lemma IsPackageGroup(n: string)
    ensures EndsWithAny(n, SuffixTable[5].0) == IsPackage(n)
  {
    assert SuffixTable[5].0 == [".zip", ".tar", ".gz"];
    assert [".zip", ".tar", ".gz"][1..] == [".tar", ".gz"];
    assert [".tar", ".gz"][1..] == [".gz"];
    assert [".gz"][1..] == [];
    assert EndsWithAny(n, [".zip", ".tar", ".gz"]) == (HasSuffix(n, ".zip") || EndsWithAny(n, [".tar", ".gz"]));
    assert EndsWithAny(n, [".tar", ".gz"]) == (HasSuffix(n, ".tar") || EndsWithAny(n, [".gz"]));
    assert EndsWithAny(n, [".gz"]) == (HasSuffix(n, ".gz") || EndsWithAny(n, []));
  }

  /** The chain of branches is the first-match lookup in the suffix table. */
  lemma IconIsTableLookup(name: string)
    ensures IconFor(name, false) == FirstMatch(Lower(name), SuffixTable)
  {
    var n := Lower(name);
    IsImageGroup(n);
    IsAudioGroup(n);
    IsVideoGroup(n);
    IsPdfGroup(n);
    IsScriptGroup(n);
    IsPackageGroup(n);
    var t := SuffixTable;
    var t1, t2, t3, t4, t5 := t[1..], t[2..], t[3..], t[4..], t[5..];
    assert t1[0] == t[1] && t1[1..] == t2;
    assert t2[0] == t[2] && t2[1..] == t3;
    assert t3[0] == t[3] && t3[1..] == t4;
    assert t4[0] == t[4] && t4[1..] == t5;
    assert t5[0] == t[5] && t5[1..] == [];
    assert FirstMatch(n, t5) == if IsPackage(n) then "package-x-generic" else DEFAULT_FILE_ICON;
    assert FirstMatch(n, t4) == if IsScript(n) then "text-x-script" else FirstMatch(n, t5);
    assert FirstMatch(n, t3) == if IsPdf(n) then "application-pdf" else FirstMatch(n, t4);
    assert FirstMatch(n, t2) == if IsVideo(n) then "video-x-generic" else FirstMatch(n, t3);
    assert FirstMatch(n, t1) == if IsAudio(n) then "audio-x-generic" else FirstMatch(n, t2);
  }

  /** A directory is always a folder, whatever its name ends with. */
  lemma DirectoryIsFolder(name: string)
    ensures IconFor(name, true) == FOLDER_ICON
  {
  }

  /** A file whose lower-cased name ends with none of the suffixes gets the generic file icon. */
  lemma {:induction false} UnknownSuffixIsGeneric(name: string)
    requires forall g :: 0 <= g < |SuffixTable| ==> !EndsWithAny(Lower(name), SuffixTable[g].0)
    ensures IconFor(name, false) == DEFAULT_FILE_ICON
  {
    IconIsTableLookup(name);
    NoMatchIsDefault(Lower(name), SuffixTable);
  }

  lemma {:induction false} NoMatchIsDefault(s: string, table: seq<(seq<string>, string)>)
    requires forall g :: 0 <= g < |table| ==> !EndsWithAny(s, table[g].0)
    ensures FirstMatch(s, table) == DEFAULT_FILE_ICON
  {
    if table != [] {
      assert !EndsWithAny(s, table[0].0);
      assert forall g :: 0 <= g < |table| - 1 ==> table[1..][g] == table[g + 1];
      NoMatchIsDefault(s, table[1..]);
    }
  }

  /** A matching group selects its icon when no earlier group matches. */
  lemma {:induction false} FirstMatchingGroup(s: string, table: seq<(seq<string>, string)>, g: nat)
    requires g < |table| && EndsWithAny(s, table[g].0)
    requires forall h :: 0 <= h < g ==> !EndsWithAny(s, table[h].0)
    ensures FirstMatch(s, table) == table[g].1
  {
    if g > 0 {
      assert !EndsWithAny(s, table[0].0);
      assert forall h :: 0 <= h < |table| - 1 ==> table[1..][h] == table[h + 1];
      FirstMatchingGroup(s, table[1..], g - 1);
    }
  }

  /** Classification ignores case: a name and its upper-cased form get the same icon. */
  lemma IconIgnoresCase(name: string, isDir: bool)
    ensures IconFor(Upper(name), isDir) == IconFor(name, isDir)
    ensures IconFor(Lower(name), isDir) == IconFor(name, isDir)
  {
    if !isDir {
      LowerOfUpper(name);
      LowerIdempotent(name);
    }
  }

  /** `name[0] == '.'`: the entry is a dotfile and is skipped. */
  predicate Hidden(name: string)
  {
    |name| > 0 && name[0] == '.'
  }

  /** One entry of the directory: its name and whether `g_file_test` reports a directory. */
  datatype DirEntry = DirEntry(name: string, isDir: bool)

  /** A row of the file store. */
  datatype FileRow = FileRow(icon: string, name: string, path: string, isDir: bool)

  /** `g_build_filename(dir, name)`, simplified to joining with one separator. */
  function BuildFilename(dir: string, name: string): string
  {
    if |dir| > 0 && dir[|dir| - 1] == '/' then dir + name else dir + "/" + name
  }

  function RowFor(dir: string, e: DirEntry): FileRow
  {
    FileRow(IconFor(e.name, e.isDir), e.name, BuildFilename(dir, e.name), e.isDir)
  }

  /** The rows `populate_files` appends for the entries read from `dir`, in read order. */
  function Listing(dir: string, entries: seq<DirEntry>): (rows: seq<FileRow>)
    ensures |rows| <= |entries|
  {
    if entries == [] then []
    else
      var e := entries[|entries| - 1];
      Listing(dir, entries[..|entries| - 1]) + (if Hidden(e.name) then [] else [RowFor(dir, e)])
  }

  lemma ListingStep(dir: string, entries: seq<DirEntry>, i: nat)
    requires i < |entries|
    ensures Listing(dir, entries[..i + 1]) ==
      Listing(dir, entries[..i]) + (if Hidden(entries[i].name) then [] else [RowFor(dir, entries[i])])
  {
    assert entries[..i + 1][..i] == entries[..i];
  }

  /** The non-hidden entries, in read order. */
  function Shown(entries: seq<DirEntry>): (r: seq<DirEntry>)
    ensures forall e :: e in r <==> e in entries && !Hidden(e.name)
  {
    if entries == [] then []
    else
      var e := entries[|entries| - 1];
      assert entries == entries[..|entries| - 1] + [e];
      Shown(entries[..|entries| - 1]) + (if Hidden(e.name) then [] else [e])
  }

  /**
   * The listing has exactly one row per non-hidden entry, in the same order,
   * named after it and carrying its icon; no dotfile appears.
   */
  lemma {:induction false} ListingIsShownEntries(dir: string, entries: seq<DirEntry>)
    ensures var rows := Listing(dir, entries);
      var shown := Shown(entries);
      |rows| == |shown|
      && forall k :: 0 <= k < |rows| ==>
        rows[k].name == shown[k].name && rows[k].isDir == shown[k].isDir
        && rows[k].icon == IconFor(shown[k].name, shown[k].isDir) && !Hidden(rows[k].name)
  {
    if entries != [] {
      ListingIsShownEntries(dir, entries[..|entries| - 1]);
    }
  }

  /** `g_strlcpy(current_path, path, sizeof current_path)`: the path, cut to 4095 characters. */
  function StoredPath(path: string): (r: string)
    ensures r <= path && |r| < PATH_BUF
    ensures |path| < PATH_BUF ==> r == path
    ensures |path| >= PATH_BUF ==> |r| == PATH_BUF - 1
  {
    Capped(path, PATH_BUF - 1)
  }

  class FileManager {
    /** `current_path`, also the text of the path label. */
    var currentPath: string
    /** The rows of `file_store`. */
    var rows: seq<FileRow>

    ghost predicate Valid()
      reads this
    {
      |currentPath| < PATH_BUF
    }

    constructor ()
      ensures Valid() && currentPath == [] && rows == []
    {
      currentPath := [];
      rows := [];
    }

    /**
     * `populate_files`: clear the store, remember the path, then list the
     * directory; `None` stands for a directory that cannot be opened.
     */
    method PopulateFiles(path: string, listing: Option<seq<DirEntry>>)
      modifies this
      ensures Valid()
      ensures currentPath == StoredPath(path)
      ensures rows == if listing.Some? then Listing(path, listing.value) else []
    {
      rows := [];
      currentPath := StoredPath(path);
      if listing.None? {
        return;
      }
      var entries := listing.value;
      var i := 0;
      while i < |entries|
        invariant 0 <= i <= |entries|
        invariant rows == Listing(path, entries[..i])
        invariant currentPath == StoredPath(path)
      {
        ListingStep(path, entries, i);
        var e := entries[i];
        if !Hidden(e.name) {
          var icon := IconFor(e.name, e.isDir);
          rows := rows + [FileRow(icon, e.name, BuildFilename(path, e.name), e.isDir)];
        }
        i := i + 1;
      }
      assert entries[..i] == entries;
    }
  }
}
