/**
 * Names and paths in the catalog tree.
 *
 * A path is the sequence of its components. A folder's metadata lives
 * inside the folder, in a file named after it with ".json" appended; an
 * entry is a file whose name ends in ".md", compared without regard to
 * ASCII case. The tree shows folders and entries and nothing else, which
 * is what keeps the metadata files out of sight.
 */
module CatalogPaths {
  import opened Text

  /** A path as its components, from the root down. */
  type Path = seq<string>

  /** The last component of a path; the root has the empty name. */
  function Name(p: Path): string {
    if |p| == 0 then "" else p[|p| - 1]
  }

  /** Where a folder's metadata is stored: inside the folder, under the
      folder's own name with ".json" appended. */
  function FolderMetaPath(folder: Path): (r: Path)
    ensures |r| == |folder| + 1 && r[..|folder|] == folder
    ensures Name(r) == Name(folder) + ".json"
  {
    folder + [Name(folder) + ".json"]
  }

  /** Two folders never share a metadata file, and the metadata file of a
      folder is never the metadata file of a folder nested in it. */
  lemma FolderMetaPathInjective(a: Path, b: Path)
    ensures FolderMetaPath(a) == FolderMetaPath(b) <==> a == b
  {
    if FolderMetaPath(a) == FolderMetaPath(b) {
      assert a == FolderMetaPath(a)[..|a|];
      assert b == FolderMetaPath(b)[..|b|];
    }
  }

  /** The tree's filter: an invalid row is dropped, a folder is shown, a
      file is shown when its lower-cased name ends in ".md". */
  function AcceptsRow(valid: bool, isDir: bool, name: string): (b: bool)
    ensures b <==> valid && (isDir || (|name| >= 3 && name[|name| - 3] == '.'
                                       && name[|name| - 2] in "mM" && name[|name| - 1] in "dD"))
  {
    valid && (isDir || EndsWith(Lower(name), ".md"))
  }

  /** Lower-casing keeps a lower-case suffix at the end. */
  lemma LowerEndsWith(s: string, suffix: string)
    requires Lower(suffix) == suffix
    ensures EndsWith(Lower(s + suffix), suffix)
  {
    var l := Lower(s + suffix);
    assert l[|s|..] == Lower(suffix);
  }

  /** A folder's metadata file is never shown in the tree. */
  lemma MetaFileHidden(folder: Path)
    ensures !AcceptsRow(true, false, Name(FolderMetaPath(folder)))
  {
    var name := Name(folder) + ".json";
    var l := Lower(name);
    assert l[|l| - 1] == 'n';
  }

  /** Every folder is shown, whatever its name. */
  lemma FoldersShown(name: string)
    ensures AcceptsRow(true, true, name)
  {
  }

  /** The file name a new entry is created under: nothing when the prompt
      was cancelled or the name is blank; otherwise the name stripped of
      surrounding whitespace, with ".md" appended unless its lower-cased
      form already ends in ".md". */
  function EntryFileName(ok: bool, name: string): (r: Option<string>)
    ensures r.None? <==> !ok || Strip(name) == ""
    ensures r.Some? ==> StartsWith(r.value, Strip(name))
    ensures r.Some? && EndsWith(Lower(Strip(name)), ".md") ==> r.value == Strip(name)
    ensures r.Some? && !EndsWith(Lower(Strip(name)), ".md") ==> r.value == Strip(name) + ".md"
  {
    if !ok || Strip(name) == "" then None
    else
      var safe := Strip(name);
      if EndsWith(Lower(safe), ".md") then Some(safe) else Some(safe + ".md")
  }

  /** A created entry is shown in the tree. */
  lemma EntryFileShown(name: string)
    requires EntryFileName(true, name).Some?
    ensures AcceptsRow(true, false, EntryFileName(true, name).value)
  {
    var safe := Strip(name);
    if !EndsWith(Lower(safe), ".md") {
      LowerEndsWith(safe, ".md");
    }
  }

  /** A name that is already a stripped entry name, ending in ".md" in
      any case, is taken as it is. */
  lemma EntryNameKept(name: string)
    requires name != "" && Stripped(name) && EndsWith(Lower(name), ".md")
    ensures EntryFileName(true, name) == Some(name)
  {
    StrippedFixed(name);
  }

  /** Naming an entry twice gives the name it got the first time. */
  lemma EntryFileNameIdempotent(name: string)
    requires EntryFileName(true, name).Some?
    ensures EntryFileName(true, EntryFileName(true, name).value) == EntryFileName(true, name)
  {
    var safe := Strip(name);
    var r := EntryFileName(true, name).value;
    StrippedFixed(safe);
    if r != safe {
      assert r == safe + ".md";
      assert r[0] == safe[0] && r[|r| - 1] == 'd';
      assert Stripped(r);
      LowerEndsWith(safe, ".md");
    }
    EntryNameKept(r);
  }
}
