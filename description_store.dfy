/** `DescriptionStore`: one Markdown file per task id under a folder. */
module Descriptions {
  import opened Wrappers
  import opened Wire
  import opened Files

  /**
   * `folder / f"{task_id}.md"`. An id without `/` names one file directly in
   * the folder; `pathlib` would read a `/` inside an id as a directory step.
   */
  function DescriptionPath(folder: Path, id: string): (p: Path)
    ensures |p| == |folder| + |id| + 4
    ensures p[..|folder| + 1] == folder + "/" && p[|p| - 3..] == ".md"
    ensures '/' !in id ==> '/' !in p[|folder| + 1..]
  {
    var p := folder + "/" + id + ".md";
    assert p[|folder| + 1..] == id + ".md";
    p
  }

  /** Different ids without `/` (as `uuid4` ids are) have different description files. */
  lemma DescriptionPathInjective(folder: Path, a: string, b: string)
    requires '/' !in a && '/' !in b
    requires DescriptionPath(folder, a) == DescriptionPath(folder, b)
    ensures a == b
  {
    var pa := DescriptionPath(folder, a);
    var pb := DescriptionPath(folder, b);
    assert |a| == |b|;
    assert pa[|folder| + 1..|pa| - 3] == a;
    assert pb[|folder| + 1..|pb| - 3] == b;
  }

  /** The description kept for an id: `None` when its file does not exist. */
  function DescriptionOf(files: map<Path, Text>, folder: Path, id: string): Option<Text> {
    var p := DescriptionPath(folder, id);
    if p in files then Some(files[p]) else None
  }

  /** Saving the description of one id leaves every other id's description as it was. */
  lemma SaveKeepsOthers(files: map<Path, Text>, folder: Path, id: string, other: string, text: Text)
    requires '/' !in id && '/' !in other
    requires other != id
    ensures DescriptionOf(files[DescriptionPath(folder, id) := text], folder, other)
         == DescriptionOf(files, folder, other)
  {
    if DescriptionPath(folder, id) == DescriptionPath(folder, other) {
      DescriptionPathInjective(folder, id, other);
    }
  }

  /** Loading creates a missing description file, leaving every other id's description as it was. */
  lemma LoadKeepsOthers(files: map<Path, Text>, folder: Path, id: string, other: string)
    requires '/' !in id && '/' !in other
    requires other != id
    ensures DescriptionOf(Ensured(files, DescriptionPath(folder, id)), folder, other)
         == DescriptionOf(files, folder, other)
  {
    if DescriptionPath(folder, id) == DescriptionPath(folder, other) {
      DescriptionPathInjective(folder, id, other);
    }
  }

  class DescriptionStore {
    const folder: Path
    const fs: FileSystem

    constructor(folder: Path, fs: FileSystem)
      ensures this.folder == folder && this.fs == fs
    {
      this.folder := folder;
      this.fs := fs;
    }

    /** `_get_description_file`: a new locked file on the id's path. */
    method DescriptionFile(id: string) returns (f: LockedFile)
      ensures fresh(f) && f.path == DescriptionPath(folder, id) && f.fs == fs
    {
      f := new LockedFile(DescriptionPath(folder, id), fs);
    }

    /**
     * `load_description`: the stored text. The read creates a missing file
     * first, so the result is the empty text rather than `None`.
     */
    method LoadDescription(id: string) returns (d: Option<Text>)
      modifies fs
      ensures d == Some(DescriptionOf(old(fs.files), folder, id).GetOr(Plain("")))
      ensures fs.files == Ensured(old(fs.files), DescriptionPath(folder, id))
    {
      var f := DescriptionFile(id);
      var content := f.Read();
      d := Some(content);
    }

    /** `save_description`: the id's file holds exactly the new text. */
    method SaveDescription(id: string, description: Text)
      modifies fs
      ensures fs.files == old(fs.files)[DescriptionPath(folder, id) := description]
      ensures DescriptionOf(fs.files, folder, id) == Some(description)
    {
      var f := DescriptionFile(id);
      f.Write(description);
    }
  }

  /** Saving then loading a description gives back the saved text. */
  method SaveThenLoad(store: DescriptionStore, id: string, description: Text) returns (d: Option<Text>)
    modifies store.fs
    ensures d == Some(description)
  {
    store.SaveDescription(id, description);
    d := store.LoadDescription(id);
  }
}
