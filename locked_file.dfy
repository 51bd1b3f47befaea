/**
 * Files as a map from path to content, and `LockedFile`, which reads and
 * writes one path, creating it empty first if it is missing. The lock only
 * orders concurrent calls and is not modelled.
 */
module Files {
  import opened Wire

  type Path = string

  /** The file tree, as the content of each existing file. */
  class FileSystem {
    var files: map<Path, Text>

    constructor(files: map<Path, Text>)
      ensures this.files == files
    {
      this.files := files;
    }
  }

  /** The files after `_ensure_exists` on `p`: a missing file appears empty, nothing else changes. */
  function Ensured(files: map<Path, Text>, p: Path): (r: map<Path, Text>)
    ensures r.Keys == files.Keys + {p}
    ensures forall q | q in files :: r[q] == files[q]
    ensures p !in files ==> r[p] == Plain("")
  {
    if p in files then files else files[p := Plain("")]
  }

  /** Creating a missing file touches no other path. */
  lemma EnsuredOthers(files: map<Path, Text>, p: Path)
    ensures p in Ensured(files, p) && Ensured(files, p) - {p} == files - {p}
  {
  }

  /** Ensuring twice is ensuring once. */
  lemma EnsuredTwice(files: map<Path, Text>, p: Path)
    ensures Ensured(Ensured(files, p), p) == Ensured(files, p)
  {
  }

  /** What a read of `p` returns: the content, or the empty text for a missing file. */
  function ReadResult(files: map<Path, Text>, p: Path): (t: Text)
    ensures p in files ==> t == files[p]
    ensures p !in files ==> t == Plain("")
  {
    Ensured(files, p)[p]
  }

  class LockedFile {
    const path: Path
    const fs: FileSystem

    constructor(path: Path, fs: FileSystem)
      ensures this.path == path && this.fs == fs
    {
      this.path := path;
      this.fs := fs;
    }

    /** `_ensure_exists`: creates the file empty if missing; never alters existing content. */
    method EnsureExists()
      modifies fs
      ensures fs.files == Ensured(old(fs.files), path)
    {
      if path !in fs.files {
        fs.files := fs.files[path := Plain("")];
      }
    }

    /** `read`: the content of the file, which is created empty if missing. */
    method Read() returns (content: Text)
      modifies fs
      ensures fs.files == Ensured(old(fs.files), path)
      ensures content == ReadResult(old(fs.files), path)
    {
      EnsureExists();
      content := fs.files[path];
    }

    /** `write`: the file's content becomes `data`; no other path changes. */
    method Write(data: Text)
      modifies fs
      ensures fs.files == old(fs.files)[path := data]
    {
      EnsureExists();
      fs.files := fs.files[path := data];
    }
  }

  /** A read after a write returns what was written. */
  method WriteThenRead(f: LockedFile, data: Text) returns (got: Text)
    modifies f.fs
    ensures got == data
    ensures f.fs.files == old(f.fs.files)[f.path := data]
  {
    f.Write(data);
    got := f.Read();
  }
}
