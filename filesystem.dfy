/** The file system the three components share: a map from path to contents,
    together with an oracle saying which operations the operating system
    refuses and with what message. Directories are implicit (path prefixes). */
module FileSystem {
  import opened Wrappers
  import opened Text

  type Path = string
  type Files = map<Path, Bytes>

  /** The operations that fail, each with the `io::Error` text the OS gives:
      reads and writes of a path, renames of a source to a destination (for
      instance across devices), removals of a path. */
  datatype Faults = Faults(
    read: map<Path, string>,
    write: map<Path, string>,
    rename: map<(Path, Path), string>,
    remove: map<Path, string>)

  const NoFaults := Faults(map[], map[], map[], map[])

  /** The files after an operation and what the operation returned. */
  datatype Step<T> = Step(files: Files, result: Result<T, string>)

  /** The text of `io::ErrorKind::NotFound` on Linux. */
  const NotFound := "No such file or directory (os error 2)"

  /** `fs::read`. */
  function ReadFile(files: Files, faults: Faults, p: Path): Result<Bytes, string>
  {
    if p in faults.read then Err(faults.read[p])
    else if p in files then Ok(files[p])
    else Err(NotFound)
  }

  /** `fs::write`: creates or replaces the file. */
  function WriteFile(files: Files, faults: Faults, p: Path, data: Bytes): Result<Files, string>
  {
    if p in faults.write then Err(faults.write[p]) else Ok(files[p := data])
  }

  /** `fs::rename`: the contents move from `src` to `dst`. */
  function RenameFile(files: Files, faults: Faults, src: Path, dst: Path): Result<Files, string>
  {
    if (src, dst) in faults.rename then Err(faults.rename[(src, dst)])
    else if src !in files then Err(NotFound)
    else Ok((files - {src})[dst := files[src]])
  }

  /** `fs::copy`: read the source, write the destination. */
  function CopyFile(files: Files, faults: Faults, src: Path, dst: Path): Result<Files, string>
  {
    match ReadFile(files, faults, src)
    case Err(e) => Err(e)
    case Ok(data) => WriteFile(files, faults, dst, data)
  }

  /** `fs::remove_file`. */
  function RemoveFile(files: Files, faults: Faults, p: Path): Result<Files, string>
  {
    if p in faults.remove then Err(faults.remove[p])
    else if p !in files then Err(NotFound)
    else Ok(files - {p})
  }

  /** The files after an operation: its new state when it succeeded, the old
      state when it failed (a failed operation changes nothing). */
  function After(files: Files, r: Result<Files, string>): Files
  {
    if r.Ok? then r.value else files
  }

  /** What the caller of an operation sees: success, or the error text. */
  function Status(r: Result<Files, string>): Result<(), string>
  {
    if r.Ok? then Ok(()) else Err(r.error)
  }

  class FileStore {
    var files: Files
    const faults: Faults

    constructor (files: Files, faults: Faults)
      ensures this.files == files && this.faults == faults
    {
      this.files := files;
      this.faults := faults;
    }

    /** `Path::exists`. */
    function Exists(p: Path): bool
      reads this
    {
      p in files
    }

    method Read(p: Path) returns (r: Result<Bytes, string>)
      ensures r == ReadFile(files, faults, p)
    {
      if p in faults.read {
        r := Err(faults.read[p]);
      } else if p in files {
        r := Ok(files[p]);
      } else {
        r := Err(NotFound);
      }
    }

    method Write(p: Path, data: Bytes) returns (r: Result<(), string>)
      modifies this
      ensures files == After(old(files), WriteFile(old(files), faults, p, data))
      ensures r == Status(WriteFile(old(files), faults, p, data))
    {
      if p in faults.write {
        r := Err(faults.write[p]);
      } else {
        files := files[p := data];
        r := Ok(());
      }
    }

    method Rename(src: Path, dst: Path) returns (r: Result<(), string>)
      modifies this
      ensures files == After(old(files), RenameFile(old(files), faults, src, dst))
      ensures r == Status(RenameFile(old(files), faults, src, dst))
    {
      if (src, dst) in faults.rename {
        r := Err(faults.rename[(src, dst)]);
      } else if src !in files {
        r := Err(NotFound);
      } else {
        files := (files - {src})[dst := files[src]];
        r := Ok(());
      }
    }

    method Copy(src: Path, dst: Path) returns (r: Result<(), string>)
      modifies this
      ensures files == After(old(files), CopyFile(old(files), faults, src, dst))
      ensures r == Status(CopyFile(old(files), faults, src, dst))
    {
      var data := Read(src);
      if data.Err? {
        r := Err(data.error);
      } else {
        r := Write(dst, data.value);
      }
    }

    method Remove(p: Path) returns (r: Result<(), string>)
      modifies this
      ensures files == After(old(files), RemoveFile(old(files), faults, p))
      ensures r == Status(RemoveFile(old(files), faults, p))
    {
      if p in faults.remove {
        r := Err(faults.remove[p]);
      } else if p !in files {
        r := Err(NotFound);
      } else {
        files := files - {p};
        r := Ok(());
      }
    }
  }
}
