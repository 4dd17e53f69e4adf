/** The local file system the worker and the crawler touch, as the set of
    paths of the files that exist. Whether the operating system refuses an
    operation is an input (`refused`); nothing else about files is
    modelled. */
module LocalFs {

  class LocalDisk {
    var files: set<string>

    constructor(files: set<string>)
      ensures this.files == files
    {
      this.files := files;
    }

    /** `fs.existsSync(p)`. */
    predicate Exists(p: string)
      reads this
    {
      p in files
    }

    /** A file written at `p` (curl's `-o`, ffmpeg's output with `-y`). */
    method Write(p: string)
      modifies this
      ensures files == old(files) + {p}
    {
      files := files + {p};
    }

    /** `fs.unlink(p)` / `fs.unlinkSync(p)`: fails when there is no such
        file or the system refuses; otherwise the file is gone. */
    method Unlink(p: string, refused: set<string>) returns (ok: bool)
      modifies this
      ensures ok <==> p in old(files) && p !in refused
      ensures files == if ok then old(files) - {p} else old(files)
    {
      ok := p in files && p !in refused;
      if ok {
        files := files - {p};
      }
    }

    /** `fs.renameSync(from, to)`: fails when there is no such file or the
        system refuses; otherwise the file is found at `to` only, replacing
        any file there. */
    method Rename(from: string, to: string, refused: bool) returns (ok: bool)
      modifies this
      ensures ok <==> from in old(files) && !refused
      ensures files == if ok then old(files) - {from} + {to} else old(files)
    {
      ok := from in files && !refused;
      if ok {
        files := files - {from} + {to};
      }
    }
  }
}
