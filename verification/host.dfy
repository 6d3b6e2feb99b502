/** The two collaborators the installer talks to: Composer's IO channel and
    the filesystem's directory test. */
module Host {

  /** Composer's IO channel: everything written so far, one line each. */
  class IO {
    var lines: seq<string>

    constructor ()
      ensures lines == []
    {
      lines := [];
    }

    /** `$io->write(array(...))`: writes the given lines in order. */
    method Write(messages: seq<string>)
      modifies this
      ensures lines == old(lines) + messages
    {
      lines := lines + messages;
    }
  }

  /** The directories that exist on disk, and the paths `is_dir` has been
      asked about, in order. */
  class FileSystem {
    const dirs: set<string>
    var probes: seq<string>

    constructor (existing: set<string>)
      ensures dirs == existing && probes == []
    {
      dirs := existing;
      probes := [];
    }

    /** `is_dir($path)`. */
    method IsDir(path: string) returns (b: bool)
      modifies this
      ensures b <==> path in dirs
      ensures probes == old(probes) + [path]
    {
      b := path in dirs;
      probes := probes + [path];
    }
  }
}
