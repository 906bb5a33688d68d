/**
 * The filesystem seam that ContainerResource hands to its extractors (its nested class
 * Filesystem), taken as a snapshot of the host instead of real file I/O.
 */
module ProcFilesystem {
  import opened Wrappers

  type Path = string

  /** What Files.lines throws when it cannot open a path. */
  datatype IOException = IOException(path: Path)

  /**
   * A snapshot of the host: the paths Files.isReadable accepts, and for each path that
   * Files.lines can open, the lines it yields in file order. Opening any other path throws.
   */
  datatype Filesystem = Filesystem(readable: set<Path>, files: map<Path, seq<string>>) {

    /** Filesystem.isReadable: never throws, false for a missing or inaccessible path. */
    predicate IsReadable(path: Path) {
      path in readable
    }

    /** Filesystem.lines: the file's lines, or the IOException raised when opening it. */
    function Lines(path: Path): Result<seq<string>, IOException> {
      if path in files then Success(files[path]) else Failure(IOException(path))
    }
  }
}
