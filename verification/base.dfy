/** Values shared by every part of the pipeline: Java's nullable references,
    the outcome of an operation that may throw, the exceptions the pipeline
    raises, and the slice of the file system it looks at. */
module Base {

  /** A Java reference that may be null, or a Python value that may be None. */
  datatype Option<+T> = None | Some(value: T)

  /** The exceptions raised by the core, in Java and in the Python wiki tools. */
  datatype Error =
    | IoError(path: string)              // java.io.IOException / OSError while reading a file
    | IllegalState(message: string)      // IllegalStateException
    | IllegalArgument(message: string)   // IllegalArgumentException
    | FileNotFound(message: string)      // Python FileNotFoundError
    | ValueError(message: string)        // Python ValueError

  /** Either the value an operation returns or the exception it throws. */
  datatype Result<+T> = Ok(value: T) | Err(error: Error)

  type Path = string

  /** What the pipeline sees of the disk. `existing` answers Files.exists /
      Path.exists; `contents` holds the decoded lines of every readable file;
      `parent` is Path.getParent and `resolve` is the join of a directory and
      a relative reference followed by normalisation. */
  datatype FileSystem = FileSystem(
    existing: set<Path>,
    contents: map<Path, seq<string>>,
    parent: Path -> Path,
    resolve: (Path, Path) -> Path)

  /** Files.readAllLines: the lines of a readable file, an IOException otherwise. */
  function ReadLines(fs: FileSystem, p: Path): Result<seq<string>>
  {
    if p in fs.existing && p in fs.contents then Ok(fs.contents[p]) else Err(IoError(p))
  }
}
