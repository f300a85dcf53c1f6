/** The error taxonomy of the tool: every exception the core raises or lets
    escape, as a value, and the result of an operation that may fail. */
module Outcomes {
  import opened Paths

  /** Which of the incompatible flag combinations was rejected. */
  datatype ArgumentFault =
    | RestoreNeedsDirectory   // --restore with a file target
    | RecursiveOnFile         // --recursive with a file target
    | RestoreWithRecursive    // --restore together with --recursive
    | RestoreWithForce        // --restore together with --force

  datatype Error =
    | TargetNotFound                    // the path is neither a file nor a directory
    | InvalidArgument(fault: ArgumentFault)
    | EmptyBasePath                     // Path.GetRelativePath: the base path is empty
    | Collision(file: Path)             // a drawn identifier is already a key
    | DatabaseExists                    // database.json present and --force not given
    | DatabaseNotFound                  // database.json missing when restoring
    | MalformedDatabase                 // the deserialiser rejects database.json
    | InvalidDatabase                   // database.json deserialises to null
    | SourceNotFound(path: Path)        // File.Move: the source file does not exist
    | DestinationExists(path: Path)     // File.Move: the destination already exists

  datatype Result<T> = Ok(value: T) | Err(error: Error)

  /** How a whole operation ends: normally, or with the exception it raised. */
  datatype Status = Success | Failure(error: Error)
}
