/** The command-line options, as the parser hands them to the core. */
module Arguments {

  /** The five options. A path the operator did not give (null in the
      source) is the empty string: string.IsNullOrEmpty treats both alike. */
  datatype ProgramArguments = ProgramArguments(
    path: string,
    recursive: bool,
    restore: bool,
    quiet: bool,
    force: bool)
}
