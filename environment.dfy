/**
 * What the program reads from and writes to, as values: standard input, the
 * current directory's listing, the files it may open, and how the process
 * ends. Each function that performs I/O in the program takes the part of
 * the environment it reads.
 */
module Environment {
  import opened Wrappers
  import opened ChangelogFilename

  /**
   * Standard input: a terminal (or a Stat that failed), or a pipe whose
   * contents are read in full, or whose read fails (None).
   */
  datatype Stdin = Terminal | Piped(contents: Option<string>)

  /**
   * The process environment: stdin, the directory listing (None when it
   * cannot be listed) and the readable files, by path, with their contents.
   * ioutil.ReadDir returns the listing sorted by file name, so "first in the
   * listing" is "first by name" in the program; the model takes the listing
   * as given and does not require it sorted.
   */
  datatype Env = Env(stdin: Stdin, listing: Option<seq<Entry>>, files: map<string, string>)

  /** How the process ends: an exit code with what it printed, or a Go run-time panic. */
  datatype Termination =
    | Exit(code: int, stdout: string, stderr: string)
    | Panic(reason: string)

  /** Reading a file by path. */
  function ReadFile(files: map<string, string>, path: string): Option<string>
  {
    if path in files then Some(files[path]) else None
  }
}
