/**
 How a script's `main()` return value becomes the process exit status.
 `main` returns `None` (Python's `None`) or an integer status.
 */
module ExitStatus {
  import opened Results

  /**
   `if __name__ == "__main__": main()`: the returned value is discarded and
   the interpreter ends normally, with status 0.
   */
  function StatusIgnoringReturn(returned: Option<int>): int {
    0
  }

  /** `sys.exit(main())`: `None` exits with 0, an integer with itself. */
  function StatusOfReturn(returned: Option<int>): int {
    match returned
    case None => 0
    case Some(code) => code
  }

  /** An exception that escapes `main` ends the interpreter with status 1, however `main` is called. */
  const UncaughtExceptionStatus := 1
}
