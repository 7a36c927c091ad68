/**
 * The slice of Python's `logging` module that the debug configuration
 * touches: named loggers, each with a numeric level.
 */
module Logging {

  /** The numeric levels of Python's `logging` module. */
  const DEBUG: int := 10
  const INFO: int := 20
  const ERROR: int := 40

  /**
   * The process-wide registry of loggers. A name has an entry once its
   * logger's level has been set; Python creates loggers on first
   * `getLogger`, and the entry appears when `setLevel` is called.
   */
  class Registry {
    var levels: map<string, int>

    constructor ()
      ensures levels == map[]
    {
      levels := map[];
    }

    /** `logging.getLogger(name).setLevel(level)`. */
    method SetLevel(name: string, level: int)
      modifies this
      ensures levels == old(levels)[name := level]
    {
      levels := levels[name := level];
    }
  }
}
