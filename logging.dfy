/** The level mapping of the `Logging` class. */
module Logging {
  import opened Wrappers

  /** Levels of Python's logging module. */
  const DEBUG: int := 10
  const INFO: int := 20

  /**
   * `conv_loglevel`: `min_log` 1 asks for INFO and 2 for DEBUG; any other
   * value leaves `log_level` at None.
   */
  function ConvLogLevel(minLog: int): (r: Option<int>)
    ensures r.Some? <==> minLog == 1 || minLog == 2
    ensures minLog == 1 ==> r == Some(INFO)
    ensures minLog == 2 ==> r == Some(DEBUG)
  {
    if minLog == 1 then Some(INFO) else if minLog == 2 then Some(DEBUG) else None
  }
}
