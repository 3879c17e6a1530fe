/** Where the `write` helper sends a message. */
module Write {

  /** The outputs a message can go to. */
  datatype Sink = Console | InfoLog | DebugLog

  /**
   * `write_outputs`: the console unless `redirect` is set, then at most one
   * log, chosen by `log_level`; each output receives the message once. The `ui` argument is stored but never used.
   */
  function WriteOutputs(logLevel: int, redirect: int): (r: seq<Sink>)
    ensures Console in r <==> redirect == 0
    ensures InfoLog in r <==> logLevel == 1
    ensures DebugLog in r <==> logLevel == 2
    ensures forall i, j :: 0 <= i < j < |r| ==> r[i] != r[j]
    ensures |r| <= 2 && (Console in r ==> r[0] == Console)
  {
    (if redirect == 0 then [Console] else []) +
    (if logLevel == 1 then [InfoLog] else []) +
    (if logLevel == 2 then [DebugLog] else [])
  }
}
