/**
 * The argument checks of the `Config` constructor, which run before
 * `create_config` looks at or writes any file.
 */
module Config {
  import opened Wrappers

  /** A Python value, distinguished as far as the checks need. */
  datatype PyValue =
    | PyNone
    | PyBool(b: bool)
    | PyInt(i: int)
    | PyStr(s: string)
    | PyList(items: seq<PyValue>)
    | PyDict(entries: seq<(PyValue, PyValue)>)

  /** The exceptions the constructor can raise before any file is touched. */
  datatype InitError =
    | UnexpectedInitVar  // raised by `check_initvars`
    | TypeError          // raised by `str + value` for a value that is not a string

  /** The accepted config file formats (`ext_vals`). */
  const ExtVals: seq<string> := ["JSON", "XML"]

  /**
   * `check_initvars` up to its call of `create_config`: `Pass` means the
   * file step runs next. A bad extension is rejected whatever the table is.
   */
  function CheckInitVars(extension: PyValue, confTable: PyValue): (r: Outcome<InitError>)
    ensures r == Pass <==> extension.PyStr? && extension.s in ExtVals && confTable.PyDict?
    ensures r != Pass ==> r == Fail(UnexpectedInitVar)
  {
    if !(extension in [PyStr("JSON"), PyStr("XML")]) then Fail(UnexpectedInitVar)
    else if !confTable.PyDict? then Fail(UnexpectedInitVar)
    else Pass
  }

  /** The attributes a constructed `Config` carries into `create_config`. */
  datatype ConfigFields = ConfigFields(confTable: PyValue, extension: string, logLevel: int, redirect: int)

  /**
   * `Config(dictionary, extension, ui, log_level, redirect)` up to
   * `create_config`. Building `_confpath` appends the extension to a string
   * before the checks run, so an extension that is not a string raises
   * TypeError there.
   */
  function NewConfig(dictionary: PyValue, extension: PyValue, logLevel: int, redirect: int)
    : (r: Result<ConfigFields, InitError>)
    ensures r.Ok? <==> extension in [PyStr("JSON"), PyStr("XML")] && dictionary.PyDict?
    ensures r.Ok? ==> r.value == ConfigFields(dictionary, extension.s, logLevel, redirect)
    ensures r.Err? ==> (r.error == TypeError <==> !extension.PyStr?)
    ensures r.Err? && extension.PyStr? ==> CheckInitVars(extension, dictionary) == Fail(r.error)
  {
    if !extension.PyStr? then Err(TypeError)
    else match CheckInitVars(extension, dictionary)
      case Pass => Ok(ConfigFields(dictionary, extension.s, logLevel, redirect))
      case Fail(e) => Err(e)
  }
}
