/**
 Shared vocabulary: optional values, the two Python exception classes the
 servers raise, results that carry one of them, and tool-call arguments.
 */
module Base {

  datatype Option<+T> = None | Some(value: T)

  /** The exceptions the modelled code raises, with their message text. */
  datatype Error = ValueError(message: string) | RuntimeError(message: string)

  /** A value, or the exception that was raised instead. */
  datatype Result<+T> = Ok(value: T) | Err(error: Error)

  /** The `arguments` of an MCP tool call: a JSON object, or anything else. */
  datatype Arguments = NotADict | Dict(entries: map<string, string>)

  /** Python truthiness of an optional string: `None` and `""` are falsy. */
  predicate Truthy(s: Option<string>)
  {
    s.Some? && |s.value| > 0
  }

  /** Python `d.get(key, default)`. */
  function Get(entries: map<string, string>, key: string, default: string): (r: string)
    ensures key in entries ==> r == entries[key]
    ensures key !in entries ==> r == default
  {
    if key in entries then entries[key] else default
  }
}
