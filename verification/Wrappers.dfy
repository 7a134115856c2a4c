/** The usual option type, for values that may be absent (Lua nil, std::nullopt, a null pointer). */
module Wrappers {
  datatype Option<+T> = None | Some(value: T) {
    function GetOr(default: T): T {
      match this
      case Some(v) => v
      case None => default
    }
  }
}
