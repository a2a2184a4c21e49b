/** Kotlin's nullable values (`String?`, `List<ModuleConfig>?`) as an explicit option type. */
module Nullable {
  datatype Option<+T> = None | Some(value: T)
}
