/** Optional values: TypeScript's `x?: T` and `T | null`. */
module Wrappers {

  datatype Option<+T> = None | Some(value: T)

}
