/** Optional values: the model's rendering of TypeScript's `T | null` and `x?: T`. */
module Wrappers {

  datatype Option<+T> = None | Some(value: T)
}
