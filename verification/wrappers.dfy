/** Optional values: `undefined` in the dashboard's TypeScript, or a
    result that is not a finite number. */
module Wrappers {

  datatype Option<+T> = None | Some(value: T)
}
