/** Optional values, standing in for the nullable pointers and `llvm::Optional`
    results of the debug-information backend. */
module Wrappers {

  datatype Option<+T> = None | Some(value: T)
}
