/** Optional values, used wherever the firmware reports success with a
    boolean and hands the value back through an out-parameter. */
module Wrappers {

  datatype Option<+T> = None | Some(value: T)

}
