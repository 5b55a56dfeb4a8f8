/** An optional value: the absent case stands for `undefined`, a thrown
    exception, or "no action", depending on where it is used. */
module Wrappers {

  datatype Option<+T> = None | Some(value: T)
}
