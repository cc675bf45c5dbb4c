/** An optional value: the screens' deferred callbacks and the optional
    fields of a donation record use it. */
module Wrappers {

  datatype Option<+T> = None | Some(value: T)

}
