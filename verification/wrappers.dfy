/** The optional value used where the dashboard indexes its dict-shaped
    tables by key: a missing key is `None` rather than a `KeyError`. */
module Wrappers {

  datatype Option<+T> = None | Some(value: T)

}
