/** The optional-value type shared by both models; `None` stands for the
    `null` reference of the modelled code wherever a value may be absent. */
module Wrappers {

  datatype Option<+T> = None | Some(value: T)
}
