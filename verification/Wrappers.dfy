/** The option type shared by all parts of the model: `None` stands for an empty
    shared pointer or an empty std::function. */
module Wrappers {
  datatype Option<+T> = None | Some(value: T)

  /** What a condition contributes to a count. */
  function One(b: bool): nat {
    if b then 1 else 0
  }
}
