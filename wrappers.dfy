/** The usual optional-value datatype: `None` stands for a cell pandas leaves empty (NaN). */
module Wrappers {
  datatype Option<+T> = None | Some(value: T)
}
