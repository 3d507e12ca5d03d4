/** The optional value the driver's read operations return: its absence is the only failure signal. */
module Wrappers {

  datatype Option<+T> = None | Some(value: T)
}
