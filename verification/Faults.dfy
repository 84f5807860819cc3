/** Which storage calls of one fetchPaste fail, for every backend. */
module Faults {
  datatype Faults = Faults(peek: bool, get: bool, take: bool)
}
