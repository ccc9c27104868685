/** PHP strings are byte strings; this module gives them a Dafny type. */
module Bytes {

  newtype byte = x: int | 0 <= x < 256
}
