/** What a `double` result can be here: a number, or the NaN that stands for "no samples". */
module Doubles {
  datatype Double = NaN | Num(value: real)
}
