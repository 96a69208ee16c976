/** The (bound, class, weight) triple of the numeric rule. The source stores
    the class as a double; it only ever holds a class index or a negative
    "no vote" marker, so it is an int here. */
module Tuples {

  datatype DoubleTuple = DoubleTuple(splitVal: real, classVal: int, weight: real)
}
