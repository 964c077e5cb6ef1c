/** Bytes, and numeric arrays as the domain package receives them. */
module Arrays {
  type Byte = x: int | 0 <= x < 256

  datatype Sample = Finite(x: real) | NonFinite

  /** An array in row-major order. */
  datatype Field = Field(shape: seq<nat>, cells: seq<Sample>) {
    predicate Valid() {
      && (|shape| == 1 ==> |cells| == shape[0])
      && (|shape| == 2 ==> |cells| == shape[0] * shape[1])
    }
  }

  predicate AllFinite(f: Field) {
    forall s <- f.cells :: s.Finite?
  }
}
