module BoundedInts {
  type byte = x: int | 0 <= x < 256
}
