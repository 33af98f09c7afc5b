/** The optional value `get_furniture_id` and `get_room_id` express with Python's `None`. */
module Options {

  datatype Option<+T> = None | Some(value: T)

  /** The smaller of two integers, as Python's `min` on two ints. */
  function Min(a: int, b: int): (r: int)
    ensures r <= a && r <= b
    ensures r == a || r == b
  {
    if a <= b then a else b
  }
}
