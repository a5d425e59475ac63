/** Small value types shared by every part of the model. */
module Base {

  /** Python's `None` or a value. */
  datatype Option<+T> = None | Some(value: T)

  /** The document kinds the readers understand, chosen by file extension. */
  datatype DocFormat = Pdf | Docx | Txt

  /** Python truthiness of an optional string: `None` and `""` are both falsy. */
  predicate Present(o: Option<string>)
  {
    o.Some? && o.value != ""
  }

  /** Python's `min` on two integers. */
  function MinInt(a: int, b: int): (r: int)
    ensures r <= a && r <= b && (r == a || r == b)
  {
    if a <= b then a else b
  }

  /** Python's `max` on two integers. */
  function MaxInt(a: int, b: int): (r: int)
    ensures r >= a && r >= b && (r == a || r == b)
  {
    if a >= b then a else b
  }
}
