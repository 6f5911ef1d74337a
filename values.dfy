/**
 * The Python values that flow through the backend: what a decoded request
 * body holds, what `model_dump()` produces and what a stored document holds.
 */
module Values {

  import opened Wrappers

  /** A naive `datetime.datetime`. */
  datatype Instant = Instant(year: int, month: int, day: int,
                             hour: int, minute: int, second: int, microsecond: int)

  /** A `datetime.date`. */
  datatype Date = Date(year: int, month: int, day: int)

  /**
   * `None`, `bool`, `int`, `str`, `list`, `date`, `datetime` and the
   * document store's `ObjectId` (kept as its 24-digit hex text).
   */
  datatype Value =
    | Null
    | Bool(b: bool)
    | Int(i: int)
    | Str(s: string)
    | List(items: seq<Value>)
    | Day(date: Date)
    | Stamp(at: Instant)
    | ObjectId(hex: string)

  /** A `list[str]` as a value. */
  function StrList(xs: seq<string>): (v: Value)
    ensures v.List? && |v.items| == |xs|
    ensures forall i :: 0 <= i < |xs| ==> v.items[i] == Str(xs[i])
  {
    List(seq(|xs|, i requires 0 <= i < |xs| => Str(xs[i])))
  }

  /** An `Optional[str]` as a value. */
  function OptStr(o: Option<string>): (v: Value)
    ensures o.None? <==> v == Null
    ensures o.Some? ==> v == Str(o.value)
  {
    match o
    case None => Null
    case Some(s) => Str(s)
  }
}
