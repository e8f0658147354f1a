/** The Go values the SDK passes around, and the library functions it leans on.

    A Go string is an arbitrary byte sequence. It is modelled as a Dafny `string` holding one
    `char` per byte, so CR, LF and bytes that are not valid UTF-8 are ordinary elements. */
module GoValues {

  datatype Option<+T> = None | Some(value: T)

  /** What an `interface{}` holds at run time. `GoInt` is Go's `int`; it and `Int64` are distinct
      dynamic types, and the type switches of the SDK tell them apart. Floats are the finite ones. */
  datatype Value =
    | Nil
    | Bool(b: bool)
    | Int64(n: int)
    | GoInt(n: int)
    | Uint64(n: int)
    | Float(r: real)
    | Str(s: string)
    | Bytes(s: string)
    | Arr(items: seq<Value>)
    | Map(entries: map<string, Value>)

  const TWO_63: int := 0x8000_0000_0000_0000
  const TWO_64: int := 0x1_0000_0000_0000_0000

  predicate InInt64(n: int) {
    -TWO_63 <= n < TWO_63
  }

  /** Two's complement wrap-around to 64 bits. */
  function Wrap64(n: int): (w: int)
    ensures InInt64(w)
    ensures InInt64(n) ==> w == n
    ensures (w - n) % TWO_64 == 0
  {
    var m := n % TWO_64;
    if m < TWO_63 then m else m - TWO_64
  }

  /** The parts of Go's library and runtime whose behaviour the SDK uses without defining it. Every
      theorem holds for every choice of these unless it states a condition on them.
      - `sprintFloat`, `sprintOther`: `%v` of a float, and of a byte slice, slice or map
      - `formatFloat`, `parseFloat`: `strconv.FormatFloat(v, 'f', -1, 64)` and `strconv.ParseFloat`
      - `marshal`: `json.Marshal` of an amount
      - `base64`: the text JSON gives a byte slice
      - `letters`: whether JSON takes a tag name that is not ASCII, being made of letters and digits
      - `jsonNumber`, `jsonQuote`: how JSON writes a float and a string
      - `wildInt`: a float-to-integer conversion whose operand is out of range, which the language
        leaves to the implementation
      - `maxAlloc`: the number of bytes above which `make` of a slice panics */
  datatype GoLib = GoLib(
    sprintFloat: real -> string,
    sprintOther: Value -> string,
    formatFloat: real -> string,
    parseFloat: string -> Option<real>,
    marshal: Value -> Option<string>,
    base64: string -> string,
    letters: string -> bool,
    jsonNumber: real -> string,
    jsonQuote: string -> string,
    wildInt: real -> int,
    maxAlloc: nat)

  /** Truncation toward zero. */
  function Trunc(r: real): (n: int)
    ensures if r >= 0.0 then n as real <= r < n as real + 1.0 else n as real - 1.0 < r <= n as real
  {
    if r >= 0.0 then r.Floor else -(-r).Floor
  }

  /** `int64(f)`. */
  function FloatToInt64(lib: GoLib, r: real): (n: int)
    ensures InInt64(n)
  {
    if InInt64(Trunc(r)) then Trunc(r) else Wrap64(lib.wildInt(r))
  }

  /** `uint64(f)`. */
  function FloatToUint64(lib: GoLib, r: real): (n: int)
    ensures 0 <= n < TWO_64
  {
    if 0 <= Trunc(r) < TWO_64 then Trunc(r) else lib.wildInt(r) % TWO_64
  }

  lemma TruncOfInt(n: int)
    ensures Trunc(n as real) == n
  {
    if n < 0 {
      assert -(n as real) == (-n) as real;
    }
  }
}
