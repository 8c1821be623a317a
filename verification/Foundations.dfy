/** Vocabulary shared by every component: machine-sized integers, byte strings, results and
    the byte-wise order that `std::string` comparison uses. */
module Foundations {

  type byte = b: int | 0 <= b < 256

  const TWO_32: int := 0x1_0000_0000
  const TWO_64: int := 0x1_0000_0000_0000_0000
  const UINT256_END: nat := 0x1_0000_0000_0000_0000_0000_0000_0000_0000_0000_0000_0000_0000_0000_0000_0000_0000

  type uint64 = n: int | 0 <= n < TWO_64
  type Uint256 = n: nat | n < UINT256_END
  type int64 = n: int | -0x8000_0000_0000_0000 <= n < 0x8000_0000_0000_0000

  type Address = a: seq<byte> | |a| == 20 witness seq(20, _ => 0)

  /** A `std::string` or `std::vector<std::uint8_t>`: a sequence of bytes. */
  type Text = seq<byte>

  /** The bytes of an ASCII literal. */
  function Ascii(s: string): (t: Text)
    ensures |t| == |s|
    ensures forall i | 0 <= i < |s| :: t[i] == s[i] as int % 256
  {
    seq(|s|, i requires 0 <= i < |s| => s[i] as int % 256)
  }

  datatype Option<+T> = None | Some(value: T)

  datatype ErrorCode =
    | AuthenticationRequired
    | BodyTooLarge
    | CancelledByCaller
    | DeadlineExceeded
    | HttpClientError
    | HttpRedirect
    | HttpServerError
    | InvalidArgument
    | InvalidDecimal
    | InvalidField
    | InvalidOrderbook
    | InvalidPrice
    | InvalidQuantity
    | JournalCorrupt
    | NumericOverflow
    | ProtocolError
    | RateLimited
    | TooManyItems
    | TransportFailure
    | UnsupportedPrecision
    | VenueRejected

  datatype Result<+T> = Ok(value: T) | Err(code: ErrorCode) {
    predicate IsFailure() { Err? }

    function PropagateFailure<U>(): Result<U>
      requires Err?
    {
      Err(code)
    }

    function Extract(): T
      requires Ok?
    {
      value
    }
  }

  function Max(a: int, b: int): int { if a < b then b else a }
  function Min(a: int, b: int): int { if a < b then a else b }
  function Sign(x: int): int { if x < 0 then -1 else if x == 0 then 0 else 1 }

  /** `std::string::operator<`: lexicographic on unsigned bytes. */
  predicate LexLess(a: Text, b: Text) {
    if b == [] then false
    else if a == [] then true
    else if a[0] != b[0] then a[0] < b[0]
    else LexLess(a[1..], b[1..])
  }

  lemma {:induction false} LexTotal(a: Text, b: Text)
    ensures LexLess(a, b) || a == b || LexLess(b, a)
    ensures !(LexLess(a, b) && LexLess(b, a))
    ensures !LexLess(a, a)
  {
    if a != [] && b != [] && a[0] == b[0] {
      LexTotal(a[1..], b[1..]);
      LexTotal(a[1..], a[1..]);
      assert a == [a[0]] + a[1..] && b == [b[0]] + b[1..];
    } else if a != [] {
      LexTotal(a[1..], a[1..]);
    }
  }

  lemma {:induction false} LexTransitive(a: Text, b: Text, c: Text)
    requires LexLess(a, b) && LexLess(b, c)
    ensures LexLess(a, c)
  {
    if a != [] && a[0] == b[0] && b[0] == c[0] {
      LexTransitive(a[1..], b[1..], c[1..]);
    }
  }
}
