/** Small shared vocabulary: optional values and results, the Rust `join`
    of a list of strings, and decimal rendering/parsing of unsigned integers
    (Rust's `Display` for integers and `str::parse::<u32>`). */
module Base {

  /** Rust's `Option`. */
  datatype Option<+T> = None | Some(value: T) {
    /** `unwrap_or`: the value, or `default` when there is none. */
    function GetOr(default: T): T {
      match this
      case Some(v) => v
      case None => default
    }
  }

  /** Rust's `Result`. */
  datatype Result<+T, +E> = Ok(value: T) | Err(error: E)

  /** The range of Rust's `u32`. */
  const U32_LIMIT: nat := 0x1_0000_0000
  type U32 = x: nat | x < U32_LIMIT

  /** `[String]::join(sep)`: the pieces with `sep` between neighbours. */
  function JoinWith(xs: seq<string>, sep: string): string
  {
    if |xs| == 0 then []
    else if |xs| == 1 then xs[0]
    else xs[0] + sep + JoinWith(xs[1..], sep)
  }

  lemma JoinWithOne(x: string, sep: string)
    ensures JoinWith([x], sep) == x
  {
  }

  lemma JoinWithCons(x: string, xs: seq<string>, sep: string)
    requires |xs| > 0
    ensures JoinWith([x] + xs, sep) == x + sep + JoinWith(xs, sep)
  {
    assert ([x] + xs)[1..] == xs;
  }

  /** Join distributes over concatenation of non-empty lists. */
  lemma {:induction false} JoinWithAppend(xs: seq<string>, ys: seq<string>, sep: string)
    requires |xs| > 0 && |ys| > 0
    ensures JoinWith(xs + ys, sep) == JoinWith(xs, sep) + sep + JoinWith(ys, sep)
  {
    if |xs| == 1 {
      JoinWithCons(xs[0], ys, sep);
      assert xs + ys == [xs[0]] + ys;
    } else {
      assert (xs + ys)[1..] == xs[1..] + ys;
      JoinWithAppend(xs[1..], ys, sep);
    }
  }

  /** The total length of the pieces. */
  function TotalLength(xs: seq<string>): nat {
    if |xs| == 0 then 0 else |xs[0]| + TotalLength(xs[1..])
  }

  /** A join of `n` pieces holds their characters and `n - 1` separators. */
  lemma {:induction false} JoinWithLength(xs: seq<string>, sep: string)
    requires |xs| > 0
    ensures |JoinWith(xs, sep)| + |sep| == TotalLength(xs) + |xs| * |sep|
  {
    if |xs| > 1 {
      JoinWithLength(xs[1..], sep);
    }
  }

  predicate IsDigit(c: char) {
    '0' <= c <= '9'
  }

  function DigitChar(d: nat): (c: char)
    requires d < 10
    ensures IsDigit(c)
  {
    (48 + d) as char
  }

  function DigitValue(c: char): (d: nat)
    requires IsDigit(c)
    ensures d < 10
  {
    (c as int - 48) as nat
  }

  predicate AllDigits(s: string) {
    forall i :: 0 <= i < |s| ==> IsDigit(s[i])
  }

  /** The number a string of decimal digits denotes (most significant first). */
  function DigitsValue(s: string): nat
    requires AllDigits(s)
  {
    if |s| == 0 then 0
    else DigitsValue(s[..|s| - 1]) * 10 + DigitValue(s[|s| - 1])
  }

  /** Rust's `Display` for an unsigned integer: shortest decimal form. */
  function NatToString(n: nat): (r: string)
    ensures |r| > 0 && AllDigits(r)
    ensures DigitsValue(r) == n
    ensures |r| > 1 ==> r[0] != '0'
  {
    if n < 10 then
      [DigitChar(n)]
    else
      var r := NatToString(n / 10) + [DigitChar(n % 10)];
      assert r[..|r| - 1] == NatToString(n / 10);
      r
  }

  /** `str::parse::<u32>()`: an optional leading `+`, then one or more ASCII
      digits whose value fits in 32 bits; anything else is an error. */
  function ParseU32(s: string): Option<U32>
  {
    var digits := if |s| > 1 && s[0] == '+' then s[1..] else s;
    if |digits| > 0 && AllDigits(digits) && DigitsValue(digits) < U32_LIMIT
    then Some(DigitsValue(digits) as U32)
    else None
  }

  /** Parsing what `Display` renders gives the number back. */
  lemma ParseRendered(n: U32)
    ensures ParseU32(NatToString(n)) == Some(n)
  {
    var s := NatToString(n);
    assert s[0] != '+' by { assert IsDigit(s[0]); }
  }
}
