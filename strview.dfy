/** String views (strview.h, strview.c): a pointer into character data
    plus a length. The pointer is modelled by `data`, everything readable
    from the pointer onwards; the view denotes `data[..len]`. A C string is
    a character sequence that ends at its first NUL (or at the end of the
    sequence). */
module StrView {
  import opened Common

  datatype View = View(data: seq<char>, len: nat)

  /** A view never reaches past the data its pointer can read. */
  type StrView = v: View | v.len <= |v.data| witness View([], 0)

  /** The characters a view denotes. */
  function Text(v: StrView): seq<char>
  {
    v.data[..v.len]
  }

  /** `strlen`: the number of characters before the first NUL. */
  function StrLen(s: seq<char>): (n: nat)
    ensures n <= |s|
    ensures forall i | 0 <= i < n :: s[i] != '\0'
    ensures n < |s| ==> s[n] == '\0'
  {
    if s == [] || s[0] == '\0' then 0 else 1 + StrLen(s[1..])
  }

  /** `memcmp(a, b, n) == 0`, compared one character at a time. */
  function MemEqual(a: seq<char>, b: seq<char>, n: nat): (r: bool)
    requires n <= |a| && n <= |b|
    ensures r <==> a[..n] == b[..n]
  {
    if n == 0 then true
    else a[0] == b[0] && MemEqual(a[1..], b[1..], n - 1)
  }

  /** `strview_create`: the view of the first `len` characters at `data`. */
  function Create(data: seq<char>, len: nat): (v: StrView)
    requires len <= |data|
    ensures v.data == data && v.len == len
    ensures Text(v) == data[..len]
  {
    View(data, len)
  }

  /** `strview_create_from_cstring`: the view of a C string up to its NUL. */
  function CreateFromCString(s: seq<char>): (v: StrView)
    ensures v.data == s
    ensures '\0' !in Text(v)
    ensures v.len < |s| ==> s[v.len] == '\0'
  {
    View(s, StrLen(s))
  }

  /** `strview_empty`: a view of no characters. */
  function Empty(): (v: StrView)
    ensures v.len == 0 && Text(v) == []
  {
    View("", 0)
  }

  /** `strview_cmp`: lengths first, then the characters. */
  function Cmp(a: StrView, b: StrView): (r: bool)
    ensures r <==> Text(a) == Text(b)
  {
    a.len == b.len && MemEqual(a.data, b.data, a.len)
  }

  /** `strview_cmp_cstr`: compares a view with a C string. */
  function CmpCStr(a: StrView, b: seq<char>): (r: bool)
    ensures r <==> Text(a) == b[..StrLen(b)]
  {
    var bLen := StrLen(b);
    a.len == bLen && MemEqual(a.data, b, a.len)
  }

  // ---------------------------------------------------------------------
  // Decimal conversion (strview_to_int)

  const Int32Max: int := 0x7FFF_FFFF
  const Int32Min: int := -0x8000_0000

  predicate IsDecimalDigit(c: char)
  {
    '0' <= c <= '9'
  }

  predicate AllDigits(s: seq<char>)
  {
    forall i | 0 <= i < |s| :: IsDecimalDigit(s[i])
  }

  function DigitValue(c: char): nat
    requires IsDecimalDigit(c)
  {
    (c as int) - ('0' as int)
  }

  /** The value of a run of decimal digits, most significant first. */
  function DecimalValue(s: seq<char>): nat
    requires AllDigits(s)
  {
    if s == [] then 0 else DecimalValue(s[..|s| - 1]) * 10 + DigitValue(s[|s| - 1])
  }

  /** The range check `strview_to_int` applies to the magnitude. */
  predicate FitsInt32(neg: bool, v: int)
  {
    (!neg ==> v <= Int32Max) && (neg ==> -v >= Int32Min)
  }

  /** What `strview_to_int` accepts and the value it produces: an optional
      sign, at least one digit, only digits after it, and a value that
      fits a signed 32-bit integer. */
  function SignedDecimal(text: seq<char>): (r: Option<i32>)
    ensures r.Some? ==> |text| > 0
  {
    if |text| == 0 then None
    else
      var neg := text[0] == '-';
      var start := if text[0] == '+' || text[0] == '-' then 1 else 0;
      if start == |text| || !AllDigits(text[start..]) then None
      else
        var v: int := DecimalValue(text[start..]);
        if !FitsInt32(neg, v) then None
        else Some(if neg then -v else v)
  }

  /** A digit string's value never decreases as digits are appended. */
  lemma {:induction false} DecimalValuePrefix(s: seq<char>, k: nat)
    requires AllDigits(s) && k <= |s|
    ensures AllDigits(s[..k]) && DecimalValue(s[..k]) <= DecimalValue(s)
    decreases |s| - k
  {
    assert AllDigits(s[..k]);
    if k < |s| {
      var t := s[..k + 1];
      assert t[..|t| - 1] == s[..k];
      DecimalValuePrefix(s, k + 1);
    } else {
      assert s[..k] == s;
    }
  }

  /** The digit loop of `strview_to_int`: accumulates `d` into a wide
      integer and stops at the first non-digit or at the first prefix whose
      value leaves the signed 32-bit range. */
  method AccumulateDigits(d: seq<char>, neg: bool) returns (ok: bool, value: int)
    ensures ok <==> AllDigits(d) && FitsInt32(neg, DecimalValue(d))
    ensures ok ==> value == DecimalValue(d)
  {
    var i := 0;
    value := 0;
    while i < |d|
      invariant 0 <= i <= |d|
      invariant AllDigits(d[..i])
      invariant value == DecimalValue(d[..i])
      invariant FitsInt32(neg, value)
    {
      var c := d[i];
      if c < '0' || c > '9' {
        return false, value;
      }
      assert d[..i + 1][..i] == d[..i];
      value := value * 10 + DigitValue(c);
      if !neg && value > Int32Max {
        if AllDigits(d) { DecimalValuePrefix(d, i + 1); }
        return false, value;
      }
      if neg && -value < Int32Min {
        if AllDigits(d) { DecimalValuePrefix(d, i + 1); }
        return false, value;
      }
      i := i + 1;
    }
    assert d[..i] == d;
    ok := true;
  }

  /** `strview_to_int(sv, out_value)`: a null or empty view fails, a sign
      must be followed by digits, and the digits must convert within range.
      `out_value` is written only on success, so the previous contents
      `prior` come back on failure. */
  method ToInt(sv: Option<StrView>, prior: i32) returns (ok: bool, outValue: i32)
    ensures ok <==> sv.Some? && SignedDecimal(Text(sv.value)).Some?
    ensures ok ==> outValue == SignedDecimal(Text(sv.value)).value
    ensures !ok ==> outValue == prior
  {
    if sv.None? || sv.value.len == 0 {
      return false, prior;
    }
    var s := Text(sv.value);
    var neg := false;
    var i := 0;
    if s[0] == '+' || s[0] == '-' {
      neg := s[0] == '-';
      i := i + 1;
      if i == |s| {
        return false, prior;
      }
    }
    var value;
    ok, value := AccumulateDigits(s[i..], neg);
    if !ok {
      return false, prior;
    }
    outValue := if neg then -value else value;
  }

  /** The decimal digits of a natural number, most significant first. */
  function DigitsOf(n: nat): (s: seq<char>)
    ensures |s| > 0 && AllDigits(s)
  {
    var last := ('0' as int + n % 10) as char;
    if n < 10 then [last] else DigitsOf(n / 10) + [last]
  }

  /** Decimal text for a signed 32-bit integer: the inverse of
      `strview_to_int`. */
  function Format(n: i32): seq<char>
  {
    if n < 0 then ['-'] + DigitsOf(-(n as int)) else DigitsOf(n)
  }

  lemma {:induction false} DecimalValueOfDigits(n: nat)
    ensures DecimalValue(DigitsOf(n)) == n
  {
    var s := DigitsOf(n);
    if n >= 10 {
      DecimalValueOfDigits(n / 10);
      assert s[..|s| - 1] == DigitsOf(n / 10);
    }
  }

  /** Round trip: every signed 32-bit integer formatted in decimal converts
      back to itself. */
  lemma FormatRoundTrip(n: i32)
    ensures SignedDecimal(Format(n)) == Some(n)
  {
    var t := Format(n);
    if n < 0 {
      DecimalValueOfDigits(-(n as int));
      assert t[1..] == DigitsOf(-(n as int));
    } else {
      DecimalValueOfDigits(n);
      assert t[0..] == t;
    }
  }
}
