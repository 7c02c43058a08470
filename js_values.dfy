/** The few JavaScript value semantics the alarm clock relies on: the values
    its closure variables can hold, `String(v)`, `padStart(2, '0')`,
    `split(':')` and `Number(text)`. */
module JsValues {

  /** What `alarmHour` / `alarmMinute` can hold: `undefined` before the first
      arm, `null` from a picker with no selection, a number, or `NaN` from
      `Number` applied to text that is not a number. */
  datatype JsValue = Undefined | Null | Num(n: int) | NaN

  /** `k === v` where `k` is a number read from the clock: only a number equal
      to `k` matches (`NaN === NaN` is false, `null` and `undefined` never match). */
  predicate StrictEquals(k: int, v: JsValue)
  {
    v.Num? && v.n == k
  }

  predicate IsDigit(c: char)
  {
    '0' <= c <= '9'
  }

  predicate AllDigits(s: string)
  {
    forall i :: 0 <= i < |s| ==> IsDigit(s[i])
  }

  function DigitChar(d: nat): (c: char)
    requires d < 10
    ensures IsDigit(c)
  {
    (48 + d) as char
  }

  function DigitValue(c: char): (d: nat)
    requires IsDigit(c)
    ensures d < 10
  {
    c as int - 48
  }

  /** The shortest decimal spelling of `n`, as `String(n)` gives it for the
      integers below 10^21 that a clock reading or a picker produces. */
  function Decimal(n: nat): (s: string)
    ensures 1 <= |s| && AllDigits(s)
    ensures |s| == 1 <==> n < 10
    ensures 10 <= n < 100 ==> |s| == 2
  {
    if n < 10 then [DigitChar(n)] else Decimal(n / 10) + [DigitChar(n % 10)]
  }

  /** The number a string of decimal digits denotes (leading zeros allowed). */
  function DigitsValue(s: string): nat
    requires AllDigits(s)
  {
    if s == [] then 0 else DigitsValue(s[..|s| - 1]) * 10 + DigitValue(s[|s| - 1])
  }

  lemma {:induction false} DecimalRoundTrip(n: nat)
    ensures DigitsValue(Decimal(n)) == n
  {
    if n >= 10 {
      var s := Decimal(n);
      assert s[..|s| - 1] == Decimal(n / 10);
      DecimalRoundTrip(n / 10);
    }
  }

  /** A leading zero does not change the value of a digit string. */
  lemma {:induction false} LeadingZero(s: string)
    requires AllDigits(s)
    ensures AllDigits("0" + s) && DigitsValue("0" + s) == DigitsValue(s)
  {
    if s != [] {
      var z := "0" + s;
      assert z[..|z| - 1] == "0" + s[..|s| - 1];
      LeadingZero(s[..|s| - 1]);
    }
  }

  /** `String(v)`. */
  function JsString(v: JsValue): (s: string)
    ensures s != []
  {
    match v
    case Undefined => "undefined"
    case Null => "null"
    case NaN => "NaN"
    case Num(n) => if n < 0 then "-" + Decimal(-n) else Decimal(n)
  }

  /** `s.padStart(2, '0')`. */
  function PadStart2(s: string): (r: string)
    ensures |r| == if |s| < 2 then 2 else |s|
  {
    if |s| == 0 then "00" else if |s| == 1 then "0" + s else s
  }

  /** `String(v).padStart(2, '0')`: two-digit zero padding. */
  function Pad2(v: JsValue): string
  {
    PadStart2(JsString(v))
  }

  /** For a non-negative number the padded text is all digits, at least two of
      them, exactly two below 100, and it still denotes the number. */
  lemma Pad2Num(n: nat)
    ensures AllDigits(Pad2(Num(n)))
    ensures |Pad2(Num(n))| == if n < 100 then 2 else |Decimal(n)|
    ensures DigitsValue(Pad2(Num(n))) == n
  {
    DecimalRoundTrip(n);
    if n < 10 {
      LeadingZero(Decimal(n));
    }
  }

  /** The `HH:MM` text of a target, `${pad2(h)}:${pad2(m)}`. */
  function FormatHHMM(hour: JsValue, minute: JsValue): (r: string)
    ensures |r| == |Pad2(hour)| + 1 + |Pad2(minute)| >= 5
  {
    Pad2(hour) + ":" + Pad2(minute)
  }

  /** Joins parts with a separator; the inverse of `Split`. */
  function Join(parts: seq<string>, sep: char): string
    requires |parts| >= 1
  {
    if |parts| == 1 then parts[0] else parts[0] + [sep] + Join(parts[1..], sep)
  }

  /** `s.split(sep)` for a one-character separator: never empty, the parts
      hold no separator and joining them gives back `s`. */
  function Split(s: string, sep: char): (parts: seq<string>)
    ensures |parts| >= 1
    ensures forall i :: 0 <= i < |parts| ==> sep !in parts[i]
    ensures Join(parts, sep) == s
  {
    if s == [] then [""]
    else if s[0] == sep then [""] + Split(s[1..], sep)
    else
      var rest := Split(s[1..], sep);
      [[s[0]] + rest[0]] + rest[1..]
  }

  lemma {:induction false} SplitNoSeparator(s: string, sep: char)
    requires sep !in s
    ensures Split(s, sep) == [s]
  {
    if s != [] {
      SplitNoSeparator(s[1..], sep);
    }
  }

  /** Splitting `a:b` where neither side holds the separator gives `[a, b]`. */
  lemma {:induction false} SplitPair(a: string, b: string, sep: char)
    requires sep !in a && sep !in b
    ensures Split(a + [sep] + b, sep) == [a, b]
  {
    var s := a + [sep] + b;
    if a == [] {
      assert s[1..] == b;
      SplitNoSeparator(b, sep);
    } else {
      assert s[1..] == a[1..] + [sep] + b;
      SplitPair(a[1..], b, sep);
      assert [s[0]] + a[1..] == a;
    }
  }

  /** `Number(s)` for the strings an `HH:MM` split can produce: the empty
      string is 0, a string of decimal digits is its value, anything else NaN. */
  function ToNumber(s: string): (v: JsValue)
    ensures v.Num? ==> v.n >= 0
    ensures s == [] ==> v == Num(0)
    ensures AllDigits(s) ==> v == Num(DigitsValue(s))
    ensures !AllDigits(s) ==> v == NaN
  {
    if s == [] then Num(0) else if AllDigits(s) then Num(DigitsValue(s)) else NaN
  }
}
