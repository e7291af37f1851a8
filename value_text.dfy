/** The text shown in the value column of a property row
    (src/main.rs, the `value_txt` expression of `make_model`), and the
    `{:?}` rendering of Rust integer slices that two of its branches use. */
module ValueText {
  import opened Options
  import opened Dtb

  predicate IsDigit(c: char) {
    '0' <= c <= '9'
  }

  function Digit(d: nat): (c: char)
    requires d < 10
    ensures IsDigit(c) && c as int - '0' as int == d
  {
    ('0' as int + d) as char
  }

  /** Decimal notation of `n`, as Rust's `Debug` and `Display` print an
      unsigned integer: at least one digit, no leading zero. */
  function Decimal(n: nat): (s: string)
    ensures |s| >= 1
    ensures forall i :: 0 <= i < |s| ==> IsDigit(s[i])
    ensures s[0] == '0' ==> n == 0 && s == "0"
  {
    if n < 10 then [Digit(n)] else Decimal(n / 10) + [Digit(n % 10)]
  }

  /** The number a string of decimal digits denotes. */
  function DecimalValue(s: string): nat
    requires forall i :: 0 <= i < |s| ==> IsDigit(s[i])
  {
    if s == [] then 0
    else
      assert IsDigit(s[|s| - 1]);
      DecimalValue(s[..|s| - 1]) * 10 + (s[|s| - 1] as int - '0' as int)
  }

  /** The decimal rendering loses nothing: reading it back gives `n`. */
  lemma {:induction false} DecimalRoundTrip(n: nat)
    ensures DecimalValue(Decimal(n)) == n
  {
    if n >= 10 {
      var s := Decimal(n);
      assert s[..|s| - 1] == Decimal(n / 10);
      DecimalRoundTrip(n / 10);
    }
  }

  /** The elements' decimal forms joined by ", ". */
  function JoinDecimals(xs: seq<nat>): (s: string)
    ensures xs == [] <==> s == []
    ensures forall i :: 0 <= i < |s| ==> IsDigit(s[i]) || s[i] == ',' || s[i] == ' '
  {
    if xs == [] then ""
    else if |xs| == 1 then Decimal(xs[0])
    else Decimal(xs[0]) + ", " + JoinDecimals(xs[1..])
  }

  /** `format!("{:?}", xs)` for a slice of unsigned integers: "[1, 2, 3]". */
  function DebugList(xs: seq<nat>): (s: string)
    ensures |s| >= 2 && s[0] == '[' && s[|s| - 1] == ']'
    ensures xs == [] <==> s == "[]"
    ensures forall i :: 0 < i < |s| - 1 ==> s[i] != '[' && s[i] != ']'
  {
    "[" + JoinDecimals(xs) + "]"
  }

  /** The display text of a property value, tried in a fixed order: the
      string if `value_str` succeeds; else the debug list if
      `value_u32_list` succeeds; else the debug form of the raw bytes. A
      later source is used only when every earlier one has failed. */
  function PropertyText(cls: Classifiers, value: seq<byte>): (text: string)
    ensures cls.valueStr(value).Some? ==> text == cls.valueStr(value).value
    ensures cls.valueStr(value).None? && cls.valueU32List(value).Some? ==>
              text == DebugList(cls.valueU32List(value).value)
    ensures cls.valueStr(value).None? && cls.valueU32List(value).None? ==>
              text == DebugList(value)
  {
    match cls.valueStr(value)
    case Some(text) => text
    case None =>
      match cls.valueU32List(value)
      case Some(words) => DebugList(words)
      case None => DebugList(value)
  }

  /** A later classifier is consulted only when the earlier ones fail: two
      sets of classifiers that agree on `value_str` and succeed there give the
      same text, whatever their `value_u32_list` says; and when both agree that
      `value_str` fails, only their `value_u32_list` answers matter. */
  lemma LaterClassifiersIgnored(cls: Classifiers, other: Classifiers, value: seq<byte>)
    requires cls.valueStr(value) == other.valueStr(value)
    ensures cls.valueStr(value).Some? ==> PropertyText(cls, value) == PropertyText(other, value)
    ensures cls.valueU32List(value) == other.valueU32List(value) ==>
              PropertyText(cls, value) == PropertyText(other, value)
  {
  }

  /** When `value_str` fails the text is a bracketed debug list, so a value
      shown without brackets was decoded as a string. */
  lemma UnbracketedMeansString(cls: Classifiers, value: seq<byte>)
    requires var t := PropertyText(cls, value); |t| == 0 || t[0] != '['
    ensures cls.valueStr(value).Some?
  {
  }
}
