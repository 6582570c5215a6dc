// common/src/strutil.rs: classifying a JSON string parameter as a hex
// literal, a decimal u64, or free text.
module StrUtil {
  import opened Wrappers

  /** The shapes of a `serde_json::Value`; only strings matter here. */
  datatype JsonValue =
    | Null
    | Bool(b: bool)
    | Number(n: int)
    | Text(s: string)
    | Array(items: seq<JsonValue>)
    | Object(fields: map<string, JsonValue>)

  /** `Value::as_str`: the text of a string value, nothing for any other value. */
  function AsStr(v: JsonValue): Option<string>
  {
    if v.Text? then Some(v.s) else None
  }

  datatype StringType = Hex | Decimal | String

  datatype TypeError = TypeError(message: string)

  const NotAString: string := "Type of given value is not `String`"

  const U64Limit: nat := 0x1_0000_0000_0000_0000

  predicate StartsWith(s: string, prefix: string)
  {
    |prefix| <= |s| && s[..|prefix|] == prefix
  }

  predicate IsDigit(c: char)
  {
    '0' <= c <= '9'
  }

  predicate AllDigits(d: string)
  {
    forall i :: 0 <= i < |d| ==> IsDigit(d[i])
  }

  /** The number a string of decimal digits spells, most significant digit first. */
  function DigitsValue(d: string): nat
    requires AllDigits(d)
    decreases |d|
  {
    if d == [] then 0
    else 10 * DigitsValue(d[..|d| - 1]) + ((d[|d| - 1] as int) - ('0' as int))
  }

  /**
   * `str::parse::<u64>`: an optional leading '+', then one or more ASCII
   * digits (leading zeros allowed) whose value is below 2^64. A '-' sign,
   * any other character, an empty digit string and overflow are errors.
   */
  function ParseU64(s: string): (r: Option<nat>)
    ensures r.Some? ==> r.value < U64Limit
    ensures r.Some? ==> s != [] && (IsDigit(s[0]) || s[0] == '+')
  {
    var d := if |s| > 0 && s[0] == '+' then s[1..] else s;
    if d != [] && AllDigits(d) && DigitsValue(d) < U64Limit then Some(DigitsValue(d)) else None
  }

  /** `check_type`. */
  function CheckType(value: JsonValue): (r: Result<StringType, TypeError>)
    ensures r.Err? <==> !value.Text?
    ensures r.Err? ==> r.error == TypeError(NotAString)
    ensures value.Text? && StartsWith(value.s, "0x") ==> r == Ok(Hex)
  {
    match AsStr(value)
    case None => Err(TypeError(NotAString))
    case Some(v) =>
      if StartsWith(v, "0x") then Ok(Hex)
      else if ParseU64(v).Some? then Ok(Decimal)
      else Ok(String)
  }

  /** The shortest decimal spelling of `n`: a reference for what parses as a number. */
  function DecimalString(n: nat): (s: string)
    ensures s != [] && AllDigits(s)
    decreases n
  {
    var last := ['0' + ((n % 10) as char)];
    if n < 10 then last else DecimalString(n / 10) + last
  }

  lemma {:induction false} DecimalStringValue(n: nat)
    ensures DigitsValue(DecimalString(n)) == n
    decreases n
  {
    var s := DecimalString(n);
    if n >= 10 {
      DecimalStringValue(n / 10);
      assert s[..|s| - 1] == DecimalString(n / 10);
    }
  }

  /** A string starting with "0x" never parses as a u64, so testing it first decides nothing the parse would have. */
  lemma HexNeverParses(s: string)
    requires StartsWith(s, "0x")
    ensures ParseU64(s).None?
  {
    assert s[1] == 'x' && !IsDigit(s[1]);
  }

  /**
   * On strings the three classes partition the input: Hex exactly for the
   * "0x" prefix, Decimal exactly for what `parse::<u64>` accepts, String for
   * everything else.
   */
  lemma CheckTypeOnText(s: string)
    ensures CheckType(Text(s)) == Ok(Hex) <==> StartsWith(s, "0x")
    ensures CheckType(Text(s)) == Ok(Decimal) <==> ParseU64(s).Some?
    ensures CheckType(Text(s)) == Ok(String) <==> !StartsWith(s, "0x") && ParseU64(s).None?
  {
    if StartsWith(s, "0x") {
      HexNeverParses(s);
    }
  }

  /** Every u64, written in decimal with or without a '+', is Decimal. */
  lemma {:induction false} U64IsDecimal(n: nat)
    requires n < U64Limit
    ensures ParseU64(DecimalString(n)) == Some(n)
    ensures ParseU64("+" + DecimalString(n)) == Some(n)
    ensures CheckType(Text(DecimalString(n))) == Ok(Decimal)
  {
    DecimalStringValue(n);
    var d := DecimalString(n);
    assert ("+" + d)[1..] == d;
    assert !StartsWith(d, "0x") by {
      if |d| >= 2 { assert IsDigit(d[1]); }
    }
  }

  /** Numbers from 2^64 on overflow the parse and are classed as String. */
  lemma {:induction false} TooLargeIsString(n: nat)
    requires n >= U64Limit
    ensures ParseU64(DecimalString(n)).None?
    ensures CheckType(Text(DecimalString(n))) == Ok(String)
  {
    DecimalStringValue(n);
    var d := DecimalString(n);
    assert !StartsWith(d, "0x") by {
      if |d| >= 2 { assert IsDigit(d[1]); }
    }
  }

  /** The empty string, a bare sign and negative numbers are String. */
  lemma SignsAndEmptyAreString(n: nat)
    ensures CheckType(Text("")) == Ok(String)
    ensures CheckType(Text("+")) == Ok(String)
    ensures CheckType(Text("-" + DecimalString(n))) == Ok(String)
  {
    var s := "-" + DecimalString(n);
    assert s[0] == '-' && !IsDigit(s[0]);
    assert "+"[1..] == [];
  }
}
