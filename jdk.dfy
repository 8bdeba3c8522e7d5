/** The few pieces of the Java platform the expanders rely on: nullable
    references, exceptions, `String.format` restricted to `%s`, the 32-bit
    truncation of `Number.intValue` and `Integer.parseInt`. */
module Jdk {

  /** A Java reference that may be null. */
  datatype Option<+T> = None | Some(value: T)

  /** The Java exception classes that the modelled code raises, catches or wraps. */
  datatype Kind =
    | NullPointerException
    | IllegalStateException
    | IllegalArgumentException
    | ClassCastException
    | UnsupportedOperationException
    | NumberFormatException
    | NoSuchElementException
    | JsonSyntaxException
    | UnsupportedEncodingException
    | IOException
    | RuntimeException
    | Exception

  /** A thrown exception: its class, its message and its chained cause. Library
      exceptions whose text the code never reads carry the empty message. */
  datatype Exc = Exc(kind: Kind, message: string, cause: Option<Exc>)

  /** A library exception whose message is not modelled. */
  function Fail(k: Kind): Exc
  {
    Exc(k, "", None)
  }

  /** `java.io.IOException` and its subclass `UnsupportedEncodingException`. */
  predicate IsIOException(e: Exc)
  {
    e.kind == IOException || e.kind == UnsupportedEncodingException
  }

  /** The completion of a Java expression: a value, or an exception. */
  datatype Outcome<+T> = Ok(value: T) | Throw(exc: Exc) {
    predicate IsFailure() { Throw? }
    function PropagateFailure<U>(): Outcome<U>
      requires Throw?
    {
      Throw(exc)
    }
    function Extract(): T
      requires Ok?
    {
      value
    }
  }

  // ---------------------------------------------------------------------------
  // String.format with `%s` conversions only

  /** No character of `s` starts a format specifier. */
  predicate NoPercent(s: string)
  {
    '%' !in s
  }

  /** `tpl` is a format string whose specifiers are all `%s`, and there are
      at least `n` arguments for them: what `String.format` demands of its
      caller (otherwise it throws). */
  predicate Conforms(tpl: string, n: nat)
  {
    if |tpl| == 0 then true
    else if tpl[0] == '%' then |tpl| >= 2 && tpl[1] == 's' && n > 0 && Conforms(tpl[2..], n - 1)
    else Conforms(tpl[1..], n)
  }

  /** `String.format(tpl, args...)`: each `%s` is replaced by the next argument. */
  function Format(tpl: string, args: seq<string>): string
    requires Conforms(tpl, |args|)
    decreases |tpl|
  {
    if |tpl| == 0 then ""
    else if tpl[0] == '%' then args[0] + Format(tpl[2..], args[1..])
    else [tpl[0]] + Format(tpl[1..], args)
  }

  lemma NoPercentTail(s: string)
    requires NoPercent(s) && |s| > 0
    ensures s[0] != '%' && NoPercent(s[1..])
  {
    assert s == [s[0]] + s[1..];
  }

  lemma {:induction false} NoPercentConforms(s: string, n: nat)
    requires NoPercent(s)
    ensures Conforms(s, n)
    decreases |s|
  {
    if |s| > 0 {
      NoPercentTail(s);
      NoPercentConforms(s[1..], n);
    }
  }

  /** Text without specifiers is copied as it is. */
  lemma {:induction false} FormatLiteral(s: string, args: seq<string>)
    requires NoPercent(s)
    ensures Conforms(s, |args|) && Format(s, args) == s
    decreases |s|
  {
    NoPercentConforms(s, |args|);
    if |s| > 0 {
      NoPercentTail(s);
      FormatLiteral(s[1..], args);
      assert s == [s[0]] + s[1..];
    }
  }

  /** A literal prefix is copied and the arguments go to the rest. */
  lemma {:induction false} FormatPrefix(a: string, rest: string, args: seq<string>)
    requires NoPercent(a) && Conforms(rest, |args|)
    ensures Conforms(a + rest, |args|) && Format(a + rest, args) == a + Format(rest, args)
    decreases |a|
  {
    if |a| == 0 {
      assert a + rest == rest;
    } else {
      var t := a + rest;
      NoPercentTail(a);
      assert t[0] == a[0];
      assert t[1..] == a[1..] + rest;
      FormatPrefix(a[1..], rest, args);
      assert Format(t, args) == [a[0]] + Format(t[1..], args);
      assert a == [a[0]] + a[1..];
    }
  }

  /** A template with one `%s`, between two literal parts. */
  lemma FormatOne(a: string, b: string, x: string)
    requires NoPercent(a) && NoPercent(b)
    ensures Conforms(a + "%s" + b, 1)
    ensures Format(a + "%s" + b, [x]) == a + x + b
  {
    FormatLiteral(b, []);
    var rest := "%s" + b;
    assert rest[2..] == b;
    assert Conforms(rest, 1);
    assert [x][1..] == [];
    assert Format(rest, [x]) == x + Format(b, []);
    assert a + "%s" + b == a + rest;
    FormatPrefix(a, rest, [x]);
  }

  /** A template with two `%s`, around and between three literal parts. */
  lemma FormatTwo(a: string, b: string, c: string, x: string, y: string)
    requires NoPercent(a) && NoPercent(b) && NoPercent(c)
    ensures Conforms(a + "%s" + b + "%s" + c, 2)
    ensures Format(a + "%s" + b + "%s" + c, [x, y]) == a + x + b + y + c
  {
    FormatOne(b, c, y);
    var tail := b + "%s" + c;
    var rest := "%s" + tail;
    assert rest[2..] == tail;
    assert [x, y][1..] == [y];
    assert Conforms(rest, 2);
    assert Format(rest, [x, y]) == x + Format(tail, [y]);
    assert a + "%s" + b + "%s" + c == a + rest;
    FormatPrefix(a, rest, [x, y]);
  }

  // ---------------------------------------------------------------------------
  // 32-bit integers

  const TwoTo32: int := 0x1_0000_0000
  const MinInt: int := -0x8000_0000
  const MaxInt: int := 0x7FFF_FFFF

  /** The low 32 bits of `n` read as a signed `int`: what `Number.intValue`
      gives for an integral JSON number that does not fit. */
  function IntValue(n: int): (r: int)
    ensures MinInt <= r <= MaxInt
    ensures (r - n) % TwoTo32 == 0
    ensures MinInt <= n <= MaxInt ==> r == n
  {
    (n - MinInt) % TwoTo32 + MinInt
  }

  /** The value of an unsigned run of ASCII decimal digits. */
  function DigitsValue(s: string): (r: nat)
    requires forall i :: 0 <= i < |s| ==> '0' <= s[i] <= '9'
    decreases |s|
  {
    if |s| == 0 then 0
    else 10 * DigitsValue(s[..|s| - 1]) + (s[|s| - 1] as int - '0' as int)
  }

  predicate AllDigits(s: string)
  {
    forall i :: 0 <= i < |s| ==> '0' <= s[i] <= '9'
  }

  /** `Integer.parseInt(s)`: an optional sign and at least one decimal digit,
      whose value must fit in an `int`; anything else throws
      `NumberFormatException`. */
  function ParseInt(s: string): (r: Outcome<int>)
    ensures r.Ok? ==> MinInt <= r.value <= MaxInt
    ensures r.Throw? ==> r.exc.kind == NumberFormatException
  {
    var neg := |s| > 0 && s[0] == '-';
    var digits := if |s| > 0 && (s[0] == '-' || s[0] == '+') then s[1..] else s;
    if |digits| == 0 || !AllDigits(digits) then Throw(Fail(NumberFormatException))
    else
      var v: int := if neg then 0 - DigitsValue(digits) else DigitsValue(digits);
      if MinInt <= v <= MaxInt then Ok(v) else Throw(Fail(NumberFormatException))
  }

  /** The decimal digits of a natural number, most significant first. */
  function NatToDecimal(n: nat): (r: string)
    ensures |r| > 0 && AllDigits(r)
    ensures DigitsValue(r) == n
    decreases n
  {
    var d := [('0' as int + n % 10) as char];
    if n < 10 then d
    else
      var hi := NatToDecimal(n / 10);
      var r := hi + d;
      assert r[..|r| - 1] == hi;
      r
  }

  /** `String.valueOf` of an integer: its decimal form, with `-` if negative. */
  function IntToDecimal(n: int): string
  {
    if n < 0 then "-" + NatToDecimal(-n) else NatToDecimal(n)
  }

  /** Reading back the decimal form of an int gives the int. */
  lemma ParseIntToDecimal(n: int)
    requires MinInt <= n <= MaxInt
    ensures ParseInt(IntToDecimal(n)) == Ok(n)
  {
    var s := IntToDecimal(n);
    if n < 0 {
      assert s[1..] == NatToDecimal(-n);
    }
  }
}
