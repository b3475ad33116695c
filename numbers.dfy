/** Number and register recognition shared by both assemblers:
    `parseInteger` (assembler/ir.ts), and `isNumber`, `parseNumber` and
    `isRegister`, which assembler/assembler.ts and assembler.ts each
    define with the same text. Only well-formed literals are read: a
    string that `parseInt` would read a prefix of, or turn into NaN, is
    None here. */
module Numbers {
  import opened Wrappers
  import opened Text
  import C = CoreOpcode

  /** The value of a digit in base 16 or less, either case. */
  function DigitValue(c: char): (d: Option<nat>)
    ensures d.Some? ==> d.value < 16
  {
    if '0' <= c <= '9' then Some((c as int) - ('0' as int))
    else if 'a' <= c <= 'f' then Some((c as int) - ('a' as int) + 10)
    else if 'A' <= c <= 'F' then Some((c as int) - ('A' as int) + 10)
    else None
  }

  predicate IsDigitOf(c: char, base: nat) {
    DigitValue(c).Some? && DigitValue(c).value < base
  }

  /** `parseInt(s, base)` for a non-empty string of digits of that base;
      None for anything else. */
  function ParseDigits(s: string, base: nat): (r: Option<nat>)
    requires 2 <= base <= 16
    decreases |s|
  {
    if s == [] || !IsDigitOf(s[|s| - 1], base) then None
    else if |s| == 1 then Some(DigitValue(s[0]).value)
    else
      var init := ParseDigits(s[..|s| - 1], base);
      if init.None? then None else Some(init.value * base + DigitValue(s[|s| - 1]).value)
  }

  /** `parseInt` reads a string exactly when it is a non-empty run of
      digits of the base. */
  lemma {:induction false} ParseDigitsAccepts(s: string, base: nat)
    requires 2 <= base <= 16
    ensures ParseDigits(s, base).Some? <==> s != [] && forall k :: 0 <= k < |s| ==> IsDigitOf(s[k], base)
    decreases |s|
  {
    if s != [] && IsDigitOf(s[|s| - 1], base) && |s| > 1 {
      ParseDigitsAccepts(s[..|s| - 1], base);
      forall k | 0 <= k < |s| - 1 ensures s[..|s| - 1][k] == s[k] {}
    }
  }

  /** The lower-case digit for a value below 16. */
  function HexDigit(d: nat): (c: char)
    requires d < 16
    ensures DigitValue(c) == Some(d)
  {
    if d < 10 then (('0' as int) + d) as char else (('a' as int) + d - 10) as char
  }

  /** Division by a base: the quotient is smaller and recombines with the
      remainder. */
  lemma DivideByBase(n: nat, base: nat)
    requires 2 <= base <= n
    ensures 0 < n / base < n && n % base < base
    ensures (n / base) * base + n % base == n
  {
    assert n == (n / base) * base + n % base;
  }

  /** `n.toString(base)`. */
  function ToDigits(n: nat, base: nat): (s: string)
    requires 2 <= base <= 16
    ensures s != [] && forall k :: 0 <= k < |s| ==> IsDigitOf(s[k], base)
    decreases n
  {
    if n < base then [HexDigit(n)]
    else
      DivideByBase(n, base);
      ToDigits(n / base, base) + [HexDigit(n % base)]
  }

  /** `n.toString(base)` read back with `parseInt(_, base)` is `n`. */
  lemma {:induction false} DigitsRoundTrip(n: nat, base: nat)
    requires 2 <= base <= 16
    ensures ParseDigits(ToDigits(n, base), base) == Some(n)
    decreases n
  {
    if n >= base {
      var s := ToDigits(n, base);
      DivideByBase(n, base);
      DigitsRoundTrip(n / base, base);
      assert s[..|s| - 1] == ToDigits(n / base, base);
    }
  }

  /** The decimal form of `n` reads back as `n`. */
  lemma {:induction false} DecimalRoundTrip(n: nat)
    ensures ParseDigits(NatToString(n), 10) == Some(n)
    decreases n
  {
    var s := NatToString(n);
    if n >= 10 {
      DecimalRoundTrip(n / 10);
      assert s[..|s| - 1] == NatToString(n / 10);
    }
  }

  /** One leading zero does not change the value of a non-empty string of
      digits. */
  lemma {:induction false} LeadingZero(s: string, base: nat)
    requires 2 <= base <= 16 && s != []
    ensures ParseDigits("0" + s, base) == ParseDigits(s, base)
    decreases |s|
  {
    var z := "0" + s;
    assert z[|z| - 1] == s[|s| - 1];
    if |s| == 1 {
      assert z[..|z| - 1] == "0";
    } else {
      assert z[..|z| - 1] == "0" + s[..|s| - 1];
      LeadingZero(s[..|s| - 1], base);
    }
  }

  /** Nor do any number of them, as `padStart(n, "0")` adds. */
  lemma {:induction false} LeadingZeros(k: nat, s: string, base: nat)
    requires 2 <= base <= 16 && s != []
    ensures ParseDigits(Repeat('0', k) + s, base) == ParseDigits(s, base)
    decreases k
  {
    if k > 0 {
      assert Repeat('0', k) + s == "0" + (Repeat('0', k - 1) + s);
      LeadingZero(Repeat('0', k - 1) + s, base);
      LeadingZeros(k - 1, s, base);
    } else {
      assert Repeat('0', k) + s == s;
    }
  }

  /** `isNumber(s)`: `s` starts with a decimal digit. */
  predicate IsNumber(s: string) {
    s != [] && '0' <= s[0] <= '9'
  }

  /** `parseNumber(s)`, and `parseInteger(s)` of the token-based pipeline:
      a `0b` prefix reads the rest in base 2, `0x` in base 16, anything
      else is decimal. */
  function ParseNumber(s: string): Option<nat> {
    if StartsWith(s, "0b") then ParseDigits(s[2..], 2)
    else if StartsWith(s, "0x") then ParseDigits(s[2..], 16)
    else ParseDigits(s, 10)
  }

  /** Every string that parses as a number passes `isNumber`. */
  lemma ParsedIsNumber(s: string)
    ensures ParseNumber(s).Some? ==> IsNumber(s)
  {
    if ParseNumber(s).Some? && !StartsWith(s, "0b") && !StartsWith(s, "0x") {
      ParseDigitsAccepts(s, 10);
      assert IsDigitOf(s[0], 10);
    }
  }

  /** The three written forms of a number read back as that number. */
  lemma {:induction false} ParseNumberRoundTrip(n: nat)
    ensures ParseNumber(NatToString(n)) == Some(n)
    ensures ParseNumber("0x" + ToDigits(n, 16)) == Some(n)
    ensures ParseNumber("0b" + ToDigits(n, 2)) == Some(n)
  {
    var d := NatToString(n);
    DecimalRoundTrip(n);
    if |d| >= 2 {
      assert d[1] != 'b' && d[1] != 'x';
    }
    assert !StartsWith(d, "0b") && !StartsWith(d, "0x");
    var h := "0x" + ToDigits(n, 16);
    assert h[2..] == ToDigits(n, 16);
    DigitsRoundTrip(n, 16);
    var b := "0b" + ToDigits(n, 2);
    assert b[2..] == ToDigits(n, 2);
    assert !StartsWith(h, "0b");
    DigitsRoundTrip(n, 2);
  }

  /** The decimal literals of the two assemblers' tests. */
  lemma ParseNumberExamples()
    ensures ParseNumber("0") == Some(0)
    ensures ParseNumber("123") == Some(123)
    ensures ParseNumber("not a number") == None
    ensures IsNumber("0xab") && IsNumber("0b1") && !IsNumber("not a number")
  {
    assert "123"[..2] == "12" && "12"[..1] == "1";
    assert ParseDigits("1", 10) == Some(1) && ParseDigits("12", 10) == Some(12);
    assert ParseDigits("123", 10) == Some(123);
    assert !IsDigitOf("not a number"[|"not a number"| - 1], 10);
  }

  /** The hexadecimal literals of the two assemblers' tests. */
  lemma HexNumberExamples()
    ensures ParseNumber("0x123") == Some(291)
    ensures ParseNumber("0xab") == Some(171)
    ensures ParseNumber("0xcccc") == Some(52428)
  {
    assert "0xcccc"[..2] == "0x" && !StartsWith("0xcccc", "0b") && StartsWith("0xcccc", "0x");
    assert "0xcccc"[2..] == "cccc" && "cccc"[..3] == "ccc" && "ccc"[..2] == "cc" && "cc"[..1] == "c";
    assert ParseDigits("c", 16) == Some(12) && ParseDigits("cc", 16) == Some(204);
    assert ParseDigits("ccc", 16) == Some(3276) && ParseDigits("cccc", 16) == Some(52428);
    assert "0x123"[..2] == "0x" && !StartsWith("0x123", "0b") && StartsWith("0x123", "0x");
    assert "0x123"[2..] == "123";
    assert "123"[..2] == "12" && "12"[..1] == "1";
    assert ParseDigits("1", 16) == Some(1) && ParseDigits("12", 16) == Some(18);
    assert ParseDigits("123", 16) == Some(291);
    assert "0xab"[..2] == "0x" && !StartsWith("0xab", "0b") && StartsWith("0xab", "0x");
    assert "0xab"[2..] == "ab" && "ab"[..1] == "a";
    assert ParseDigits("a", 16) == Some(10);
    assert ParseDigits("ab", 16) == Some(171);
  }

  /** The binary literals of the two assemblers' tests. */
  lemma BinaryNumberExamples()
    ensures ParseNumber("0b101") == Some(5)
    ensures ParseNumber("0b1") == Some(1)
  {
    assert "0b101"[..2] == "0b" && "0b101"[2..] == "101";
    assert "101"[..2] == "10" && "10"[..1] == "1";
    assert ParseDigits("1", 2) == Some(1) && ParseDigits("10", 2) == Some(2);
    assert ParseDigits("101", 2) == Some(5);
    assert "0b1"[..2] == "0b" && "0b1"[2..] == "1";
  }

  /** `isRegister(s)`, read as the test suite states it: true exactly for
      the seven register names. */
  predicate IsRegister(s: string) {
    C.RegisterByName(s).Some?
  }

  lemma IsRegisterExactly(s: string)
    ensures IsRegister(s) <==> exists r: C.Register :: s == C.RegisterName(r)
  {
    if IsRegister(s) {
      C.RegisterNamesOneToOne(C.RegisterByName(s).value, s);
    }
  }

  /** The property names an object literal inherits from
      `Object.prototype`, which the `in` operator also finds. */
  const ObjectPrototypeKeys: set<string> := {
    "constructor", "hasOwnProperty", "isPrototypeOf", "propertyIsEnumerable",
    "toString", "toLocaleString", "valueOf", "__proto__",
    "__defineGetter__", "__defineSetter__", "__lookupGetter__", "__lookupSetter__"
  }

  /** `s in RegisterName` as written: the enumeration object's own keys and
      the inherited ones. */
  predicate IsRegisterAsWritten(s: string) {
    IsRegister(s) || s in ObjectPrototypeKeys
  }

  /** The written test accepts a name no register has. */
  lemma IsRegisterAsWrittenAcceptsConstructor()
    ensures IsRegisterAsWritten("constructor") && !IsRegister("constructor")
  {
  }
}
