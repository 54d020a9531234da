/** JSON-RPC quantities: `0x…` hex strings turned into decimal strings of any width by a loop
    over base 10^9 limbs, next to the checked parser into a 128-bit integer.
 */
module Quantities {
  import opened Text

  datatype Result<T> = Ok(value: T) | Err

  newtype u64 = x: int | 0 <= x < 0x1_0000_0000_0000_0000

  const BASE := 1_000_000_000
  const U128_END := 0x1_0000_0000_0000_0000_0000_0000_0000_0000

  // ---- Reading the text -----------------------------------------------------------------

  /** `trim_start_matches("0x")` drops the prefix as often as it occurs. */
  function StripPrefixes(s: string): string {
    if "0x" <= s then StripPrefixes(s[2..]) else s
  }

  function Digits(hex: string): string {
    StripPrefixes(Trim(hex))
  }

  predicate IsHex(c: char) {
    '0' <= c <= '9' || 'a' <= c <= 'f' || 'A' <= c <= 'F'
  }

  function Nibble(c: char): (n: nat)
    requires IsHex(c)
    ensures n < 16
  {
    if c <= '9' then c as nat - '0' as nat
    else if c <= 'F' then c as nat - 'A' as nat + 10
    else c as nat - 'a' as nat + 10
  }

  predicate AllHex(s: string) {
    forall c :: c in s ==> IsHex(c)
  }

  /** The number a hex digit string stands for. */
  function HexValue(s: string): nat
    requires AllHex(s)
  {
    if s == [] then 0 else 16 * HexValue(s[..|s| - 1]) + Nibble(s[|s| - 1])
  }

  // ---- Decimal text ---------------------------------------------------------------------

  predicate IsDigit(c: char) {
    '0' <= c <= '9'
  }

  predicate AllDigits(s: string) {
    forall i :: 0 <= i < |s| ==> IsDigit(s[i])
  }

  /** The number a decimal digit string stands for. */
  function DecimalValue(s: string): nat
    requires AllDigits(s)
  {
    if s == [] then 0 else 10 * DecimalValue(s[..|s| - 1]) + (s[|s| - 1] as nat - '0' as nat)
  }

  /** Decimal digits without a superfluous leading zero. */
  predicate Canonical(s: string) {
    s != [] && AllDigits(s) && (s[0] == '0' ==> |s| == 1)
  }

  /** The canonical decimal text of a number is unique. */
  lemma {:induction false} CanonicalIsUnique(a: string, b: string)
    requires Canonical(a) && Canonical(b) && DecimalValue(a) == DecimalValue(b)
    ensures a == b
    decreases |a|
  {
    LongIsPositive(a);
    LongIsPositive(b);
    assert a == a[..|a| - 1] + [a[|a| - 1]] && b == b[..|b| - 1] + [b[|b| - 1]];
    if |a| > 1 && |b| > 1 {
      CanonicalIsUnique(a[..|a| - 1], b[..|b| - 1]);
    }
  }

  lemma {:induction false} LongIsPositive(s: string)
    requires Canonical(s)
    ensures |s| > 1 ==> DecimalValue(s) >= 10
    ensures |s| > 1 ==> Canonical(s[..|s| - 1]) && DecimalValue(s[..|s| - 1]) > 0
  {
    if |s| == 2 {
      assert s[..1][..0] == [];
      assert DecimalValue(s[..1]) == s[0] as nat - '0' as nat;
    } else if |s| > 2 {
      LongIsPositive(s[..|s| - 1]);
    }
  }

  function DigitChar(d: nat): (c: char)
    requires d < 10
    ensures IsDigit(c) && c as nat == d + '0' as nat
  {
    (d + '0' as nat) as char
  }

  /** `to_string` of an unsigned integer. */
  function ToDecimal(n: nat): (s: string)
    ensures Canonical(s) && DecimalValue(s) == n
    ensures n > 0 ==> s[0] != '0'
  {
    if n < 10 then [DigitChar(n)]
    else
      var front := ToDecimal(n / 10);
      var s := front + [DigitChar(n % 10)];
      assert s[..|s| - 1] == front;
      s
  }

  function Pow10(k: nat): nat {
    if k == 0 then 1 else 10 * Pow10(k - 1)
  }

  /** The low `k` decimal digits of `n`, zeros included (`{:09}` for k = 9). */
  function Padded(n: nat, k: nat): (s: string)
    ensures |s| == k && AllDigits(s)
  {
    if k == 0 then [] else Padded(n / 10, k - 1) + [DigitChar(n % 10)]
  }

  lemma {:induction false} DecimalOfPadded(front: string, n: nat, k: nat)
    requires AllDigits(front) && n < Pow10(k)
    ensures DecimalValue(front + Padded(n, k)) == DecimalValue(front) * Pow10(k) + n
  {
    if k == 0 {
      assert front + Padded(n, k) == front;
    } else {
      var s := front + Padded(n, k);
      assert s[..|s| - 1] == front + Padded(n / 10, k - 1);
      DecimalOfPadded(front, n / 10, k - 1);
      TimesTen(DecimalValue(front), Pow10(k - 1));
    }
  }

  lemma TimesTen(a: nat, b: nat)
    ensures 10 * (a * b) == a * (10 * b)
  {
  }

  // ---- Limbs ----------------------------------------------------------------------------

  ghost predicate Limbs(limbs: seq<u64>) {
    forall i :: 0 <= i < |limbs| ==> limbs[i] as int < BASE
  }

  /** Little-endian limbs without a superfluous zero on top. */
  ghost predicate Normal(limbs: seq<u64>) {
    limbs != [] && Limbs(limbs) && (|limbs| > 1 ==> limbs[|limbs| - 1] > 0)
  }

  ghost function Value(limbs: seq<u64>): nat {
    if limbs == [] then 0 else limbs[0] as nat + BASE * Value(limbs[1..])
  }

  /** The limbs of 16 * value + carry. */
  ghost function Shifted(limbs: seq<u64>, carry: u64): seq<u64>
    requires Limbs(limbs) && carry < 16
  {
    if limbs == [] then (if carry > 0 then [carry] else [])
    else
      var value := limbs[0] * 16 + carry;
      [value % BASE as u64] + Shifted(limbs[1..], value / BASE as u64)
  }

  lemma {:induction false} ShiftedValue(limbs: seq<u64>, carry: u64)
    requires Limbs(limbs) && carry < 16
    ensures Limbs(Shifted(limbs, carry))
    ensures Value(Shifted(limbs, carry)) == 16 * Value(limbs) + carry as nat
    ensures limbs != [] && limbs[|limbs| - 1] > 0 ==>
              Shifted(limbs, carry) != [] && Shifted(limbs, carry)[|Shifted(limbs, carry)| - 1] > 0
  {
    if limbs != [] {
      var value := limbs[0] * 16 + carry;
      var rest := Shifted(limbs[1..], value / BASE as u64);
      ShiftedValue(limbs[1..], value / BASE as u64);
      assert Shifted(limbs, carry)[1..] == rest;
      if |limbs| == 1 {
        assert limbs[1..] == [];
      } else {
        assert limbs[1..][|limbs[1..]| - 1] == limbs[|limbs| - 1];
      }
    }
  }

  /** The limbs of a hex digit string. */
  ghost function HexLimbs(digits: string): (limbs: seq<u64>)
    requires AllHex(digits)
    ensures Normal(limbs) && Value(limbs) == HexValue(digits)
  {
    if digits == [] then
      assert Value([0 as u64][1..]) == 0;
      [0]
    else
      var front := HexLimbs(digits[..|digits| - 1]);
      var nibble := Nibble(digits[|digits| - 1]) as u64;
      ShiftedValue(front, nibble);
      assert |front| == 1 ==> front[1..] == [];
      Shifted(front, nibble)
  }

  /** Most significant limb first, the others padded to nine digits. */
  ghost function Rendered(limbs: seq<u64>): string
    requires limbs != []
  {
    if |limbs| == 1 then ToDecimal(limbs[0] as nat)
    else Rendered(limbs[1..]) + Padded(limbs[0] as nat, 9)
  }

  lemma {:induction false} RenderedIsCanonical(limbs: seq<u64>)
    requires Normal(limbs)
    ensures Canonical(Rendered(limbs)) && DecimalValue(Rendered(limbs)) == Value(limbs)
    ensures Value(limbs) > 0 ==> Rendered(limbs)[0] != '0'
    ensures |limbs| > 1 ==> Value(limbs) > 0
  {
    if |limbs| == 1 {
      assert limbs[1..] == [];
    } else {
      var rest := limbs[1..];
      assert rest[|rest| - 1] == limbs[|limbs| - 1];
      RenderedIsCanonical(rest);
      assert |rest| == 1 ==> rest[1..] == [];
      assert Pow10(9) == BASE;
      DecimalOfPadded(Rendered(rest), limbs[0] as nat, 9);
    }
  }

  // ---- The two parsers ------------------------------------------------------------------

  /** What `hex_quantity_to_decimal` returns. */
  ghost function DecimalQuantity(hex: string): Result<string> {
    var digits := Digits(hex);
    if digits == [] || !AllHex(digits) then Err else Ok(Rendered(HexLimbs(digits)))
  }

  /** `hex_quantity_to_decimal`. The type `u64` of the limbs makes every step overflow-checked. */
  method HexQuantityToDecimal(hex: string) returns (r: Result<string>)
    ensures r == DecimalQuantity(hex)
  {
    var digits := Digits(hex);
    if digits == [] || !AllHex(digits) {
      return Err;
    }
    var limbs: seq<u64> := [0];
    for n := 0 to |digits|
      invariant AllHex(digits[..n]) && limbs == HexLimbs(digits[..n])
    {
      assert digits[..n + 1][..n] == digits[..n];
      limbs := TimesSixteenPlus(limbs, Nibble(digits[n]) as u64);
    }
    assert digits[..|digits|] == digits;
    var out := ToDecimal(limbs[|limbs| - 1] as nat);
    for i := |limbs| - 1 downto 0
      invariant out == Rendered(limbs[i..])
    {
      out := out + Padded(limbs[i] as nat, 9);
      assert limbs[i..][1..] == limbs[i + 1..];
    }
    assert limbs[0..] == limbs;
    return Ok(out);
  }

  /** One nibble: multiply every limb by 16, pushing the carry upwards. */
  method TimesSixteenPlus(limbs: seq<u64>, nibble: u64) returns (shifted: seq<u64>)
    requires Limbs(limbs) && nibble < 16
    ensures shifted == Shifted(limbs, nibble)
  {
    var carry := nibble;
    shifted := [];
    for i := 0 to |limbs|
      invariant carry < 16
      invariant shifted + Shifted(limbs[i..], carry) == Shifted(limbs, nibble)
    {
      var value := limbs[i] * 16 + carry;
      ghost var rest := Shifted(limbs[i + 1..], value / BASE as u64);
      assert limbs[i..][1..] == limbs[i + 1..];
      assert shifted + ([value % BASE as u64] + rest) == (shifted + [value % BASE as u64]) + rest;
      shifted := shifted + [value % BASE as u64];
      carry := value / BASE as u64;
    }
    assert limbs[|limbs|..] == [];
    ghost var missing := if carry > 0 then [carry] else [];
    ghost var lower := shifted;
    while carry > 0
      invariant carry < 16
      invariant shifted + (if carry > 0 then [carry] else []) == lower + missing
    {
      shifted := shifted + [carry % BASE as u64];
      carry := carry / BASE as u64;
    }
  }

  /** For every non-empty hex digit string the output is the canonical decimal text of the same
      number; every other input is refused. */
  lemma DecimalQuantityIsExact(hex: string)
    ensures DecimalQuantity(hex).Ok? <==> Digits(hex) != [] && AllHex(Digits(hex))
    ensures DecimalQuantity(hex).Ok? ==>
              && Canonical(DecimalQuantity(hex).value)
              && DecimalValue(DecimalQuantity(hex).value) == HexValue(Digits(hex))
              && DecimalQuantity(hex).value == ToDecimal(HexValue(Digits(hex)))
  {
    var digits := Digits(hex);
    if digits != [] && AllHex(digits) {
      RenderedIsCanonical(HexLimbs(digits));
      CanonicalIsUnique(Rendered(HexLimbs(digits)), ToDecimal(HexValue(digits)));
    }
  }

  /** `u128::from_str_radix(_, 16)` after its optional plus sign: a checked Horner loop. */
  function CheckedHex(s: string, acc: nat): Result<nat>
    decreases |s|
  {
    if s == [] then Ok(acc)
    else if !IsHex(s[0]) || 16 * acc + Nibble(s[0]) >= U128_END then Err
    else CheckedHex(s[1..], 16 * acc + Nibble(s[0]))
  }

  function Unsigned(digits: string): string {
    if |digits| > 1 && digits[0] == '+' then digits[1..] else digits
  }

  function U128Quantity(hex: string): Result<nat> {
    var digits := Digits(hex);
    if digits == [] then Err else CheckedHex(Unsigned(digits), 0)
  }

  lemma {:induction false} CheckedHexIsExact(front: string, s: string)
    requires AllHex(front) && HexValue(front) < U128_END
    ensures CheckedHex(s, HexValue(front)).Ok? <==> AllHex(s) && HexValue(front + s) < U128_END
    ensures CheckedHex(s, HexValue(front)).Ok? ==> CheckedHex(s, HexValue(front)).value == HexValue(front + s)
    decreases |s|
  {
    if s == [] {
      assert front + s == front;
    } else if IsHex(s[0]) {
      var next := front + [s[0]];
      HexValueSnoc(front, s[0]);
      assert next + s[1..] == front + s;
      assert AllHex(s) <==> AllHex(s[1..]) by {
        assert s == [s[0]] + s[1..];
      }
      if HexValue(next) < U128_END {
        CheckedHexIsExact(next, s[1..]);
      } else if AllHex(s) {
        HexValueGrows(next, s[1..]);
      }
    } else {
      assert s[0] in s;
    }
  }

  lemma HexValueSnoc(front: string, c: char)
    requires AllHex(front) && IsHex(c)
    ensures AllHex(front + [c]) && HexValue(front + [c]) == 16 * HexValue(front) + Nibble(c)
  {
    assert (front + [c])[..|front|] == front;
  }

  lemma {:induction false} HexValueGrows(front: string, s: string)
    requires AllHex(front) && AllHex(s)
    ensures HexValue(front + s) >= HexValue(front)
    decreases |s|
  {
    if s == [] {
      assert front + s == front;
    } else {
      assert (front + s)[..|front + s| - 1] == front + s[..|s| - 1];
      HexValueGrows(front, s[..|s| - 1]);
    }
  }

  /** The two parsers agree on every hex digit string below 2^128. They differ on exactly two
      families: numbers of 2^128 and more, which only the decimal parser takes, and digits after
      a plus sign, which only the 128-bit parser takes. */
  lemma ParsersAgree(hex: string)
    ensures U128Quantity(hex).Ok? && DecimalQuantity(hex).Ok? ==>
              DecimalQuantity(hex).value == ToDecimal(U128Quantity(hex).value)
    ensures DecimalQuantity(hex).Ok? ==>
              (U128Quantity(hex).Ok? <==> HexValue(Digits(hex)) < U128_END)
    ensures U128Quantity(hex).Ok? ==>
              (DecimalQuantity(hex).Ok? <==> Digits(hex)[0] != '+')
  {
    DecimalQuantityIsExact(hex);
    var digits := Digits(hex);
    if digits != [] {
      CheckedHexIsExact([], Unsigned(digits));
      assert [] + Unsigned(digits) == Unsigned(digits);
      assert AllHex(digits) ==> IsHex(digits[0]);
    }
  }

  lemma PlusSignOnlyInU128()
    ensures U128Quantity("0x+f") == Ok(15) && DecimalQuantity("0x+f") == Err
  {
    var hex := "0x+f";
    assert TrimStart(hex) == hex && TrimEnd(hex) == hex;
    assert hex[2..] == "+f";
    assert Digits(hex) == "+f";
    ParsersAgree(hex);
    assert Unsigned("+f") == "f";
    assert "f"[1..] == [];
    assert CheckedHex("f", 0) == Ok(15);
  }

  // ---- Digits and the numbers they stand for --------------------------------------------

  const LOWER := "0123456789abcdef"
  const UPPER := "0123456789ABCDEF"
  const DECIMAL := "0123456789"

  /** A hex digit is one of the sixteen, in either case, and stands for its position. */
  lemma NibbleIsPosition(c: char, d: nat)
    requires d < 16
    ensures IsHex(c) <==> c in LOWER || c in UPPER
    ensures IsHex(c) ==> LOWER[Nibble(c)] == c || UPPER[Nibble(c)] == c
    ensures IsHex(LOWER[d]) && Nibble(LOWER[d]) == d
    ensures IsHex(UPPER[d]) && Nibble(UPPER[d]) == d
  {
    assert IsHex(c) ==> LOWER[Nibble(c)] == c || UPPER[Nibble(c)] == c;
    forall i | 0 <= i < 16 ensures IsHex(LOWER[i]) && IsHex(UPPER[i]) {
    }
  }

  /** A decimal digit stands for its position too. */
  lemma DigitIsPosition(d: nat)
    requires d < 10
    ensures DigitChar(d) == DECIMAL[d]
    ensures AllDigits([DECIMAL[d]]) && DecimalValue([DECIMAL[d]]) == d
  {
    assert [DECIMAL[d]][..0] == [];
  }

  function ToHex(n: nat): (s: string)
    ensures s != []
  {
    if n < 16 then [LOWER[n]] else ToHex(n / 16) + [LOWER[n % 16]]
  }

  lemma {:induction false} HexRoundTrip(n: nat)
    ensures AllHex(ToHex(n)) && HexValue(ToHex(n)) == n
  {
    NibbleIsPosition('0', n % 16);
    if n < 16 {
      assert ToHex(n)[..0] == [];
    } else {
      HexRoundTrip(n / 16);
      HexValueSnoc(ToHex(n / 16), LOWER[n % 16]);
    }
  }

  lemma {:induction false} StripAll(prefixes: nat, digits: string)
    requires AllHex(digits)
    ensures StripPrefixes(Prefixed(prefixes, digits)) == digits
  {
    if prefixes == 0 {
      if "0x" <= digits {
        assert digits[1] == "0x"[1] && digits[1] in digits;
      }
    } else {
      assert Prefixed(prefixes, digits)[2..] == Prefixed(prefixes - 1, digits);
      StripAll(prefixes - 1, digits);
    }
  }

  function Prefixed(prefixes: nat, digits: string): string {
    if prefixes == 0 then digits else "0x" + Prefixed(prefixes - 1, digits)
  }

  lemma {:induction false} PrefixedEnds(prefixes: nat, digits: string)
    requires digits != [] && AllHex(digits)
    ensures var s := Prefixed(prefixes, digits);
            s != [] && !IsSpace(s[0]) && s[|s| - 1] == digits[|digits| - 1] && !IsSpace(s[|s| - 1])
  {
    assert digits[0] in digits && digits[|digits| - 1] in digits;
    if prefixes > 0 {
      PrefixedEnds(prefixes - 1, digits);
    }
  }

  /** Every number, written in hex with any number of prefixes and white space around, becomes
      its decimal text; the 128-bit parser takes it exactly below 2^128. */
  lemma QuantityRoundTrip(front: string, prefixes: nat, n: nat, back: string)
    requires Blank(front) && Blank(back)
    ensures var text := front + Prefixed(prefixes, ToHex(n)) + back;
            && DecimalQuantity(text) == Ok(ToDecimal(n))
            && U128Quantity(text) == if n < 0x1_0000_0000_0000_0000_0000_0000_0000_0000 then Ok(n) else Err
  {
    hide Trim, ToHex, DecimalQuantity, U128Quantity;
    var digits := ToHex(n);
    var text := front + Prefixed(prefixes, digits) + back;
    HexRoundTrip(n);
    PrefixedEnds(prefixes, digits);
    TrimPads(front, Prefixed(prefixes, digits), back);
    StripAll(prefixes, digits);
    assert Digits(text) == digits;
    DecimalQuantityIsExact(text);
    ParsersAgree(text);
    if U128Quantity(text).Ok? {
      SameNumber(text, n);
    }
    NotOk(text);
  }

  lemma SameNumber(text: string, n: nat)
    requires U128Quantity(text).Ok? && Digits(text) != [] && AllHex(Digits(text)) && HexValue(Digits(text)) == n
    ensures U128Quantity(text).value == n
  {
    var digits := Digits(text);
    assert digits[0] in digits;
    CheckedHexIsExact([], digits);
    assert [] + digits == digits;
  }

  lemma NotOk(text: string)
    ensures !U128Quantity(text).Ok? ==> U128Quantity(text) == Err
  {
  }
}
