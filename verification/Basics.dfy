/** Values shared by every component: bytes, optional values and results. */
module Basics {

  type byte = b: int | 0 <= b < 256

  type Bytes = seq<byte>

  const U64_MODULUS: nat := 0x1_0000_0000_0000_0000

  const U64_MAX: nat := U64_MODULUS - 1

  datatype Option<+T> = None | Some(value: T)

  datatype Result<+T, +E> = Ok(value: T) | Err(error: E)

  datatype Unit = Unit

  function Min(a: int, b: int): int {
    if a <= b then a else b
  }

  /** The number a string of decimal digits stands for. */
  function FromDecimal(digits: string): nat
    requires forall i :: 0 <= i < |digits| ==> '0' <= digits[i] <= '9'
  {
    if digits == "" then 0
    else 10 * FromDecimal(digits[..|digits| - 1]) + (digits[|digits| - 1] as int - '0' as int)
  }

  /** Decimal digits only, the right number, and no leading zero. */
  lemma {:induction false} DecimalReads(n: nat)
    ensures var digits := Decimal(n);
            && digits != "" && (forall i :: 0 <= i < |digits| ==> '0' <= digits[i] <= '9')
            && FromDecimal(digits) == n && (n > 0 ==> digits[0] != '0')
  {
    var last := ["0123456789"[n % 10]];
    assert "0123456789"[n % 10] as int == '0' as int + n % 10;
    if n < 10 {
      assert Decimal(n) == last && last[..0] == "";
    } else {
      DecimalReads(n / 10);
      assert Decimal(n)[..|Decimal(n)| - 1] == Decimal(n / 10);
    }
  }

  /** The decimal digits of a number. */
  function Decimal(n: nat): string {
    (if n < 10 then "" else Decimal(n / 10)) + ["0123456789"[n % 10]]
  }
}
