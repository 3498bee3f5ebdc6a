/** Fixed-width numbers in keys and values: zero-padded decimals and big-endian bytes. */
module Codec {
  import opened Tables

  function Digit(d: nat): char
    requires d < 10
  {
    '0' + d as char
  }

  function Power(base: nat, e: nat): nat { if e == 0 then 1 else base * Power(base, e - 1) }

  /** `n` in exactly `width` decimal digits. */
  function Padded(n: nat, width: nat): (r: string)
    ensures |r| == width && ':' !in r && '-' !in r
  {
    if width == 0 then "" else Padded(n / 10, width - 1) + [Digit(n % 10)]
  }

  lemma {:induction false} PaddedIsInjective(m: nat, n: nat, width: nat)
    requires m < Power(10, width) && n < Power(10, width) && Padded(m, width) == Padded(n, width)
    ensures m == n
  {
    if width > 0 {
      assert Padded(m, width)[..width - 1] == Padded(m / 10, width - 1);
      assert Padded(n, width)[..width - 1] == Padded(n / 10, width - 1);
      assert Padded(m, width)[width - 1] == Digit(m % 10) && Padded(n, width)[width - 1] == Digit(n % 10);
      PaddedIsInjective(m / 10, n / 10, width - 1);
    }
  }

  /** The shortest decimal form. */
  function Decimal(n: nat): (r: string)
    ensures |r| > 0 && ':' !in r && '-' !in r && '|' !in r
  {
    if n < 10 then [Digit(n)] else Decimal(n / 10) + [Digit(n % 10)]
  }

  function SignedDecimal(i: int): (r: string)
    ensures ':' !in r
  {
    if i < 0 then "-" + Decimal(-i) else Decimal(i)
  }

  lemma {:induction false} DecimalIsInjective(m: nat, n: nat)
    requires Decimal(m) == Decimal(n)
    ensures m == n
  {
    var s := Decimal(m);
    if m >= 10 && n >= 10 {
      assert s[..|s| - 1] == Decimal(m / 10) && s[..|s| - 1] == Decimal(n / 10);
      assert s[|s| - 1] == Digit(m % 10) && s[|s| - 1] == Digit(n % 10);
      DecimalIsInjective(m / 10, n / 10);
    }
  }

  lemma SignedDecimalIsInjective(i: int, j: int)
    requires SignedDecimal(i) == SignedDecimal(j)
    ensures i == j
  {
    var s := SignedDecimal(i);
    assert '-' in s <==> i < 0;
    if i < 0 && j < 0 {
      assert s[1..] == Decimal(-i) && s[1..] == Decimal(-j);
      DecimalIsInjective(-i, -j);
    } else if i >= 0 && j >= 0 {
      DecimalIsInjective(i, j);
    }
  }

  /** Reading decimal digits from left to right. */
  function ReadDecimal(s: string): int {
    if s == "" then 0 else ReadDecimal(s[..|s| - 1]) * 10 + (s[|s| - 1] as int - '0' as int)
  }

  /** Both forms read back as the number. */
  lemma {:induction false} PaddedReadsBack(n: nat, width: nat)
    requires n < Power(10, width)
    ensures ReadDecimal(Padded(n, width)) == n
  {
    if width > 0 {
      assert Padded(n, width)[..width - 1] == Padded(n / 10, width - 1);
      PaddedReadsBack(n / 10, width - 1);
    }
  }

  lemma {:induction false} DecimalReadsBack(n: nat)
    ensures ReadDecimal(Decimal(n)) == n
    ensures n > 0 ==> Decimal(n)[0] != '0'
  {
    var s := Decimal(n);
    if n >= 10 {
      assert s[..|s| - 1] == Decimal(n / 10);
      DecimalReadsBack(n / 10);
    } else {
      assert s[..0] == "";
      assert ReadDecimal("") == 0;
    }
  }

  // ----- big-endian bytes -----

  function ToBytes(n: nat, width: nat): (r: seq<Byte>)
    ensures |r| == width
  {
    if width == 0 then [] else ToBytes(n / 256, width - 1) + [n % 256]
  }

  function FromBytes(bytes: seq<Byte>): nat {
    if bytes == [] then 0 else FromBytes(bytes[..|bytes| - 1]) * 256 + bytes[|bytes| - 1]
  }

  lemma {:induction false} BytesRoundTrip(n: nat, width: nat)
    requires n < Power(256, width)
    ensures FromBytes(ToBytes(n, width)) == n
  {
    if width > 0 {
      assert ToBytes(n, width)[..width - 1] == ToBytes(n / 256, width - 1);
      BytesRoundTrip(n / 256, width - 1);
    }
  }

  /** The first byte is the most significant one. */
  lemma {:induction false} FirstByteWeighsMost(a: Byte, rest: seq<Byte>)
    ensures FromBytes([a] + rest) == a * Power(256, |rest|) + FromBytes(rest)
  {
    if rest == [] {
      assert [a] + rest == [a] && [a][..0] == [];
    } else {
      var init := rest[..|rest| - 1];
      FirstByteWeighsMost(a, init);
      assert ([a] + rest)[..|rest|] == [a] + init;
      assert a * Power(256, |init|) * 256 == a * Power(256, |rest|);
    }
  }

  /** Bytes are those of the number they read as. */
  lemma {:induction false} BytesReadBack(bytes: seq<Byte>)
    ensures ToBytes(FromBytes(bytes), |bytes|) == bytes
  {
    if bytes != [] {
      var init := bytes[..|bytes| - 1];
      BytesReadBack(init);
      assert bytes == init + [bytes[|bytes| - 1]];
    }
  }

  lemma {:induction false} FromBytesIsInjective(a: seq<Byte>, b: seq<Byte>)
    requires |a| == |b| && FromBytes(a) == FromBytes(b)
    ensures a == b
  {
    if a != [] {
      FromBytesIsInjective(a[..|a| - 1], b[..|b| - 1]);
      assert a == a[..|a| - 1] + [a[|a| - 1]] && b == b[..|b| - 1] + [b[|b| - 1]];
    }
  }

  // ----- separated fields -----

  /** When two texts start with fields free of the separator and one text continues the other, the fields
      are the same and so is the relation between what follows them. */
  lemma FieldsMatch(sep: char, a: string, x: string, b: string, y: string)
    requires sep !in a && sep !in b && b + [sep] + y <= a + [sep] + x
    ensures a == b && y <= x
  {
    var s, t := a + [sep] + x, b + [sep] + y;
    assert s[|a|] == sep && t[|b|] == sep;
    assert forall k :: 0 <= k < |a| ==> a[k] in a && s[k] == a[k] != sep;
    assert forall k :: 0 <= k < |b| ==> b[k] in b && t[k] == b[k] != sep;
    assert |a| == |b|;
    assert s[..|a|] == a && t[..|b|] == b;
    assert s[|a| + 1..] == x && t[|b| + 1..] == y;
    assert y == x[..|y|];
  }
}
