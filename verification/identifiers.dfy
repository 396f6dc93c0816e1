/** Reservation ids: the texts the reservation_id column accepts are exactly the
    canonical texts of the 128-bit values, one text each. */
module Identifiers {
  import opened Ledger

  function Pow16(k: nat): nat {
    if k == 0 then 1 else 16 * Pow16(k - 1)
  }

  lemma Pow16Is128Bits()
    ensures Pow16(32) == 0x1_0000_0000_0000_0000_0000_0000_0000_0000
  {
    assert Pow16(8) == 0x1_0000_0000;
    assert Pow16(16) == 0x1_0000_0000_0000_0000;
    assert Pow16(24) == 0x1_0000_0000_0000_0000_0000_0000;
  }

  predicate IsHex(c: char) {
    '0' <= c <= '9' || 'a' <= c <= 'f'
  }

  predicate AllHex(s: string) {
    forall i :: 0 <= i < |s| ==> IsHex(s[i])
  }

  function Digit(n: nat): (c: char)
    requires n < 16
    ensures IsHex(c)
  {
    "0123456789abcdef"[n]
  }

  function DigitValue(c: char): (n: nat)
    requires IsHex(c)
    ensures n < 16 && Digit(n) == c
  {
    if c <= '9' then c as int - '0' as int else c as int - 'a' as int + 10
  }

  /** The last `k` hexadecimal digits of a number. */
  function Hex(n: nat, k: nat): string
    decreases k
  {
    if k == 0 then "" else Hex(n / 16, k - 1) + [Digit(n % 16)]
  }

  function Value(s: string): nat
    requires AllHex(s)
  {
    if s == "" then 0 else 16 * Value(s[..|s| - 1]) + DigitValue(s[|s| - 1])
  }

  lemma {:induction false} HexIsHex(n: nat, k: nat)
    ensures |Hex(n, k)| == k && AllHex(Hex(n, k))
    decreases k
  {
    if k != 0 {
      HexIsHex(n / 16, k - 1);
    }
  }

  lemma DigitRoundTrip(n: nat)
    requires n < 16
    ensures DigitValue(Digit(n)) == n
  {
  }

  lemma {:induction false} ValueOfHex(n: nat, k: nat)
    requires n < Pow16(k)
    ensures AllHex(Hex(n, k)) && Value(Hex(n, k)) == n
    decreases k
  {
    HexIsHex(n, k);
    if k != 0 {
      HexIsHex(n / 16, k - 1);
      ValueOfHex(n / 16, k - 1);
      DigitRoundTrip(n % 16);
      assert Hex(n, k)[..k - 1] == Hex(n / 16, k - 1);
    }
  }

  lemma {:induction false} HexOfValue(s: string)
    requires AllHex(s)
    ensures Value(s) < Pow16(|s|) && Hex(Value(s), |s|) == s
  {
    if s != "" {
      var init := s[..|s| - 1];
      HexOfValue(init);
      var a, d := Value(init), DigitValue(s[|s| - 1]);
      LastDigit(a, d, Pow16(|init|));
      HexSnoc(a, d, |init|);
      assert s == init + [Digit(d)];
    }
  }

  lemma HexSnoc(a: nat, d: nat, k: nat)
    requires d < 16
    ensures Hex(16 * a + d, k + 1) == Hex(a, k) + [Digit(d)]
  {
    LastDigit(a, d, a + 1);
  }

  lemma LastDigit(a: nat, d: nat, bound: nat)
    requires d < 16 && a < bound
    ensures (16 * a + d) / 16 == a && (16 * a + d) % 16 == d && 16 * a + d < 16 * bound
  {
  }

  /* ---------- the canonical text ---------- */

  /** 32 digits in groups of 8, 4, 4, 4 and 12. */
  function Grouped(h: string): string
    requires |h| == 32
  {
    h[..8] + "-" + h[8..12] + "-" + h[12..16] + "-" + h[16..20] + "-" + h[20..]
  }

  function Ungrouped(s: string): string
    requires |s| == 36
  {
    s[..8] + s[9..13] + s[14..18] + s[19..23] + s[24..]
  }

  /** The text form of a 128-bit value. */
  function UuidText(n: nat): string {
    HexIsHex(n, 32);
    Grouped(Hex(n, 32))
  }

  predicate DashAt(i: int) {
    i == 8 || i == 13 || i == 18 || i == 23
  }

  predicate CharOk(s: string, i: nat)
    requires i < |s|
  {
    if DashAt(i) then s[i] == '-' else IsHex(s[i])
  }

  lemma {:induction false} UuidFromIff(s: string, i: nat)
    requires |s| == 36 && i <= 36
    ensures UuidFrom(s, i) <==> forall j :: i <= j < 36 ==> CharOk(s, j)
    decreases 36 - i
  {
    if i < 36 {
      UuidFromIff(s, i + 1);
      assert UuidFrom(s, i) <==> CharOk(s, i) && UuidFrom(s, i + 1);
    }
  }

  /** How many dashes stand before place `j`. */
  function DashesBefore(j: int): int {
    if j <= 8 then 0 else if j <= 13 then 1 else if j <= 18 then 2 else if j <= 23 then 3 else 4
  }

  lemma GroupedAt(h: string, j: nat)
    requires |h| == 32 && j < 36
    ensures |Grouped(h)| == 36
    ensures Grouped(h)[j] == if DashAt(j) then '-' else h[j - DashesBefore(j)]
  {
  }

  lemma GroupedIsValid(h: string)
    requires |h| == 32 && AllHex(h)
    ensures ValidUuid(Grouped(h)) && Ungrouped(Grouped(h)) == h
  {
    forall j | 0 <= j < 36
      ensures |Grouped(h)| == 36 && CharOk(Grouped(h), j)
    {
      GroupedAt(h, j);
    }
    UuidFromIff(Grouped(h), 0);
    UngroupGrouped(h);
  }

  lemma UngroupGrouped(h: string)
    requires |h| == 32
    ensures |Grouped(h)| == 36 && Ungrouped(Grouped(h)) == h
  {
    var s := Grouped(h);
    assert s[..8] == h[..8] && s[9..13] == h[8..12] && s[14..18] == h[12..16] && s[19..23] == h[16..20] && s[24..] == h[20..];
  }

  lemma UngroupedAt(s: string, k: nat)
    requires |s| == 36 && k < 32
    ensures |Ungrouped(s)| == 32
    ensures Ungrouped(s)[k] == s[if k < 8 then k else if k < 12 then k + 1 else if k < 16 then k + 2 else if k < 20 then k + 3 else k + 4]
  {
  }

  lemma ValidIsGrouped(s: string)
    requires ValidUuid(s)
    ensures AllHex(Ungrouped(s)) && |Ungrouped(s)| == 32 && Grouped(Ungrouped(s)) == s
  {
    var h := Ungrouped(s);
    UuidFromIff(s, 0);
    forall k | 0 <= k < 32
      ensures IsHex(h[k])
    {
      UngroupedAt(s, k);
      assert CharOk(s, if k < 8 then k else if k < 12 then k + 1 else if k < 16 then k + 2 else if k < 20 then k + 3 else k + 4);
    }
    forall j | 0 <= j < 36
      ensures |Grouped(h)| == 36 && Grouped(h)[j] == s[j]
    {
      GroupedAt(h, j);
      assert CharOk(s, j);
      if !DashAt(j) {
        UngroupedAt(s, j - DashesBefore(j));
      }
    }
  }

  /** The canonical text of every 128-bit value is accepted, and different values have
      different texts. */
  lemma TextsAreValidAndDistinct(m: nat, n: nat)
    requires m < 0x1_0000_0000_0000_0000_0000_0000_0000_0000 && n < 0x1_0000_0000_0000_0000_0000_0000_0000_0000
    ensures ValidUuid(UuidText(m))
    ensures UuidText(m) == UuidText(n) ==> m == n
  {
    Pow16Is128Bits();
    HexIsHex(m, 32);
    HexIsHex(n, 32);
    GroupedIsValid(Hex(m, 32));
    GroupedIsValid(Hex(n, 32));
    ValueOfHex(m, 32);
    ValueOfHex(n, 32);
  }

  /** Every accepted text is the canonical text of a 128-bit value. */
  lemma ValidIsText(s: string) returns (n: nat)
    requires ValidUuid(s)
    ensures n < 0x1_0000_0000_0000_0000_0000_0000_0000_0000 && UuidText(n) == s
  {
    Pow16Is128Bits();
    ValidIsGrouped(s);
    HexOfValue(Ungrouped(s));
    n := Value(Ungrouped(s));
  }
}
