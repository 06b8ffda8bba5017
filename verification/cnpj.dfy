/**
 CNPJ normalisation (leads_uploader/src/util.py): every value of the `cnpj`
 column is rendered with `str()` and left-padded with zeros to 14 characters by
 Python's `str.zfill`, which keeps a leading sign in front of the zeros.
 */
module Cnpj {
  import opened Frames

  /** Width of a CNPJ: 14 decimal digits. */
  const CnpjWidth: nat := 14

  function Max(a: int, b: int): int
  {
    if a >= b then a else b
  }

  function Zeros(k: nat): (z: string)
    ensures |z| == k && AllDigits(z)
  {
    seq(k, _ => '0')
  }

  /** The text starts with a sign that `zfill` keeps in front. */
  predicate IsSigned(s: string)
  {
    |s| > 0 && (s[0] == '+' || s[0] == '-')
  }

  /**
   Declarative reading of "`r` is `s` zero-padded to `width`": `r` is `width`
   long unless `s` is already longer, the zeros go at the front, and a leading
   sign stays first with the zeros after it.
   */
  ghost predicate PaddedTo(s: string, r: string, width: nat)
  {
    && |r| == Max(width, |s|)
    && var k := |r| - |s|;
       if IsSigned(s) && k > 0 then r == [s[0]] + Zeros(k) + s[1..] else r == Zeros(k) + s
  }

  /**
   Python's `str.zfill(width)`, written the way CPython computes it: pad on the
   left with `fill` zeros, then, if the character now at position `fill` is a
   sign, move it to the front and put a zero in its place (CPython reads the
   terminating NUL at position `fill` when `s` is empty, which is no sign).
   */
  function ZFill(s: string, width: nat): (r: string)
    ensures PaddedTo(s, r, width)
    ensures |r| == Max(width, |s|)
    ensures |s| >= width ==> r == s
    ensures AllDigits(s) ==> AllDigits(r)
    ensures !IsSigned(s) ==> r[|r| - |s|..] == s
  {
    if |s| >= width then
      assert Zeros(0) + s == s;
      s
    else
      var fill := width - |s|;
      var u := Zeros(fill) + s;
      if fill < |u| && (u[fill] == '+' || u[fill] == '-') then
        var r := u[0 := u[fill]][fill := '0'];
        assert r == [s[0]] + Zeros(fill) + s[1..] by {
          assert forall i | 0 <= i < |r| :: r[i] == ([s[0]] + Zeros(fill) + s[1..])[i];
        }
        r
      else
        u
  }

  /** `ZFill` is exactly the padding that `PaddedTo` describes: nothing else satisfies it. */
  lemma ZFillCharacterised(s: string, r: string, width: nat)
    ensures ZFill(s, width) == r <==> PaddedTo(s, r, width)
  {
  }

  /** Padding an already padded value changes nothing. */
  lemma ZFillIdempotent(s: string, width: nat)
    ensures ZFill(ZFill(s, width), width) == ZFill(s, width)
  {
  }

  /** A sign stays in front and the zeros are inserted right after it. */
  lemma ZFillKeepsSign(s: string, width: nat)
    requires IsSigned(s) && |s| < width
    ensures ZFill(s, width)[0] == s[0]
    ensures ZFill(s, width)[1..width - |s| + 1] == Zeros(width - |s|)
    ensures ZFill(s, width)[width - |s| + 1..] == s[1..]
  {
    var k := width - |s|;
    var r := [s[0]] + Zeros(k) + s[1..];
    assert ZFill(s, width) == r;
    assert r[1..k + 1] == Zeros(k);
    assert r[k + 1..] == s[1..];
  }

  /** `format_cnpj`: each element rendered as text, then zero-padded to 14. */
  function FormatCnpj(series: seq<Cell>): (r: seq<string>)
    ensures |r| == |series|
    ensures forall i | 0 <= i < |r| :: PaddedTo(Render(series[i]), r[i], CnpjWidth)
    ensures forall i | 0 <= i < |r| :: |r[i]| >= CnpjWidth
  {
    seq(|series|, i requires 0 <= i < |series| => ZFill(Render(series[i]), CnpjWidth))
  }

  /** A column of non-negative integers becomes a column of all-digit strings of at least 14 characters. */
  lemma FormatCnpjOfNaturals(series: seq<Cell>)
    requires forall i | 0 <= i < |series| :: series[i].Int? && series[i].i >= 0
    ensures forall i | 0 <= i < |series| :: AllDigits(FormatCnpj(series)[i])
    ensures forall i | 0 <= i < |series| ::
      |FormatCnpj(series)[i]| == Max(CnpjWidth, |NatToDecimal(series[i].i)|)
  {
  }
}
