// A codec for plain decimal scalars, as the emitter writes and the reader takes them
// (src/app_config.cpp): the round trip of the configuration holds of it, and so do the
// documents whose filled-in defaults go unreported.
module DecimalCodecs {
  import opened Wrappers
  import opened AppConfigs
  import Y = YamlHeal

  // ----- whole numbers -----

  predicate IsDigit(ch: char) {
    '0' <= ch <= '9'
  }

  function Digit(ch: char): nat
    requires IsDigit(ch)
  {
    ch as int - '0' as int
  }

  predicate AreDigits(t: string) {
    t != [] && forall i :: 0 <= i < |t| ==> IsDigit(t[i])
  }

  function ValueOf(t: string): nat
    requires forall i :: 0 <= i < |t| ==> IsDigit(t[i])
  {
    if t == [] then 0 else 10 * ValueOf(t[..|t| - 1]) + Digit(t[|t| - 1])
  }

  function DigitsOf(n: nat): string {
    var last := ('0' as int + n % 10) as char;
    if n < 10 then [last] else DigitsOf(n / 10) + [last]
  }

  lemma {:induction false} DigitsReadBack(n: nat)
    ensures AreDigits(DigitsOf(n)) && ValueOf(DigitsOf(n)) == n
  {
    if n >= 10 {
      DigitsReadBack(n / 10);
      assert DigitsOf(n)[..|DigitsOf(n)| - 1] == DigitsOf(n / 10);
    } else {
      assert DigitsOf(n)[..0] == [];
    }
  }

  function Negative(n: int): Option<int> {
    Some(-n)
  }

  function ReadWhole(t: string): Option<int> {
    if AreDigits(t) then Some(ValueOf(t))
    else if t != [] && t[0] == '-' && AreDigits(t[1..]) then Negative(ValueOf(t[1..]))
    else None
  }

  function PrintWhole(i: int): string {
    if i >= 0 then DigitsOf(i) else "-" + DigitsOf(-i)
  }

  lemma WholeReadsBack(i: int)
    ensures ReadWhole(PrintWhole(i)) == Some(i)
  {
    DigitsReadBack(if i >= 0 then i else -i);
    if i < 0 {
      var t := PrintWhole(i);
      assert t[1..] == DigitsOf(-i) && !IsDigit(t[0]);
    }
  }

  function ReadInt(t: string): Option<Int32> {
    var i := ReadWhole(t);
    if i.Some? && -0x8000_0000 <= i.value < 0x8000_0000 then Some(i.value) else None
  }

  // ----- decimals -----

  function TenTo(k: nat): int {
    if k == 0 then 1 else 10 * TenTo(k - 1)
  }

  lemma {:induction false} TenToPositive(k: nat)
    ensures TenTo(k) > 0
  {
    if k > 0 {
      TenToPositive(k - 1);
    }
  }

  /** Where the point is, or the end. */
  function PointAt(t: string): (p: nat)
    ensures p <= |t| && (p < |t| ==> t[p] == '.')
  {
    if t == [] || t[0] == '.' then 0 else 1 + PointAt(t[1..])
  }

  /** Digits with at most one point between them. */
  function ReadDecimal(t: string): Option<real> {
    var p := PointAt(t);
    if p == |t| then
      var whole := ReadWhole(t);
      if whole.Some? then Some(whole.value as real) else None
    else
      var fraction := t[p + 1..];
      var unscaled := ReadWhole(t[..p] + fraction);
      TenToPositive(|fraction|);
      if AreDigits(fraction) && p > 0 && IsDigit(t[p - 1]) && unscaled.Some? then
        Some(unscaled.value as real / TenTo(|fraction|) as real)
      else None
  }

  lemma {:induction false} PointAfter(whole: string, rest: string)
    requires forall i :: 0 <= i < |whole| ==> whole[i] != '.'
    ensures PointAt(whole + "." + rest) == |whole|
  {
    var t := whole + "." + rest;
    if whole != [] {
      assert t[1..] == whole[1..] + "." + rest;
      PointAfter(whole[1..], rest);
    }
  }

  lemma DecimalReads(whole: string, fraction: string, unscaled: nat, scale: int)
    requires AreDigits(whole) && AreDigits(fraction)
    requires ValueOf(whole + fraction) == unscaled && TenTo(|fraction|) == scale != 0
    ensures ReadDecimal(whole + "." + fraction) == Some(unscaled as real / scale as real)
  {
    hide ValueOf, TenTo;
    var t := whole + "." + fraction;
    PointAfter(whole, fraction);
    assert t[..|whole|] == whole && t[|whole| + 1..] == fraction;
    assert AreDigits(whole + fraction);
  }

  lemma ThreeDigits(a: char, b: char, c: char)
    requires IsDigit(a) && IsDigit(b) && IsDigit(c)
    ensures AreDigits([a]) && AreDigits([b, c]) && AreDigits([a] + [b, c])
    ensures ValueOf([a] + [b, c]) == 100 * Digit(a) + 10 * Digit(b) + Digit(c)
  {
    assert [a] + [b, c] == [a, b, c];
    assert [a, b, c][..2] == [a, b] && [a, b][..1] == [a] && [a][..0] == [];
    assert ValueOf([a]) == Digit(a);
    assert ValueOf([a, b]) == 10 * ValueOf([a]) + Digit(b);
  }

  /** Every number with two places and one digit before the point is read. */
  lemma TwoPlaces(a: char, b: char, c: char, x: real)
    requires IsDigit(a) && IsDigit(b) && IsDigit(c)
    requires x == (100 * Digit(a) + 10 * Digit(b) + Digit(c)) as real / 100.0
    ensures ReadDecimal([a] + "." + [b, c]) == Some(x)
  {
    ThreeDigits(a, b, c);
    assert TenTo(2) == 100 by {
      assert TenTo(1) == 10;
    }
    DecimalReads([a], [b, c], ValueOf([a] + [b, c]), 100);
  }

  lemma WholeIsRead(n: nat)
    ensures ReadDecimal(PrintWhole(n)) == Some(n as real)
  {
    WholeReadsBack(n);
    DigitsReadBack(n);
    NoPoint(DigitsOf(n));
  }

  lemma {:induction false} NoPoint(t: string)
    requires forall i :: 0 <= i < |t| ==> t[i] != '.'
    ensures PointAt(t) == |t|
  {
    if t != [] {
      NoPoint(t[1..]);
    }
  }

  /** Some text that reads as the number, if there is one. */
  ghost function PrintDecimal(x: real): (t: string)
    ensures (exists u :: ReadDecimal(u) == Some(x)) ==> ReadDecimal(t) == Some(x)
  {
    if u :| ReadDecimal(u) == Some(x) then u else "0"
  }

  // ----- the codec -----

  function ReadBool(t: string): Option<bool> {
    if t == "true" then Some(true) else if t == "false" then Some(false) else None
  }

  function PrintBool(b: bool): string {
    if b then "true" else "false"
  }

  ghost function Decimal(): Y.Codec {
    Y.Codec(ReadInt, ReadDecimal, ReadBool, (i: Int32) => PrintWhole(i), PrintDecimal, PrintBool, Some("null"))
  }

  /** Whatever this text reads as is printed so that it reads back. */
  lemma ReadPrints(t: string)
    requires ReadDecimal(t).Some?
    ensures Y.Prints(Decimal(), ReadDecimal(t).value)
  {
    assert exists u :: ReadDecimal(u) == Some(ReadDecimal(t).value);
  }

  lemma DefaultPrints(x: real)
    requires x in Y.DEFAULT_REALS
    ensures Y.Prints(Decimal(), x)
  {
    hide Y.Prints, ReadDecimal, PrintWhole, IsDigit;
    if x in {0.0, 3.0, 4.0, 6.0, 10.0, 100.0} {
      WholeIsRead(x.Floor);
      ReadPrints(PrintWhole(x.Floor));
    } else {
      HundredthsRead();
      var t := if x == 0.03 then "0.03" else if x == 0.05 then "0.05" else if x == 0.1 then "0.10"
               else if x == 0.3 then "0.30" else "0.60";
      ReadPrints(t);
    }
  }

  lemma HundredthsRead()
    ensures ReadDecimal("0.03") == Some(0.03) && ReadDecimal("0.05") == Some(0.05)
    ensures ReadDecimal("0.10") == Some(0.1) && ReadDecimal("0.30") == Some(0.3) && ReadDecimal("0.60") == Some(0.6)
  {
    hide ReadDecimal;
    TwoPlaces('0', '0', '3', 0.03);
    TwoPlaces('0', '0', '5', 0.05);
    TwoPlaces('0', '1', '0', 0.1);
    TwoPlaces('0', '3', '0', 0.3);
    TwoPlaces('0', '6', '0', 0.6);
    assert "0" + "." + "03" == "0.03" && "0" + "." + "05" == "0.05" && "0" + "." + "10" == "0.10";
    assert "0" + "." + "30" == "0.30" && "0" + "." + "60" == "0.60";
  }

  /** There is a lossless codec: what is said of all of them is said of this one. */
  lemma DecimalIsLossless()
    ensures Y.Lossless(Decimal())
  {
    var c := Decimal();
    hide ReadDecimal, PrintWhole, ReadWhole, Y.Prints;
    forall i: Int32 ensures c.asInt(c.printInt(i)) == Some(i) {
      WholeReadsBack(i);
    }
    forall t: string | c.asReal(t).Some? ensures Y.Prints(c, c.asReal(t).value) {
      ReadPrints(t);
    }
    forall x: real | x in Y.DEFAULT_REALS ensures Y.Prints(c, x) {
      DefaultPrints(x);
    }
  }

  // ----- documents -----

  /** A stream of defaults, with one override that repeats the default size. */
  const PLAIN := StreamConfig(
    "down", "appsink name=sink", 1280, 720, 30, 3.0, 0.0, false,
    CameraConfig(100.0, 100.0, 10.0, 10.0, "pinhole", Y.DEFAULT_COEFFS, false, 0, 0),
    DetectorConfig("apriltag_36h11", 6.0, 0.05, 100.0,
                   ArucoParams(3, 23, 10, 0.03, 4.0, 0.03, "subpix", 5, 30, 0.1, 0.6, 0.0, false)),
    TagsConfig(0.3, [TagSize(1, 0.3)], []))

  const PLAIN_UDP := UdpConfig(true, "127.0.0.1", 5602, 10.0)
  const PLAIN_LOG := LoggingConfig(5, false)

  lemma PlainPrints()
    ensures Y.StreamPrints(Decimal(), PLAIN) && Y.Prints(Decimal(), PLAIN_UDP.heartbeatHz)
  {
    hide Y.Prints, Decimal;
    forall x | x in Y.DEFAULT_REALS ensures Y.Prints(Decimal(), x) {
      DefaultPrints(x);
    }
    assert forall x :: x in {0.0, 0.03, 0.05, 0.1, 0.3, 0.6, 3.0, 4.0, 6.0, 10.0, 100.0} ==> Y.Prints(Decimal(), x);
  }

  /** Two documents that load as this stream, report no healing, and lack what their
      completed form holds: one without the override's size, one with a plain text
      for its distortion coefficients. */
  lemma UnreportedDocuments()
    ensures Y.Unreported(Decimal(), Y.OneStream(Decimal(), Y.SizelessStream(Decimal(), PLAIN, 1), PLAIN_UDP, PLAIN_LOG),
                         AppConfig([PLAIN], PLAIN_UDP, PLAIN_LOG))
    ensures Y.Unreported(Decimal(), Y.OneStream(Decimal(), Y.CoeffsStream(Decimal(), PLAIN, Y.Scalar("none")),
                                                PLAIN_UDP, PLAIN_LOG),
                         AppConfig([PLAIN], PLAIN_UDP, PLAIN_LOG))
  {
    hide Decimal, Y.Unreported, Y.StreamPrints, Y.Lossless, Y.OneStream, Y.SizelessStream, Y.CoeffsStream;
    DecimalIsLossless();
    PlainPrints();
    Y.SizeFilledUnreported(Decimal(), PLAIN, 1, PLAIN_UDP, PLAIN_LOG);
    Y.CoeffsFilledUnreported(Decimal(), PLAIN, Y.Scalar("none"), PLAIN_UDP, PLAIN_LOG);
  }

  /** Healing loses nothing of a document in plain decimals. */
  lemma DecimalHealRoundTrip(root: Y.Node, cfg: AppConfig)
    requires Y.Loads(Decimal(), root, cfg)
    ensures Y.Loads(Decimal(), Y.Emit(Decimal(), cfg), cfg) && Y.Complete(Y.Emit(Decimal(), cfg))
  {
    hide *;
    DecimalIsLossless();
    Y.HealRoundTrip(Decimal(), root, cfg);
  }
}
