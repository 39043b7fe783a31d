/**
 * The resource path of a DOP2 leaf (`DOP2Client._build_leaf_path`,
 * asyncmiele/dop2/client.py):
 *
 *   /Devices/{quote(device_id, safe='')}/DOP2/{unit}/{attribute}?idx1={idx1}&idx2={idx2}
 *
 * `quote` with an empty safe set is percent-encoding (RFC 3986, section 2.1) of the UTF-8
 * bytes of the id, keeping only the unreserved characters (RFC 3986, section 2.3) and
 * writing the escapes with upper-case hexadecimal digits.
 */
module LeafPath {
  import opened Wrappers
  import opened BinaryPrimitives
  import opened Text
  import opened Hex
  import Utf8

  // ---------------------------------------------------------------------------
  // Percent-encoding

  /** ALPHA / DIGIT / "-" / "." / "_" / "~". */
  predicate IsUnreservedChar(c: char) {
    'A' <= c <= 'Z' || 'a' <= c <= 'z' || '0' <= c <= '9' || c == '-' || c == '.' || c == '_' || c == '~'
  }

  predicate IsUnreservedByte(b: byte) {
    b < 0x80 && IsUnreservedChar(b as char)
  }

  /** One byte: itself when unreserved, otherwise `%` and two upper-case digits. */
  function QuoteByte(b: byte): string {
    if IsUnreservedByte(b) then [b as char]
    else ['%', HexDigit(b / 16, true), HexDigit(b % 16, true)]
  }

  /** Every character of the result is unreserved or the escape character. */
  function QuoteBytes(bs: Bytes): (r: string)
    ensures |bs| <= |r| <= 3 * |bs|
    ensures forall i | 0 <= i < |r| :: IsUnreservedChar(r[i]) || r[i] == '%'
    decreases |bs|
  {
    if bs == [] then "" else QuoteByte(bs[0]) + QuoteBytes(bs[1..])
  }

  /** `quote(s, safe='')`. */
  function Quote(s: string): (r: string)
    ensures forall i | 0 <= i < |r| :: IsUnreservedChar(r[i]) || r[i] == '%'
  {
    QuoteBytes(Utf8.Encode(s))
  }

  /**
   * Reference decoder: `%` and two digits of either case stand for a byte, any other
   * ASCII character for itself; a malformed escape or a non-ASCII character fails.
   */
  function PercentDecode(s: string): Option<Bytes>
    decreases |s|
  {
    if s == "" then Some([])
    else if s[0] == '%' then
      if |s| < 3 then None
      else
        match (HexValue(s[1]), HexValue(s[2]), PercentDecode(s[3..]))
        case (Some(h), Some(l), Some(rest)) => Some([h * 16 + l] + rest)
        case _ => None
    else if s[0] as int < 0x80 then
      match PercentDecode(s[1..])
      case Some(rest) => Some([s[0] as int] + rest)
      case None => None
    else None
  }

  /** Decoding the escaped bytes gives the bytes back. */
  lemma {:induction false} PercentDecodeQuote(bs: Bytes)
    ensures PercentDecode(QuoteBytes(bs)) == Some(bs)
    decreases |bs|
  {
    if bs != [] {
      var b := bs[0];
      var s := QuoteBytes(bs);
      PercentDecodeQuote(bs[1..]);
      if IsUnreservedByte(b) {
        assert s[0] == b as char;
        assert s[1..] == QuoteBytes(bs[1..]);
      } else {
        assert s[..3] == ['%', HexDigit(b / 16, true), HexDigit(b % 16, true)];
        assert s[3..] == QuoteBytes(bs[1..]);
        assert HexValue(s[1]) == Some(b / 16);
        assert HexValue(s[2]) == Some(b % 16);
      }
      assert [b] + bs[1..] == bs;
    }
  }

  /** `unquote(quote(s))`: the id comes back as its UTF-8 bytes. */
  lemma QuoteRoundTrip(s: string)
    ensures PercentDecode(Quote(s)) == Some(Utf8.Encode(s))
  {
    PercentDecodeQuote(Utf8.Encode(s));
  }

  /** Bytes that are all unreserved are left as they are. */
  lemma {:induction false} QuoteUnreservedBytes(bs: Bytes)
    requires forall i | 0 <= i < |bs| :: IsUnreservedByte(bs[i])
    ensures QuoteBytes(bs) == seq(|bs|, i requires 0 <= i < |bs| => bs[i] as char)
    decreases |bs|
  {
    if bs != [] {
      QuoteUnreservedBytes(bs[1..]);
    }
  }

  /** An id made of unreserved characters only (such as a 12-digit id) is not changed. */
  lemma QuoteUnreserved(s: string)
    requires forall i | 0 <= i < |s| :: IsUnreservedChar(s[i])
    ensures Quote(s) == s
  {
    Utf8.EncodeAscii(s);
    var bs := Utf8.Encode(s);
    QuoteUnreservedBytes(bs);
    assert QuoteBytes(bs) == s;
  }

  // ---------------------------------------------------------------------------
  // The leaf path and its reading back

  /** A character a leaf path may hold: unreserved, an escape, or URL punctuation. */
  predicate IsPathChar(c: char) {
    IsUnreservedChar(c) || c == '%' || c == '/' || c == '?' || c == '=' || c == '&'
  }

  predicate PathChars(s: string) {
    forall i | 0 <= i < |s| :: IsPathChar(s[i])
  }

  lemma PathCharsConcat(a: string, b: string)
    requires PathChars(a) && PathChars(b)
    ensures PathChars(a + b)
  {
  }

  /** `_build_leaf_path`: the path needs no further escaping. */
  function BuildLeafPath(deviceId: string, unit: int, attribute: int, idx1: int, idx2: int): (r: string)
    ensures PathChars(r)
  {
    var id, u, a, i1, i2 := Quote(deviceId), IntToDecimal(unit), IntToDecimal(attribute),
                            IntToDecimal(idx1), IntToDecimal(idx2);
    DecimalChars(unit);
    DecimalChars(attribute);
    DecimalChars(idx1);
    DecimalChars(idx2);
    assert PathChars("/Devices/") && PathChars("/DOP2/") && PathChars("/");
    assert PathChars("?idx1=") && PathChars("&idx2=");
    assert PathChars(id) && PathChars(u) && PathChars(a) && PathChars(i1) && PathChars(i2);
    PathCharsConcat("/Devices/", id);
    PathCharsConcat("/Devices/" + id, "/DOP2/");
    PathCharsConcat("/Devices/" + id + "/DOP2/", u);
    PathCharsConcat("/Devices/" + id + "/DOP2/" + u, "/");
    PathCharsConcat("/Devices/" + id + "/DOP2/" + u + "/", a);
    PathCharsConcat("/Devices/" + id + "/DOP2/" + u + "/" + a, "?idx1=");
    PathCharsConcat("/Devices/" + id + "/DOP2/" + u + "/" + a + "?idx1=", i1);
    PathCharsConcat("/Devices/" + id + "/DOP2/" + u + "/" + a + "?idx1=" + i1, "&idx2=");
    PathCharsConcat("/Devices/" + id + "/DOP2/" + u + "/" + a + "?idx1=" + i1 + "&idx2=", i2);
    "/Devices/" + id + "/DOP2/" + u + "/" + a + "?idx1=" + i1 + "&idx2=" + i2
  }

  /** What a server reads from a leaf path; the device id as the bytes it decodes to. */
  datatype LeafAddress = LeafAddress(deviceId: Bytes, unit: int, attribute: int, idx1: int, idx2: int)

  /** Position of the first `c` in `s`, or `|s|` when there is none. */
  function Find(s: string, c: char): (r: nat)
    ensures r <= |s|
    ensures r < |s| ==> s[r] == c
    ensures forall j | 0 <= j < r :: s[j] != c
    decreases |s|
  {
    if s == "" then 0
    else if s[0] == c then 0
    else 1 + Find(s[1..], c)
  }

  /** The text before and after the first `c`. */
  function Split(s: string, c: char): Option<(string, string)> {
    var k := Find(s, c);
    if k < |s| then Some((s[..k], s[k + 1..])) else None
  }

  function StripPrefix(s: string, prefix: string): Option<string> {
    if prefix <= s then Some(s[|prefix|..]) else None
  }

  /** Reference reader of leaf paths. */
  function ParseLeafPath(p: string): Option<LeafAddress> {
    var afterDevices :- StripPrefix(p, "/Devices/");
    var idAndRest :- Split(afterDevices, '/');
    var deviceId :- PercentDecode(idAndRest.0);
    var afterDop2 :- StripPrefix(idAndRest.1, "DOP2/");
    var numbers :- ParseLeafNumbers(afterDop2);
    Some(LeafAddress(deviceId, numbers.0, numbers.1, numbers.2, numbers.3))
  }

  /** `{unit}/{attribute}?{query}`. */
  function ParseLeafNumbers(s: string): Option<(int, int, int, int)> {
    var unitAndRest :- Split(s, '/');
    var unit :- ParseDecimal(unitAndRest.0);
    var attributeAndQuery :- Split(unitAndRest.1, '?');
    var attribute :- ParseDecimal(attributeAndQuery.0);
    var indices :- ParseQuery(attributeAndQuery.1);
    Some((unit, attribute, indices.0, indices.1))
  }

  /** `idx1={idx1}&idx2={idx2}`. */
  function ParseQuery(s: string): Option<(int, int)> {
    var afterIdx1 :- StripPrefix(s, "idx1=");
    var idx1AndRest :- Split(afterIdx1, '&');
    var idx1 :- ParseDecimal(idx1AndRest.0);
    var idx2Text :- StripPrefix(idx1AndRest.1, "idx2=");
    var idx2 :- ParseDecimal(idx2Text);
    Some((idx1, idx2))
  }

  lemma SplitJoin(a: string, c: char, b: string)
    requires forall i | 0 <= i < |a| :: a[i] != c
    ensures Split(a + ([c] + b), c) == Some((a, b))
  {
    var s := a + ([c] + b);
    assert s[|a|] == c;
    var k := Find(s, c);
    assert k == |a|;
    assert s[..k] == a;
    assert s[k + 1..] == b;
  }

  lemma StripJoin(prefix: string, rest: string)
    ensures StripPrefix(prefix + rest, prefix) == Some(rest)
  {
    assert (prefix + rest)[..|prefix|] == prefix;
    assert (prefix + rest)[|prefix|..] == rest;
  }

  /** A decimal rendering holds only digits and the sign. */
  lemma DecimalChars(i: int)
    ensures forall k | 0 <= k < |IntToDecimal(i)| :: IsDigit(IntToDecimal(i)[k]) || IntToDecimal(i)[k] == '-'
  {
    if i < 0 {
      assert IntToDecimal(i) == "-" + NatToDecimal(-i);
      forall k | 1 <= k < |IntToDecimal(i)| ensures IsDigit(IntToDecimal(i)[k]) {
        assert IntToDecimal(i)[k] == NatToDecimal(-i)[k - 1];
      }
    }
  }

  lemma Assoc(a: string, b: string, c: string)
    ensures a + b + c == a + (b + c)
  {
  }

  /** The query part of a path, nested to the right as the reader takes it apart. */
  function QueryText(idx1: int, idx2: int): string {
    "idx1=" + (IntToDecimal(idx1) + ("&" + ("idx2=" + IntToDecimal(idx2))))
  }

  /** The part after `/DOP2/`. */
  function NumbersText(unit: int, attribute: int, idx1: int, idx2: int): string {
    IntToDecimal(unit) + ("/" + (IntToDecimal(attribute) + ("?" + QueryText(idx1, idx2))))
  }

  /** The built path, regrouped field by field. */
  lemma PathShape(deviceId: string, unit: int, attribute: int, idx1: int, idx2: int)
    ensures BuildLeafPath(deviceId, unit, attribute, idx1, idx2)
      == "/Devices/" + (Quote(deviceId) + ("/" + ("DOP2/" + NumbersText(unit, attribute, idx1, idx2))))
  {
    var q, u, a, i1, i2 := Quote(deviceId), IntToDecimal(unit), IntToDecimal(attribute),
      IntToDecimal(idx1), IntToDecimal(idx2);
    var d, m, q1, q2 := "/Devices/", "/DOP2/", "?idx1=", "&idx2=";
    assert m == "/" + "DOP2/" && q1 == "?" + "idx1=" && q2 == "&" + "idx2=";
    var t1 := q2 + i2;
    Assoc(d + q + m + u + "/" + a + q1 + i1, q2, i2);
    var t2 := i1 + t1;
    Assoc(d + q + m + u + "/" + a + q1, i1, t1);
    var t3 := q1 + t2;
    Assoc(d + q + m + u + "/" + a, q1, t2);
    var t4 := a + t3;
    Assoc(d + q + m + u + "/", a, t3);
    var t5 := "/" + t4;
    Assoc(d + q + m + u, "/", t4);
    var t6 := u + t5;
    Assoc(d + q + m, u, t5);
    var t7 := m + t6;
    Assoc(d + q, m, t6);
    Assoc(d, q, t7);
    Assoc("&", "idx2=", i2);
    Assoc("?", "idx1=", t2);
    Assoc("/", "DOP2/", t6);
    assert t6 == NumbersText(unit, attribute, idx1, idx2);
  }

  lemma ParseBuiltQuery(idx1: int, idx2: int)
    ensures ParseQuery(QueryText(idx1, idx2)) == Some((idx1, idx2))
  {
    var i1, i2 := IntToDecimal(idx1), IntToDecimal(idx2);
    DecimalChars(idx1);
    var r8 := "idx2=" + i2;
    StripJoin("idx1=", i1 + ("&" + r8));
    SplitJoin(i1, '&', r8);
    StripJoin("idx2=", i2);
    IntToDecimalRoundTrip(idx1);
    IntToDecimalRoundTrip(idx2);
  }

  lemma ParseBuiltNumbers(unit: int, attribute: int, idx1: int, idx2: int)
    ensures ParseLeafNumbers(NumbersText(unit, attribute, idx1, idx2)) == Some((unit, attribute, idx1, idx2))
  {
    var u, a, query := IntToDecimal(unit), IntToDecimal(attribute), QueryText(idx1, idx2);
    DecimalChars(unit);
    DecimalChars(attribute);
    SplitJoin(u, '/', a + ("?" + query));
    SplitJoin(a, '?', query);
    IntToDecimalRoundTrip(unit);
    IntToDecimalRoundTrip(attribute);
    ParseBuiltQuery(idx1, idx2);
  }

  /**
   * Reading a built path gives back the UTF-8 bytes of the id and the four numbers: the
   * quoted id holds no `/`, and the decimals hold no `/`, `?` or `&`, so every field ends
   * at its own delimiter.
   */
  lemma ParseBuiltPath(deviceId: string, unit: int, attribute: int, idx1: int, idx2: int)
    ensures ParseLeafPath(BuildLeafPath(deviceId, unit, attribute, idx1, idx2))
      == Some(LeafAddress(Utf8.Encode(deviceId), unit, attribute, idx1, idx2))
  {
    var q := Quote(deviceId);
    var numbers := NumbersText(unit, attribute, idx1, idx2);
    PathShape(deviceId, unit, attribute, idx1, idx2);
    StripJoin("/Devices/", q + ("/" + ("DOP2/" + numbers)));
    SplitJoin(q, '/', "DOP2/" + numbers);
    QuoteRoundTrip(deviceId);
    StripJoin("DOP2/", numbers);
    ParseBuiltNumbers(unit, attribute, idx1, idx2);
  }

  /** Different leaves never share a path. */
  lemma LeafPathInjective(d1: string, u1: int, a1: int, x1: int, y1: int,
                          d2: string, u2: int, a2: int, x2: int, y2: int)
    requires BuildLeafPath(d1, u1, a1, x1, y1) == BuildLeafPath(d2, u2, a2, x2, y2)
    ensures d1 == d2
    ensures u1 == u2 && a1 == a2 && x1 == x2 && y1 == y2
  {
    ParseBuiltPath(d1, u1, a1, x1, y1);
    ParseBuiltPath(d2, u2, a2, x2, y2);
    Utf8.EncodeInjective(d1, d2);
  }

  lemma SmallDecimals()
    ensures IntToDecimal(1) == "1" && IntToDecimal(2) == "2" && IntToDecimal(256) == "256"
  {
    assert NatToDecimal(25) == NatToDecimal(2) + [DigitChar(5)];
    assert NatToDecimal(256) == NatToDecimal(25) + [DigitChar(6)];
  }

  lemma ExampleIdUnchanged()
    ensures Quote("device123") == "device123"
  {
    QuoteUnreserved("device123");
  }

  lemma ExampleText()
    ensures "/Devices/" + "device123" + "/DOP2/" + "2" + "/" + "256" + "?idx1=" + "1" + "&idx2=" + "2"
      == "/Devices/device123/DOP2/2/256?idx1=1&idx2=2"
  {
  }

  /** The path of the leaf 2/256 of device "device123" with indices 1 and 2. */
  lemma LeafPathExample()
    ensures BuildLeafPath("device123", 2, 256, 1, 2) == "/Devices/device123/DOP2/2/256?idx1=1&idx2=2"
  {
    ExampleIdUnchanged();
    SmallDecimals();
    ExampleText();
  }
}
