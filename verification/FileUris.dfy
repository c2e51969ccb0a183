/** Paths as `file://` URIs, on the bytes of UTF-8 text. */
module FileUris {
  import opened Wrappers

  newtype byte = b: int | 0 <= b < 256

  type Bytes = seq<byte>

  const PERCENT: byte := 37
  const SLASH: byte := 47
  const BACKSLASH: byte := 92
  const SCHEME: Bytes := [102, 105, 108, 101, 58, 47, 47]  // "file://"

  predicate IsDigit(b: byte) {
    48 <= b <= 57
  }

  /** Letters, digits and `/ . _ - ~ :` stand for themselves. */
  predicate Plain(b: byte) {
    65 <= b <= 90 || 97 <= b <= 122 || IsDigit(b) || b in {SLASH, 46, 95, 45, 126, 58}
  }

  /** The upper-case hexadecimal digit for a value below sixteen. */
  function Digit(n: byte): byte
    requires n < 16
  {
    if n < 10 then 48 + n else 55 + n
  }

  function HexDigit(b: byte): Option<byte> {
    if IsDigit(b) then Some(b - 48)
    else if 97 <= b <= 102 then Some(b - 97 + 10)
    else if 65 <= b <= 70 then Some(b - 65 + 10)
    else None
  }

  /** Either case of a hexadecimal digit reads as its value, and nothing else reads. */
  lemma HexDigitIff(b: byte, n: byte)
    ensures HexDigit(b) == Some(n) <==>
            n < 16 && b as int in {"0123456789abcdef"[n] as int, "0123456789ABCDEF"[n] as int}
  {
    var lower, upper := "0123456789abcdef", "0123456789ABCDEF";
    assert forall i | 0 <= i < 10 :: lower[i] as int == upper[i] as int == 48 + i;
    assert forall i | 10 <= i < 16 :: lower[i] as int == 87 + i && upper[i] as int == 55 + i;
  }

  /** Which bytes stand for themselves. */
  lemma PlainIff(b: byte)
    ensures Plain(b) <==>
            || 'A' <= b as int as char <= 'Z' || 'a' <= b as int as char <= 'z' || '0' <= b as int as char <= '9'
            || b as int as char in {'/', '.', '_', '-', '~', ':'}
  {
    assert '/' as int == 47 && '.' as int == 46 && '_' as int == 95 && '-' as int == 45;
  }

  lemma SchemeSpelled()
    ensures |SCHEME| == |"file://"| && forall i | 0 <= i < |SCHEME| :: SCHEME[i] as int == "file://"[i] as int
  {
  }

  // ---- percent-encoding ----

  function EncodeByte(b: byte): Bytes {
    if Plain(b) then [b] else [PERCENT, Digit(b / 16), Digit(b % 16)]
  }

  function Encode(path: Bytes): Bytes {
    if path == [] then [] else EncodeByte(path[0]) + Encode(path[1..])
  }

  /** The byte an escape at the front of `uri` stands for, if the bytes there are one. */
  function EscapeAt(uri: Bytes): Option<byte> {
    if |uri| >= 3 && uri[0] == PERCENT && HexDigit(uri[1]).Some? && HexDigit(uri[2]).Some? then
      Some(HexDigit(uri[1]).value * 16 + HexDigit(uri[2]).value)
    else None
  }

  function Decode(uri: Bytes): Bytes {
    if uri == [] then []
    else if EscapeAt(uri).Some? then [EscapeAt(uri).value] + Decode(uri[3..])
    else [uri[0]] + Decode(uri[1..])
  }

  method EncodeUriPath(path: Bytes) returns (out: Bytes)
    ensures out == Encode(path)
    ensures forall i | 0 <= i < |out| :: Plain(out[i]) || out[i] == PERCENT
  {
    out := [];
    for i := 0 to |path|
      invariant out + Encode(path[i..]) == Encode(path)
      invariant forall k | 0 <= k < |out| :: Plain(out[k]) || out[k] == PERCENT
    {
      out := out + EncodeByte(path[i]);
    }
  }

  lemma DecodeFrom(uri: Bytes, i: nat)
    requires i < |uri|
    ensures
      if uri[i] == PERCENT && i + 2 < |uri| && HexDigit(uri[i + 1]).Some? && HexDigit(uri[i + 2]).Some? then
        Decode(uri[i..]) == [HexDigit(uri[i + 1]).value * 16 + HexDigit(uri[i + 2]).value] + Decode(uri[i + 3..])
      else Decode(uri[i..]) == [uri[i]] + Decode(uri[i + 1..])
  {
    hide HexDigit;
    var rest := uri[i..];
    assert rest[1..] == uri[i + 1..];
    if |rest| >= 3 {
      assert rest[3..] == uri[i + 3..];
    }
  }

  lemma Regroup(out: Bytes, b: byte, tail: Bytes)
    ensures out + ([b] + tail) == out + [b] + tail
  {
  }

  method DecodeUriPercent(uri: Bytes) returns (out: Bytes)
    ensures out == Decode(uri)
  {
    out := [];
    var i := 0;
    while i < |uri|
      invariant 0 <= i <= |uri|
      invariant out + Decode(uri[i..]) == Decode(uri)
    {
      hide Decode, HexDigit;
      DecodeFrom(uri, i);
      if uri[i] == PERCENT && i + 2 < |uri| {
        var hi, lo := HexDigit(uri[i + 1]), HexDigit(uri[i + 2]);
        if hi.Some? && lo.Some? {
          Regroup(out, hi.value * 16 + lo.value, Decode(uri[i + 3..]));
          out := out + [hi.value * 16 + lo.value];
          i := i + 3;
          continue;
        }
      }
      Regroup(out, uri[i], Decode(uri[i + 1..]));
      out := out + [uri[i]];
      i := i + 1;
    }
  }

  lemma DigitReadsBack(n: byte)
    requires n < 16
    ensures HexDigit(Digit(n)) == Some(n)
  {
  }

  /** Every byte, alone or before more text, comes back. */
  lemma ByteDecodes(b: byte, rest: Bytes)
    ensures Decode(EncodeByte(b) + rest) == [b] + Decode(rest)
  {
    var uri := EncodeByte(b) + rest;
    if Plain(b) {
      assert uri[1..] == rest;
    } else {
      DigitReadsBack(b / 16);
      DigitReadsBack(b % 16);
      assert EscapeAt(uri) == Some(b) && uri[3..] == rest;
    }
  }

  lemma {:induction false} DecodeInvertsEncode(path: Bytes)
    ensures Decode(Encode(path)) == path
  {
    if path != [] {
      ByteDecodes(path[0], Encode(path[1..]));
      DecodeInvertsEncode(path[1..]);
    }
  }

  /** Any other byte becomes a percent sign and its two upper-case hexadecimal digits. */
  lemma EscapedAs(b: byte)
    requires !Plain(b)
    ensures var e := EncodeByte(b);
            && |e| == 3 && e[0] as int == '%' as int
            && e[1] as int == "0123456789ABCDEF"[b / 16] as int && e[2] as int == "0123456789ABCDEF"[b % 16] as int
  {
    DigitSpelled(b / 16);
    DigitSpelled(b % 16);
  }

  lemma DigitSpelled(n: byte)
    requires n < 16
    ensures Digit(n) as int == "0123456789ABCDEF"[n] as int
  {
    var upper := "0123456789ABCDEF";
    assert forall i | 0 <= i < 10 :: upper[i] as int == 48 + i;
    assert forall i | 10 <= i < 16 :: upper[i] as int == 55 + i;
  }

  lemma EncodeInjective(a: Bytes, b: Bytes)
    ensures Encode(a) == Encode(b) <==> a == b
  {
    DecodeInvertsEncode(a);
    DecodeInvertsEncode(b);
  }

  // ---- file URIs ----

  function Forward(path: Bytes): (r: Bytes)
    ensures |r| == |path| && forall i | 0 <= i < |path| :: r[i] == if path[i] == BACKSLASH then SLASH else path[i]
  {
    seq(|path|, i requires 0 <= i < |path| => if path[i] == BACKSLASH then SLASH else path[i])
  }

  function PathToFileUri(path: Bytes): Bytes {
    var encoded := Encode(Forward(path));
    if [SLASH] <= encoded then SCHEME + encoded else SCHEME + [SLASH] + encoded
  }

  function FileUriToPath(uri: Bytes): Bytes {
    Decode(if SCHEME <= uri then uri[|SCHEME|..] else uri)
  }

  /** What a round trip leaves of a path: forward slashes, behind a leading one. */
  function Led(path: Bytes): Bytes {
    if [SLASH] <= Forward(path) then Forward(path) else [SLASH] + Forward(path)
  }

  lemma SlashLeads(path: Bytes)
    ensures [SLASH] <= Encode(path) <==> [SLASH] <= path
    ensures Encode([SLASH] + path) == [SLASH] + Encode(path)
  {
    assert ([SLASH] + path)[1..] == path;
  }

  lemma UriIsSchemeAndPath(path: Bytes)
    ensures PathToFileUri(path) == SCHEME + Encode(Led(path))
  {
    hide Encode, Forward;
    var forward := Forward(path);
    SlashLeads(forward);
    assert SCHEME + [SLASH] + Encode(forward) == SCHEME + ([SLASH] + Encode(forward));
  }

  lemma SchemeStripped(encoded: Bytes)
    ensures FileUriToPath(SCHEME + encoded) == Decode(encoded)
  {
    hide Decode;
    assert (SCHEME + encoded)[|SCHEME|..] == encoded;
  }

  lemma UriRoundTrip(path: Bytes)
    ensures FileUriToPath(PathToFileUri(path)) == Led(path)
  {
    UriIsSchemeAndPath(path);
    SchemeStripped(Encode(Led(path)));
    DecodeInvertsEncode(Led(path));
  }

  /** The path itself comes back exactly for absolute paths without backslashes. */
  lemma UriRoundTripsIff(path: Bytes)
    ensures FileUriToPath(PathToFileUri(path)) == path <==> [SLASH] <= path && BACKSLASH !in path
  {
    UriRoundTrip(path);
    if BACKSLASH !in path {
      assert Forward(path) == path;
    } else {
      var i :| 0 <= i < |path| && path[i] == BACKSLASH;
      if [SLASH] <= Forward(path) {
        assert Forward(path)[i] != path[i];
      } else {
        assert |[SLASH] + Forward(path)| != |path|;
      }
    }
  }

  /** Two paths have the same URI exactly when a round trip leaves the same of both. */
  lemma SameUriIff(a: Bytes, b: Bytes)
    ensures PathToFileUri(a) == PathToFileUri(b) <==> Led(a) == Led(b)
  {
    UriIsSchemeAndPath(a);
    UriIsSchemeAndPath(b);
    UriRoundTrip(a);
    UriRoundTrip(b);
  }
}
