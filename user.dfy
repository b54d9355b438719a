/**
 * The bar owner's account (model/User.java): its fields, the password setter
 * and the lower-case hexadecimal rendering of the SHA-256 digest.
 */
module UserModel {
  import opened Wrappers
  import opened TokenModel
  import opened Records

  /** A Java `byte`: signed, -128..127. */
  type JByte = b: int | -128 <= b < 128

  /** The 32 bytes `MessageDigest.getInstance("SHA-256").digest(...)` returns. */
  type Digest = d: seq<JByte> | |d| == 32 witness seq(32, i => 0)

  /** `0xff & b`: the byte read as unsigned. */
  function Unsigned(b: JByte): (v: int)
    ensures 0 <= v < 256
    ensures v % 256 == b % 256
  {
    if b < 0 then b + 256 else b
  }

  predicate IsLowerHex(c: char) {
    '0' <= c <= '9' || 'a' <= c <= 'f'
  }

  function DigitValue(c: char): (d: int)
    requires IsLowerHex(c)
    ensures 0 <= d < 16
  {
    if c <= '9' then c as int - '0' as int else c as int - 'a' as int + 10
  }

  /** The digit of `0123456789abcdef` at position `d`. */
  function HexDigit(d: int): (c: char)
    requires 0 <= d < 16
    ensures IsLowerHex(c)
    ensures DigitValue(c) == d
  {
    if d < 10 then ('0' as int + d) as char else ('a' as int + d - 10) as char
  }

  /** `Integer.toHexString(v)` for 0 <= v < 256: lower-case digits without
      leading zeros. */
  function ToHexString(v: int): (s: string)
    requires 0 <= v < 256
    ensures |s| == if v < 16 then 1 else 2
    ensures forall i | 0 <= i < |s| :: IsLowerHex(s[i])
    ensures |s| == 1 ==> DigitValue(s[0]) == v
    ensures |s| == 2 ==> s[0] != '0' && DigitValue(s[0]) * 16 + DigitValue(s[1]) == v
  {
    if v < 16 then [HexDigit(v)] else [HexDigit(v / 16), HexDigit(v % 16)]
  }

  /** The two characters each digest byte contributes. */
  function ByteHex(b: JByte): (s: string)
    ensures |s| == 2 && IsLowerHex(s[0]) && IsLowerHex(s[1])
    ensures DigitValue(s[0]) * 16 + DigitValue(s[1]) == Unsigned(b)
  {
    var v := Unsigned(b);
    [HexDigit(v / 16), HexDigit(v % 16)]
  }

  /** The loop body of `encryptPassword`: `toHexString`, with a `'0'`
      prepended when it yields a single digit, is the two-digit form. */
  lemma PaddedHexIsByteHex(b: JByte)
    ensures (if |ToHexString(Unsigned(b))| == 1 then "0" else "") + ToHexString(Unsigned(b)) == ByteHex(b)
  {
  }

  /** The hexadecimal rendering of a byte sequence, two digits per byte. */
  function HexEncode(d: seq<JByte>): (s: string)
    ensures |s| == 2 * |d|
    ensures forall i | 0 <= i < |s| :: IsLowerHex(s[i])
  {
    if d == [] then [] else HexEncode(d[..|d| - 1]) + ByteHex(d[|d| - 1])
  }

  /** The signed byte whose unsigned reading is `v`. */
  function Signed(v: int): (b: JByte)
    requires 0 <= v < 256
    ensures Unsigned(b) == v
  {
    if v < 128 then v else v - 256
  }

  predicate IsHexText(s: string) {
    |s| % 2 == 0 && forall i | 0 <= i < |s| :: IsLowerHex(s[i])
  }

  /** Reading hexadecimal text back in pairs. */
  function HexDecode(s: string): (d: seq<JByte>)
    requires IsHexText(s)
    ensures |d| == |s| / 2
  {
    if s == [] then []
    else
      var n := |s|;
      HexDecode(s[..n - 2]) + [Signed(DigitValue(s[n - 2]) * 16 + DigitValue(s[n - 1]))]
  }

  /** Decoding undoes the encoding: every digest is recoverable from its text. */
  lemma {:induction false} HexRoundTrip(d: seq<JByte>)
    ensures IsHexText(HexEncode(d))
    ensures HexDecode(HexEncode(d)) == d
  {
    if d != [] {
      var init := d[..|d| - 1];
      HexRoundTrip(init);
      var s := HexEncode(d);
      assert s == HexEncode(init) + ByteHex(d[|d| - 1]);
      assert s[..|s| - 2] == HexEncode(init);
      var v := Unsigned(d[|d| - 1]);
      assert DigitValue(s[|s| - 2]) * 16 + DigitValue(s[|s| - 1]) == v;
      assert Signed(v) == d[|d| - 1];
    }
  }

  /** Distinct digests never share a stored password string. */
  lemma HexEncodeInjective(a: seq<JByte>, b: seq<JByte>)
    requires HexEncode(a) == HexEncode(b)
    ensures a == b
  {
    HexRoundTrip(a);
    HexRoundTrip(b);
  }

  /** What `encryptPassword` computes: the 64-character digest text. */
  function EncryptedPassword(password: string, sha256: string -> Digest): (h: string)
    ensures |h| == 64
    ensures forall i | 0 <= i < |h| :: IsLowerHex(h[i])
  {
    HexEncode(sha256(password))
  }

  class User {
    var email: string
    var bar: string
    var clientSecret: string
    var pwd: string
    var clientId: string
    var address: Option<string>
    var lat: Option<Double>
    var lng: Option<Double>
    var spotifyAccessToken: Option<string>
    var signature: string
    /** The owned confirmation token (one-to-one, cascade all, orphan removal). */
    var creationToken: Token?

    /** `new User()` followed by the plain setters that registration calls. */
    constructor (email: string, bar: string, clientId: string, clientSecret: string,
                 address: Option<string>, signature: string, creationToken: Token?)
      ensures this.email == email && this.bar == bar
      ensures this.clientId == clientId && this.clientSecret == clientSecret
      ensures this.address == address && this.signature == signature
      ensures this.creationToken == creationToken
      ensures pwd == "" && lat.None? && lng.None? && spotifyAccessToken.None?
    {
      this.email := email;
      this.bar := bar;
      this.clientId := clientId;
      this.clientSecret := clientSecret;
      this.address := address;
      this.signature := signature;
      this.creationToken := creationToken;
      pwd := "";  // Java keeps null here until setPwd; every caller sets it next
      lat, lng := None, None;
      spotifyAccessToken := None;
    }

    /** `encryptPassword`: the digest rendered byte by byte into a builder. */
    method EncryptPassword(password: string, sha256: string -> Digest) returns (h: string)
      ensures h == EncryptedPassword(password, sha256)
      ensures |h| == 64
    {
      var hash := sha256(password);
      var hexString := "";
      for i := 0 to |hash|
        invariant hexString == HexEncode(hash[..i])
      {
        var hex := ToHexString(Unsigned(hash[i]));
        if |hex| == 1 {
          hexString := hexString + "0";
        }
        hexString := hexString + hex;
        PaddedHexIsByteHex(hash[i]);
        assert hash[..i + 1][..i] == hash[..i];
      }
      assert hash[..|hash|] == hash;
      h := hexString;
    }

    /** `setPwd`: the field receives the digest text, never the plain text. */
    method SetPwd(password: string, sha256: string -> Digest)
      modifies this`pwd
      ensures pwd == EncryptedPassword(password, sha256)
    {
      pwd := EncryptPassword(password, sha256);
    }

    method SetLat(v: Option<Double>)
      modifies this`lat
      ensures lat == v
    {
      lat := v;
    }

    method SetLng(v: Option<Double>)
      modifies this`lng
      ensures lng == v
    {
      lng := v;
    }

    method SetSpotifyAccessToken(t: Option<string>)
      modifies this`spotifyAccessToken
      ensures spotifyAccessToken == t
    {
      spotifyAccessToken := t;
    }
  }
}
