/**
 * The standard base64 encoding with padding, `base64.StdEncoding`, of section 4
 * of RFC 4648, with a decoder for it.
 */
module Base64 {
  import opened Wrappers
  import opened GoBytes

  /** The 64-character alphabet of section 4 of RFC 4648. */
  function Alphabet(i: int): (c: char)
    requires 0 <= i < 64
    ensures c != '='
  {
    if i < 26 then ('A' as int + i) as char
    else if i < 52 then ('a' as int + i - 26) as char
    else if i < 62 then ('0' as int + i - 52) as char
    else if i == 62 then '+'
    else '/'
  }

  /** The position of a character in the alphabet, if it is in it. */
  function Index(c: char): (r: Option<int>)
    ensures r.Some? ==> 0 <= r.value < 64 && Alphabet(r.value) == c
  {
    if 'A' <= c <= 'Z' then Some(c as int - 'A' as int)
    else if 'a' <= c <= 'z' then Some(c as int - 'a' as int + 26)
    else if '0' <= c <= '9' then Some(c as int - '0' as int + 52)
    else if c == '+' then Some(62)
    else if c == '/' then Some(63)
    else None
  }

  lemma IndexAlphabet(i: int)
    requires 0 <= i < 64
    ensures Index(Alphabet(i)) == Some(i)
  {
  }

  /** Three bytes as four characters of six bits each. */
  function EncodeGroup(a: byte, b: byte, c: byte): string
  {
    [Alphabet(a as int / 4), Alphabet((a as int % 4) * 16 + b as int / 16),
     Alphabet((b as int % 16) * 4 + c as int / 64), Alphabet(c as int % 64)]
  }

  /** `base64.StdEncoding.EncodeToString`: a final group of one or two bytes is padded with `=`. */
  function Encode(s: seq<byte>): (r: string)
    ensures |r| == 4 * ((|s| + 2) / 3)
  {
    if |s| == 0 then ""
    else if |s| == 1 then
      [Alphabet(s[0] as int / 4), Alphabet((s[0] as int % 4) * 16), '=', '=']
    else if |s| == 2 then
      [Alphabet(s[0] as int / 4), Alphabet((s[0] as int % 4) * 16 + s[1] as int / 16),
       Alphabet((s[1] as int % 16) * 4), '=']
    else
      EncodeGroup(s[0], s[1], s[2]) + Encode(s[3..])
  }

  /** Four alphabet characters back to three bytes. */
  function DecodeGroup(q: string): Option<seq<byte>>
    requires |q| == 4
  {
    match (Index(q[0]), Index(q[1]), Index(q[2]), Index(q[3]))
    case (Some(w), Some(x), Some(y), Some(z)) =>
      Some([(w * 4 + x / 16) as byte, ((x % 16) * 16 + y / 4) as byte, ((y % 4) * 64 + z) as byte])
    case _ => None
  }

  /** The last group, which may end in one or two padding characters. */
  function DecodeFinal(q: string): Option<seq<byte>>
    requires |q| == 4
  {
    if q[2] == '=' && q[3] == '=' then
      match (Index(q[0]), Index(q[1]))
      case (Some(w), Some(x)) => Some([(w * 4 + x / 16) as byte])
      case _ => None
    else if q[3] == '=' then
      match (Index(q[0]), Index(q[1]), Index(q[2]))
      case (Some(w), Some(x), Some(y)) => Some([(w * 4 + x / 16) as byte, ((x % 16) * 16 + y / 4) as byte])
      case _ => None
    else DecodeGroup(q)
  }

  /** Decoding of padded base64; `None` for text that is not of that form. */
  function Decode(s: string): Option<seq<byte>>
  {
    if s == [] then Some([])
    else if |s| < 4 then None
    else if |s| == 4 then DecodeFinal(s)
    else
      match (DecodeGroup(s[..4]), Decode(s[4..]))
      case (Some(g), Some(rest)) => Some(g + rest)
      case _ => None
  }

  lemma DivModUnique(k: int, r: int, n: int)
    requires 0 <= r < n
    requires n == 4 || n == 16 || n == 64
    ensures (k * n + r) / n == k && (k * n + r) % n == r
  {
  }

  /** The six-bit digits of a group recombine to the bytes they came from. */
  lemma Recombine(a: int, b: int, c: int)
    requires 0 <= a < 256 && 0 <= b < 256 && 0 <= c < 256
    ensures var x := (a % 4) * 16 + b / 16;
      a / 4 * 4 + x / 16 == a && (x % 16) * 16 + ((b % 16) * 4) / 4 == b
    ensures var y := (b % 16) * 4 + c / 64;
      (y % 4) * 64 + c % 64 == c && (b / 16) * 16 + y / 4 == b
  {
    DivModUnique(a % 4, b / 16, 16);
    DivModUnique(b % 16, c / 64, 4);
    DivModUnique(b % 16, 0, 4);
  }

  lemma GroupRoundTrip(a: byte, b: byte, c: byte)
    ensures DecodeGroup(EncodeGroup(a, b, c)) == Some([a, b, c])
  {
    var w, x := a as int / 4, (a as int % 4) * 16 + b as int / 16;
    var y, z := (b as int % 16) * 4 + c as int / 64, c as int % 64;
    IndexAlphabet(w);
    IndexAlphabet(x);
    IndexAlphabet(y);
    IndexAlphabet(z);
    Recombine(a as int, b as int, c as int);
    DivModUnique(a as int % 4, b as int / 16, 16);
    assert x % 16 == b as int / 16;
  }

  lemma RoundTripOne(a: byte)
    ensures Decode(Encode([a])) == Some([a])
  {
    IndexAlphabet(a as int / 4);
    IndexAlphabet((a as int % 4) * 16);
    Recombine(a as int, 0, 0);
  }

  lemma RoundTripTwo(a: byte, b: byte)
    ensures Decode(Encode([a, b])) == Some([a, b])
  {
    var x := (a as int % 4) * 16 + b as int / 16;
    IndexAlphabet(a as int / 4);
    IndexAlphabet(x);
    IndexAlphabet((b as int % 16) * 4);
    Recombine(a as int, b as int, 0);
    DivModUnique(a as int % 4, b as int / 16, 16);
    var e := Encode([a, b]);
    assert e[2] != '=' && e[3] == '=';
    assert DecodeFinal(e) == Some([a, b]);
  }

  /** Decoding an encoding gives back the bytes. */
  lemma {:induction false} RoundTrip(s: seq<byte>)
    ensures Decode(Encode(s)) == Some(s)
  {
    if |s| == 1 {
      RoundTripOne(s[0]);
      assert s == [s[0]];
    } else if |s| == 2 {
      RoundTripTwo(s[0], s[1]);
      assert s == [s[0], s[1]];
    } else if |s| >= 3 {
      var e := Encode(s);
      var g := EncodeGroup(s[0], s[1], s[2]);
      GroupRoundTrip(s[0], s[1], s[2]);
      assert [s[0], s[1], s[2]] + s[3..] == s;
      if |s| == 3 {
        assert Encode(s[3..]) == "";
        assert e == g;
        assert e[2] != '=' && e[3] != '=';
        assert Decode(e) == DecodeFinal(e) == DecodeGroup(e);
        assert s == [s[0], s[1], s[2]];
      } else {
        RoundTrip(s[3..]);
        assert e[..4] == g && e[4..] == Encode(s[3..]);
      }
    }
  }
}
