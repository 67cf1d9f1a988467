/** Modified UTF-8, as in section 4.4.7 of the Java Virtual Machine Specification, 2nd edition. */
module Utf {
  import opened Options

  type Char = x: int | 0 <= x < 0x1_0000
  type Byte = x: int | 0 <= x < 0x100

  // ---------------------------------------------------------------------------
  // The encoding, one character at a time

  function Length(c: Char): nat {
    if 0x01 <= c <= 0x7f then 1 else if c < 0x800 then 2 else 3
  }

  /** 0 takes two bytes, so that no byte of a string is 0. */
  function EncodeChar(c: Char): (r: seq<Byte>)
    ensures |r| == Length(c)
  {
    if 0x01 <= c <= 0x7f then [c]
    else if c < 0x800 then [0xc0 + c / 64, 0x80 + c % 64]
    else [0xe0 + c / 4096, 0x80 + c / 64 % 64, 0x80 + c % 64]
  }

  function Encode(s: seq<Char>): seq<Byte> {
    if s == [] then [] else EncodeChar(s[0]) + Encode(s[1..])
  }

  predicate Continues(b: Byte) {
    b / 64 == 2
  }

  /** The character at the front of the bytes, and the number of bytes it takes. */
  function DecodeChar(b: seq<Byte>): (r: Option<(Char, nat)>)
    requires b != []
    ensures r.Some? ==> 1 <= r.value.1 <= 3 && r.value.1 <= |b|
  {
    var b0: int := b[0];
    var b1: int := if |b| > 1 then b[1] else 0;
    var b2: int := if |b| > 2 then b[2] else 0;
    if b0 < 0x80 then if b0 == 0 then None else Some((b0, 1))
    else if b0 / 32 == 6 then
      if |b| < 2 || !Continues(b1) then None else Some((b0 % 32 * 64 + b1 % 64, 2))
    else if b0 / 16 == 14 then
      if |b| < 3 || !Continues(b1) || !Continues(b2) then None
      else Some((b0 % 16 * 4096 + b1 % 64 * 64 + b2 % 64, 3))
    else None
  }

  function Decode(b: seq<Byte>): Option<seq<Char>>
    decreases |b|
  {
    if b == [] then Some([])
    else match DecodeChar(b)
      case None => None
      case Some((c, n)) => match Decode(b[n..]) case None => None case Some(s) => Some([c] + s)
  }

  // ---------------------------------------------------------------------------
  // Round trips

  lemma CharRoundTrip(c: Char, rest: seq<Byte>)
    ensures EncodeChar(c) + rest != [] && DecodeChar(EncodeChar(c) + rest) == Some((c, Length(c)))
  {
    var b := EncodeChar(c) + rest;
    if c < 0x800 {
      assert c == c / 64 * 64 + c % 64;
    } else {
      assert c == c / 4096 * 4096 + c / 64 % 64 * 64 + c % 64;
    }
  }

  /** Decoding an encoding gives back the characters, whatever they are. */
  lemma {:induction false} EncodeDecode(s: seq<Char>)
    ensures Decode(Encode(s)) == Some(s)
  {
    if s != [] {
      EncodeDecode(s[1..]);
      CharRoundTrip(s[0], Encode(s[1..]));
      assert Encode(s)[Length(s[0])..] == Encode(s[1..]);
      assert [s[0]] + s[1..] == s;
    }
  }

  /** Bytes in which every character takes the fewest bytes it can. */
  predicate Shortest(b: seq<Byte>)
    decreases |b|
  {
    b == [] || match DecodeChar(b) case None => false case Some((c, n)) => n == Length(c) && Shortest(b[n..])
  }

  lemma CharAgain(b: seq<Byte>)
    requires b != [] && DecodeChar(b).Some? && DecodeChar(b).value.1 == Length(DecodeChar(b).value.0)
    ensures var (c, n) := DecodeChar(b).value; EncodeChar(c) == b[..n]
  {
    var (c, n) := DecodeChar(b).value;
    if n == 2 {
      assert c / 64 == b[0] % 32 && c % 64 == b[1] % 64;
    } else if n == 3 {
      assert c / 4096 == b[0] % 16 && c / 64 % 64 == b[1] % 64 && c % 64 == b[2] % 64;
    }
  }

  /** Encoding what was decoded gives back the bytes exactly when they were in shortest form. */
  lemma {:induction false} DecodeEncode(b: seq<Byte>)
    requires Decode(b).Some?
    ensures Encode(Decode(b).value) == b <==> Shortest(b)
    decreases |b|
  {
    if b != [] {
      var (c, n) := DecodeChar(b).value;
      var rest := Decode(b[n..]).value;
      DecodeEncode(b[n..]);
      assert Decode(b).value == [c] + rest && ([c] + rest)[1..] == rest;
      assert Encode([c] + rest) == EncodeChar(c) + Encode(rest);
      assert b == b[..n] + b[n..];
      if n == Length(c) {
        CharAgain(b);
        if Encode([c] + rest) == b {
          assert Encode(rest) == (EncodeChar(c) + Encode(rest))[n..] == b[n..];
        }
      } else {
        NotShortest(b, c, n, Encode(rest));
      }
    }
  }

  /** A character that took more bytes than it needs is encoded differently. */
  lemma NotShortest(b: seq<Byte>, c: Char, n: nat, rest: seq<Byte>)
    requires b != [] && DecodeChar(b) == Some((c, n)) && n != Length(c)
    ensures EncodeChar(c) + rest != b
  {
  }

  /** The letter A in two bytes decodes to what would take one. */
  lemma Overlong()
    ensures var b: seq<Byte> := [0xc1, 0x81]; Decode(b).Some? && Encode(Decode(b).value) != b
  {
  }

  /** No byte of an encoding is zero. */
  lemma {:induction false} NoZeroByte(s: seq<Char>)
    ensures forall i :: 0 <= i < |Encode(s)| ==> Encode(s)[i] != 0
  {
    if s != [] { NoZeroByte(s[1..]); }
  }

  // ---------------------------------------------------------------------------
  // What is decoded and encoded

  /** The bytes `g` stand for `c`: 7, 11 or 16 bits, the high ones first, behind the marks of their group. */
  predicate Represents(g: seq<Byte>, c: Char) {
    var x: int := if |g| > 0 then g[0] else 0;
    var y: int := if |g| > 1 then g[1] else 0;
    var z: int := if |g| > 2 then g[2] else 0;
    || (|g| == 1 && 1 <= c < 0x80 && x == c)
    || (|g| == 2 && 0xc0 <= x < 0xe0 && 0x80 <= y < 0xc0 && c == (x - 0xc0) * 64 + (y - 0x80))
    || (|g| == 3 && 0xe0 <= x < 0xf0 && 0x80 <= y < 0xc0 && 0x80 <= z < 0xc0 && c == (x - 0xe0) * 4096 + (y - 0x80) * 64 + (z - 0x80))
  }

  function Joined(gs: seq<seq<Byte>>): seq<Byte> {
    if gs == [] then [] else gs[0] + Joined(gs[1..])
  }

  /** The groups stand for the characters, one for each. */
  predicate AllRepresent(gs: seq<seq<Byte>>, s: seq<Char>) {
    |gs| == |s| && forall i :: 0 <= i < |s| ==> Represents(gs[i], s[i])
  }

  lemma FrontDecodes(g: seq<Byte>, c: Char, rest: seq<Byte>)
    requires Represents(g, c)
    ensures g + rest != [] && DecodeChar(g + rest) == Some((c, |g|))
  {
    var b := g + rest;
    assert b[0] == g[0];
    if |g| > 1 { assert b[1] == g[1]; }
    if |g| > 2 { assert b[2] == g[2]; }
  }

  lemma DecodesFront(b: seq<Byte>)
    requires b != [] && DecodeChar(b).Some?
    ensures var (c, n) := DecodeChar(b).value; Represents(b[..n], c)
  {
  }

  lemma {:induction false} GroupsDecode(gs: seq<seq<Byte>>, s: seq<Char>)
    requires AllRepresent(gs, s)
    ensures Decode(Joined(gs)) == Some(s)
    decreases |gs|
  {
    hide DecodeChar;
    if gs != [] {
      var rest := Joined(gs[1..]);
      GroupsDecode(gs[1..], s[1..]);
      FrontDecodes(gs[0], s[0], rest);
      assert Joined(gs)[|gs[0]|..] == rest;
      assert s == [s[0]] + s[1..];
      hide Represents;
    }
  }

  lemma {:induction false} DecodesGroups(b: seq<Byte>) returns (gs: seq<seq<Byte>>)
    requires Decode(b).Some?
    ensures Joined(gs) == b && AllRepresent(gs, Decode(b).value)
    decreases |b|
  {
    hide DecodeChar, Represents;
    gs := [];
    if b != [] {
      var (c, n) := DecodeChar(b).value;
      DecodesFront(b);
      var rest := DecodesGroups(b[n..]);
      gs := [b[..n]] + rest;
      assert gs[1..] == rest && b == b[..n] + b[n..];
    }
  }

  /** Bytes decode to `s` exactly when they are groups that stand for the characters of `s`. */
  lemma DecodeExact(b: seq<Byte>, s: seq<Char>)
    ensures Decode(b) == Some(s) <==> exists gs :: Joined(gs) == b && AllRepresent(gs, s)
  {
    hide Decode, Joined, AllRepresent;
    if Decode(b) == Some(s) {
      var gs := DecodesGroups(b);
    }
    forall gs | Joined(gs) == b && AllRepresent(gs, s)
      ensures Decode(b) == Some(s)
    {
      GroupsDecode(gs, s);
    }
  }

  lemma FrontLeast(b: seq<Byte>)
    requires b != [] && DecodeChar(b).Some?
    ensures var (c, n) := DecodeChar(b).value; Length(c) <= n && (Length(c) == n ==> EncodeChar(c) == b[..n])
  {
    if DecodeChar(b).value.1 == Length(DecodeChar(b).value.0) { CharAgain(b); }
  }

  /** Of all bytes that decode to `s`, its encoding is the shortest. */
  lemma {:induction false} EncodeLeast(b: seq<Byte>, s: seq<Char>)
    requires Decode(b) == Some(s)
    ensures |Encode(s)| <= |b| && (|Encode(s)| == |b| ==> Encode(s) == b)
    decreases |b|
  {
    hide DecodeChar, EncodeChar, Length;
    if b != [] {
      var (c, n) := DecodeChar(b).value;
      FrontLeast(b);
      EncodeLeast(b[n..], s[1..]);
      assert b == b[..n] + b[n..];
    }
  }

  // ---------------------------------------------------------------------------
  // The loops

  lemma DecodeOnce(b: seq<Byte>, i: nat)
    requires i < |b|
    ensures match DecodeChar(b[i..])
            case None => Decode(b[i..]) == None
            case Some((c, n)) =>
              i + n <= |b| && Decode(b[i..]) == match Decode(b[i + n..]) case None => None case Some(s) => Some([c] + s)
  {
  }

  /** What has been decoded, followed by what is still to come. */
  ghost function Before(done: seq<Char>, rest: Option<seq<Char>>): Option<seq<Char>> {
    match rest case None => None case Some(s) => Some(done + s)
  }

  /** Decode into the buffer, or without one only count. -1 means the bytes are not valid. */
  method UtfDecode(utf: seq<Byte>, buf: array?<Char>) returns (clen: int)
    requires buf != null ==> (if Decode(utf).Some? then |Decode(utf).value| else |utf|) <= buf.Length
    modifies buf
    ensures clen == match Decode(utf) case None => -1 case Some(s) => |s|
    ensures buf != null && Decode(utf).Some? ==> buf[..clen] == Decode(utf).value
  {
    hide Decode, DecodeChar;
    clen := 0;
    var i := 0;
    ghost var done: seq<Char> := [];
    DecodeEmpty();
    assert utf[0..] == utf;
    BeforeNothing(Decode(utf));
    while i < |utf|
      invariant 0 <= i <= |utf| && clen == |done| <= i
      invariant Decode(utf) == Before(done, Decode(utf[i..]))
      invariant buf != null ==> clen <= buf.Length && buf[..clen] == done
      decreases |utf| - i
    {
      DecodeOnce(utf, i);
      var r := DecodeChar(utf[i..]);
      if r.None? { return -1; }
      var (c, n) := r.value;
      if Decode(utf[i + n..]).Some? {
        assert done + ([c] + Decode(utf[i + n..]).value) == done + [c] + Decode(utf[i + n..]).value;
      }
      if buf != null {
        buf[clen] := c;
        assert buf[..clen + 1] == done + [c];
      }
      done := done + [c];
      clen := clen + 1;
      i := i + n;
    }
    assert utf[i..] == [] && done + [] == done;
  }

  lemma DecodeEmpty()
    ensures Decode([]) == Some([])
  {
  }

  lemma BeforeNothing(rest: Option<seq<Char>>)
    ensures Before([], rest) == rest
  {
    if rest.Some? { assert [] + rest.value == rest.value; }
  }

  lemma {:induction false} EncodeMore(s: seq<Char>, c: Char)
    ensures Encode(s + [c]) == Encode(s) + EncodeChar(c)
  {
    if s == [] {
      assert [c][1..] == [] && Encode([]) == [];
    } else {
      assert (s + [c])[1..] == s[1..] + [c];
      EncodeMore(s[1..], c);
    }
  }

  lemma {:induction false} EncodePrefix(s: seq<Char>, i: nat)
    requires i <= |s|
    ensures |Encode(s[..i])| <= |Encode(s)|
    decreases |s| - i
  {
    if i < |s| {
      EncodeMore(s[..i], s[i]);
      assert s[..i] + [s[i]] == s[..i + 1];
      EncodePrefix(s, i + 1);
    } else {
      assert s[..i] == s;
    }
  }

  /** Encode into the buffer, or without one only count the bytes. */
  method UtfEncode(chars: seq<Char>, buf: array?<Byte>) returns (blen: nat)
    requires buf != null ==> |Encode(chars)| <= buf.Length
    modifies buf
    ensures blen == |Encode(chars)|
    ensures buf != null ==> buf[..blen] == Encode(chars)
  {
    hide Encode;
    blen := 0;
    EncodeEmpty();
    assert chars[..0] == [];
    for i := 0 to |chars|
      invariant blen == |Encode(chars[..i])| <= |Encode(chars)|
      invariant buf != null ==> buf[..blen] == Encode(chars[..i])
    {
      var ch := chars[i];
      EncodeMore(chars[..i], ch);
      assert chars[..i] + [ch] == chars[..i + 1];
      EncodePrefix(chars, i + 1);
      if buf != null { PutChar(buf, blen, ch); }
      blen := blen + Length(ch);
    }
    assert chars[..|chars|] == chars;
  }

  lemma EncodeEmpty()
    ensures Encode([]) == []
  {
  }

  method PutChar(buf: array<Byte>, at: nat, ch: Char)
    requires at + Length(ch) <= buf.Length
    modifies buf
    ensures buf[..at + Length(ch)] == old(buf[..at]) + EncodeChar(ch)
  {
    if 0x01 <= ch <= 0x7f {
      buf[at] := ch;
    } else if ch < 0x800 {
      buf[at] := 0xc0 + ch / 64;
      buf[at + 1] := 0x80 + ch % 64;
    } else {
      buf[at] := 0xe0 + ch / 4096;
      buf[at + 1] := 0x80 + ch / 64 % 64;
      buf[at + 2] := 0x80 + ch % 64;
    }
    assert buf[..at] == old(buf[..at]);
    assert buf[at..at + Length(ch)] == EncodeChar(ch);
    assert buf[..at + Length(ch)] == buf[..at] + buf[at..at + Length(ch)];
  }
}
