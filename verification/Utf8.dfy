// UTF-8 read back by the standard's own rule, and what it says about the bytes
// that the server sends.
module Utf8 {
  import opened Text
  import opened Codec
  import opened Stream

  function Unsigned(b: byte): (u: int)
    ensures 0 <= u < 256 && (u == b as int || u == b as int + 256)
  {
    if b < 0 then b as int + 256 else b as int
  }

  // How many bytes a lead byte announces, 0 for a byte that cannot lead.
  function Announced(u: int): nat
  {
    if 0 <= u < 0x80 then 1
    else if 0xC0 <= u < 0xE0 then 2
    else if 0xE0 <= u < 0xF0 then 3
    else if 0xF0 <= u < 0xF8 then 4
    else 0
  }

  // The bits of the code point that the lead byte holds.
  function LeadBits(u: int): int
  {
    match Announced(u)
    case 1 => u
    case 2 => u - 0xC0
    case 3 => u - 0xE0
    case _ => u - 0xF0
  }

  predicate Continues(b: byte)
  {
    0x80 <= Unsigned(b) < 0xC0
  }

  // Six more bits from each continuation byte, most significant first.
  function Bits(value: int, more: seq<byte>): int
    decreases |more|
  {
    if more == [] then value else Bits(value * 0x40 + (Unsigned(more[0]) - 0x80), more[1..])
  }

  predicate IsScalar(n: int)
  {
    0 <= n < 0xD800 || 0xE000 <= n < 0x11_0000
  }

  // The first character and the number of its bytes.
  function ReadChar(bs: seq<byte>): Option<(char, nat)>
    requires bs != []
  {
    var n := Announced(Unsigned(bs[0]));
    if n == 0 || n > |bs| || exists i :: 1 <= i < n && !Continues(bs[i]) then None
    else
      var value := Bits(LeadBits(Unsigned(bs[0])), bs[1..n]);
      if IsScalar(value) then Some((value as char, n)) else None
  }

  function ReadText(bs: seq<byte>): Option<string>
    decreases |bs|
  {
    if bs == [] then Some("")
    else
      match ReadChar(bs)
      case None => None
      case Some(r) =>
        if r.1 == 0 || r.1 > |bs| then None
        else
          match ReadText(bs[r.1..])
          case None => None
          case Some(rest) => Some([r.0] + rest)
  }

  // How many bytes a code point takes: the shortest form.
  function Width(n: int): nat
  {
    if n < 0x80 then 1 else if n < 0x800 then 2 else if n < 0x1_0000 then 3 else 4
  }

  // A lead byte for that many, and continuation bytes.
  lemma CharShape(c: char)
    ensures |Utf8(c)| == Width(c as int) == Announced(Unsigned(Utf8(c)[0]))
    ensures forall i :: 1 <= i < |Utf8(c)| ==> Continues(Utf8(c)[i])
  {
  }

  lemma CharBits(c: char)
    ensures Bits(LeadBits(Unsigned(Utf8(c)[0])), Utf8(c)[1..]) == c as int
  {
    var bs, n := Utf8(c), c as int;
    if n < 0x80 {
      assert bs[1..] == [];
    } else if n < 0x800 {
      OneMore(n / 0x40, n % 0x40, bs[1..]);
    } else if n < 0x1_0000 {
      OneMore(n / 0x40, n % 0x40, bs[2..]);
      OneMore(n / 0x1000, n / 0x40 % 0x40, bs[1..]);
      SixBits(n);
      assert bs[1..][1..] == bs[2..];
    } else {
      OneMore(n / 0x40, n % 0x40, bs[3..]);
      OneMore(n / 0x1000, n / 0x40 % 0x40, bs[2..]);
      OneMore(n / 0x4_0000, n / 0x1000 % 0x40, bs[1..]);
      SixBits(n);
      assert bs[1..][1..] == bs[2..] && bs[2..][1..] == bs[3..];
    }
  }

  // One continuation byte.
  lemma OneMore(value: int, bits: int, more: seq<byte>)
    requires 0 <= bits < 0x40 && more != [] && more[0] == ToByte(0x80 + bits)
    ensures Bits(value, more) == Bits(value * 0x40 + bits, more[1..])
  {
  }

  lemma SixBits(n: nat)
    ensures n / 0x1000 * 0x40 + n / 0x40 % 0x40 == n / 0x40
    ensures n / 0x4_0000 * 0x40 + n / 0x1000 % 0x40 == n / 0x1000
    ensures n / 0x40 * 0x40 + n % 0x40 == n
  {
    assert n / 0x1000 == n / 0x40 / 0x40;
    assert n / 0x4_0000 == n / 0x1000 / 0x40;
  }

  lemma ReadsChar(c: char, rest: seq<byte>)
    ensures ReadChar(Utf8(c) + rest) == Some((c, |Utf8(c)|))
  {
    var bs := Utf8(c) + rest;
    CharShape(c);
    CharBits(c);
    assert bs[0] == Utf8(c)[0] && bs[1..|Utf8(c)|] == Utf8(c)[1..];
    assert forall i :: 1 <= i < |Utf8(c)| ==> bs[i] == Utf8(c)[i];
  }

  // Reading what was encoded gives the text back, for every text.
  lemma {:induction false} ReadsBack(s: string)
    ensures ReadText(EncodeText(s)) == Some(s)
  {
    if s != "" {
      ReadsBack(s[1..]);
      ReadsChar(s[0], EncodeText(s[1..]));
      AfterChar(s[0], s[1..]);
      assert [s[0]] + s[1..] == s;
    }
  }

  lemma AfterChar(c: char, s: string)
    requires ReadChar(Utf8(c) + EncodeText(s)) == Some((c, |Utf8(c)|)) && ReadText(EncodeText(s)) == Some(s)
    ensures ReadText(Utf8(c) + EncodeText(s)) == Some([c] + s)
  {
    assert (Utf8(c) + EncodeText(s))[|Utf8(c)|..] == EncodeText(s);
  }

  // So a frame's bytes say what its printed text says, with its NUL.
  lemma EncodedReadsBack(f: Frame, order: seq<string>)
    requires Enumerates(order, f.headers.Keys)
    ensures ReadText(Encode(f, order)) == Some(PrintText(f, order) + [NUL])
  {
    ReadsBack(Print(f, order));
  }

  // ----------------------------------------------------- bytes taken for chars

  // A byte from 0x80 on comes in as one of the characters U+FF80 to U+FFFF
  // and goes out as three bytes, the last of which tells it apart.
  lemma Echoed(b: byte)
    ensures var u, out := Unsigned(b), Utf8(ToChar(b));
      && (u < 0x80 ==> out == [b])
      && (u >= 0x80 ==> |out| == 3 && Unsigned(out[0]) == 0xEF)
      && (0x80 <= u < 0xC0 ==> Unsigned(out[1]) == 0xBE && Unsigned(out[2]) == u)
      && (0xC0 <= u ==> Unsigned(out[1]) == 0xBF && Unsigned(out[2]) == u - 0x40)
  {
    var u, n := Unsigned(b), ToChar(b) as int;
    if u >= 0x80 {
      assert n == 0xFF00 + u;
      assert n / 0x1000 == 15 && n / 0x40 == 0x3FC + u / 0x40 && n % 0x40 == u % 0x40;
    }
  }
}
