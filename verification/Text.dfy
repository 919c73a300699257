// Text helpers with the semantics of the two languages involved: cutting a
// string at a separator, Java's `split` and `trim`, and C++'s `getline` and
// `isspace` trimming.
module Text {

  datatype Option<+T> = None | Some(value: T)

  datatype Result<+T, +E> = Ok(value: T) | Err(error: E)

  lemma Regroup<T>(a: seq<T>, b: seq<T>, c: seq<T>)
    ensures a + b + c == a + (b + c)
  {
  }

  // ---------------------------------------------------------------- cutting

  // The maximal separator-free pieces of `s`, in order; one more than the
  // number of separators. Together with `PiecesOfJoin`, the postconditions say
  // that `Pieces` and `Join` are inverse to each other.
  function Pieces(s: string, sep: char): (r: seq<string>)
    ensures |r| >= 1
    ensures forall i :: 0 <= i < |r| ==> sep !in r[i]
    ensures Join(r, sep) == s
  {
    if s == "" then [""]
    else
      var rest := Pieces(s[1..], sep);
      if s[0] == sep then [""] + rest
      else
        assert Join([[s[0]] + rest[0]] + rest[1..], sep) == [s[0]] + Join(rest, sep) by {
          JoinGrowHead(s[0], rest, sep);
        }
        [[s[0]] + rest[0]] + rest[1..]
  }

  function Join(ps: seq<string>, sep: char): string
    requires |ps| >= 1
  {
    if |ps| == 1 then ps[0] else ps[0] + [sep] + Join(ps[1..], sep)
  }

  lemma JoinGrowHead(c: char, ps: seq<string>, sep: char)
    requires |ps| >= 1
    ensures Join([[c] + ps[0]] + ps[1..], sep) == [c] + Join(ps, sep)
  {
    assert ([[c] + ps[0]] + ps[1..])[1..] == ps[1..];
  }

  lemma {:induction false} PiecesOfJoin(ps: seq<string>, sep: char)
    requires |ps| >= 1
    requires forall i :: 0 <= i < |ps| ==> sep !in ps[i]
    ensures Pieces(Join(ps, sep), sep) == ps
  {
    if |ps| == 1 {
      PiecesOfPiece(ps[0], sep);
      assert ps == [ps[0]];
    } else {
      PiecesOfJoin(ps[1..], sep);
      PiecesAfterPiece(ps[0], Join(ps[1..], sep), sep);
      assert ps == [ps[0]] + ps[1..];
    }
  }

  lemma {:induction false} PiecesOfPiece(p: string, sep: char)
    requires sep !in p
    ensures Pieces(p, sep) == [p]
  {
    if p != "" {
      PiecesOfPiece(p[1..], sep);
      assert [p[0]] + p[1..] == p;
    }
  }

  lemma OnePiece(s: string, sep: char)
    ensures |Pieces(s, sep)| == 1 ==> Pieces(s, sep) == [s]
    ensures |Pieces(s, sep)| == 1 <==> sep !in s
  {
    var ps := Pieces(s, sep);
    assert |ps| == 1 ==> ps[0] == s;
    if sep !in s {
      PiecesOfPiece(s, sep);
    }
  }

  lemma {:induction false} PiecesAfterPiece(p: string, s: string, sep: char)
    requires sep !in p
    ensures Pieces(p + [sep] + s, sep) == [p] + Pieces(s, sep)
  {
    var t := p + [sep] + s;
    if p == "" {
      assert t[1..] == s;
    } else {
      PiecesAfterPiece(p[1..], s, sep);
      assert t[0] == p[0] != sep && t[1..] == p[1..] + [sep] + s;
      var rest := Pieces(s, sep);
      assert [p[0]] + p[1..] == p && ([p[1..]] + rest)[1..] == rest;
    }
  }

  lemma {:induction false} JoinAppend(ps: seq<string>, qs: seq<string>, sep: char)
    requires |ps| >= 1 && |qs| >= 1
    ensures Join(ps + qs, sep) == Join(ps, sep) + [sep] + Join(qs, sep)
  {
    if |ps| == 1 {
      assert (ps + qs)[1..] == qs;
    } else {
      JoinAppend(ps[1..], qs, sep);
      assert (ps + qs)[1..] == ps[1..] + qs;
    }
  }

  // Java's String.split with limit 0: trailing empty pieces are dropped,
  // except that a text without any separator is returned as it is.
  function JavaSplit(s: string, sep: char): seq<string>
  {
    var ps := Pieces(s, sep);
    if |ps| == 1 then ps else DropTrailingEmpty(ps)
  }

  function DropTrailingEmpty(ps: seq<string>): (r: seq<string>)
    ensures r <= ps
    ensures r != [] ==> r[|r| - 1] != ""
    ensures forall i :: |r| <= i < |ps| ==> ps[i] == ""
  {
    if ps != [] && ps[|ps| - 1] == "" then DropTrailingEmpty(ps[..|ps| - 1]) else ps
  }

  lemma {:induction false} DropTrailingEmptyKeeps(ps: seq<string>, tail: seq<string>)
    requires ps != [] && ps[|ps| - 1] != ""
    requires forall i :: 0 <= i < |tail| ==> tail[i] == ""
    ensures DropTrailingEmpty(ps + tail) == ps
  {
    if tail == [] {
      assert ps + tail == ps;
    } else {
      DropTrailingEmptyKeeps(ps, tail[..|tail| - 1]);
      assert (ps + tail)[..|ps + tail| - 1] == ps + tail[..|tail| - 1];
    }
  }

  // C++: repeated std::getline over a string stream. A final piece is produced
  // only when it holds at least one character.
  function GetLines(s: string, sep: char): (r: seq<string>)
  {
    DropLastEmpty(Pieces(s, sep))
  }

  function DropLastEmpty(ps: seq<string>): seq<string>
    requires ps != []
  {
    if ps[|ps| - 1] == "" then ps[..|ps| - 1] else ps
  }

  lemma GetLinesAfter(p: string, s: string, sep: char)
    requires sep !in p
    ensures GetLines(p + [sep] + s, sep) == [p] + GetLines(s, sep)
  {
    PiecesAfterPiece(p, s, sep);
    var ps := Pieces(s, sep);
    WithoutLast(p, ps, [p] + ps);
  }

  lemma WithoutLast(p: string, ps: seq<string>, all: seq<string>)
    requires ps != [] && all == [p] + ps
    ensures DropLastEmpty(all) == [p] + DropLastEmpty(ps)
  {
    assert all[|all| - 1] == ps[|ps| - 1] && all[..|all| - 1] == [p] + ps[..|ps| - 1];
  }

  lemma GetLinesOne(s: string, sep: char)
    requires sep !in s
    ensures GetLines(s, sep) == if s == "" then [] else [s]
  {
    PiecesOfPiece(s, sep);
  }

  // Every line with a separator after it.
  function Unlines(ls: seq<string>, sep: char): string
  {
    if ls == [] then "" else ls[0] + [sep] + Unlines(ls[1..], sep)
  }

  lemma {:induction false} UnlinesIsJoin(ls: seq<string>, sep: char)
    requires ls != []
    ensures Unlines(ls, sep) == Join(ls, sep) + [sep]
  {
    if |ls| > 1 {
      UnlinesIsJoin(ls[1..], sep);
    }
  }

  lemma {:induction false} UnlinesAppend(ls: seq<string>, ms: seq<string>, sep: char)
    ensures Unlines(ls + ms, sep) == Unlines(ls, sep) + Unlines(ms, sep)
  {
    if ls == [] {
      assert ls + ms == ms;
    } else {
      UnlinesAppend(ls[1..], ms, sep);
      assert (ls + ms)[1..] == ls[1..] + ms;
    }
  }

  // Index of the first `c`, or the length when there is none.
  function Find(s: string, c: char): (k: nat)
    ensures k <= |s|
    ensures c !in s[..k]
    ensures k < |s| ==> s[k] == c
  {
    if s == "" || s[0] == c then 0
    else
      var k := Find(s[1..], c);
      assert s[..k + 1] == [s[0]] + s[1..][..k];
      k + 1
  }

  lemma FindAfter(p: string, c: char, q: string)
    requires c !in p
    ensures Find(p + [c] + q, c) == |p|
  {
    var s := p + [c] + q;
    var k := Find(s, c);
    assert s[|p|] == c && forall i :: 0 <= i < |p| ==> s[i] == p[i];
    assert forall i :: 0 <= i < k ==> s[..k][i] == s[i];
  }

  // ------------------------------------------------------------------- trim

  // Java's trim strips every character up to U+0020; the C++ client strips
  // what std::isspace accepts.
  datatype Language = Java | Cpp

  predicate Blank(l: Language, c: char)
  {
    match l
    case Java => c <= ' '
    case Cpp => c == ' ' || '\t' <= c <= '\r'
  }

  function TrimLeft(l: Language, s: string): string
  {
    if s != "" && Blank(l, s[0]) then TrimLeft(l, s[1..]) else s
  }

  function TrimRight(l: Language, s: string): string
  {
    if s != "" && Blank(l, s[|s| - 1]) then TrimRight(l, s[..|s| - 1]) else s
  }

  function Trim(l: Language, s: string): string
  {
    TrimRight(l, TrimLeft(l, s))
  }

  predicate AllBlank(l: Language, s: string)
  {
    forall i :: 0 <= i < |s| ==> Blank(l, s[i])
  }

  // No blank at either end.
  predicate Trimmed(l: Language, s: string)
  {
    s == "" || (!Blank(l, s[0]) && !Blank(l, s[|s| - 1]))
  }

  lemma {:induction false} TrimLeftSplits(l: Language, s: string) returns (k: nat)
    ensures k <= |s| && TrimLeft(l, s) == s[k..] && AllBlank(l, s[..k])
    ensures TrimLeft(l, s) == "" || !Blank(l, TrimLeft(l, s)[0])
  {
    if s != "" && Blank(l, s[0]) {
      var j := TrimLeftSplits(l, s[1..]);
      k := j + 1;
      assert s[..k] == [s[0]] + s[1..][..j];
    } else {
      k := 0;
    }
  }

  lemma {:induction false} TrimRightSplits(l: Language, s: string) returns (k: nat)
    ensures k <= |s| && TrimRight(l, s) == s[..k] && AllBlank(l, s[k..])
    ensures TrimRight(l, s) == "" || !Blank(l, TrimRight(l, s)[|TrimRight(l, s)| - 1])
  {
    if s != "" && Blank(l, s[|s| - 1]) {
      k := TrimRightSplits(l, s[..|s| - 1]);
      BlankAfter(l, s, k);
    } else {
      k := |s|;
    }
  }

  lemma BlankAfter(l: Language, s: string, k: nat)
    requires s != "" && k < |s| && Blank(l, s[|s| - 1]) && AllBlank(l, s[..|s| - 1][k..])
    ensures s[..|s| - 1][..k] == s[..k] && AllBlank(l, s[k..])
  {
    assert s[k..] == s[..|s| - 1][k..] + [s[|s| - 1]];
  }

  // Trimming cuts a blank prefix and a blank suffix, and nothing blank is
  // left at either end of the rest.
  lemma TrimSplits(l: Language, s: string) returns (i: nat, j: nat)
    ensures i <= j <= |s| && Trim(l, s) == s[i..j]
    ensures AllBlank(l, s[..i]) && AllBlank(l, s[j..])
    ensures Trimmed(l, Trim(l, s))
    ensures forall c :: c in Trim(l, s) ==> c in s
  {
    i := TrimLeftSplits(l, s);
    var k := TrimRightSplits(l, s[i..]);
    j := i + k;
    assert s[i..][..k] == s[i..j];
    assert s[i..][k..] == s[j..];
  }

  lemma TrimOfTrimmed(l: Language, s: string)
    requires Trimmed(l, s)
    ensures Trim(l, s) == s
  {
  }

  lemma {:induction false} TrimLeftBlanks(l: Language, b: string, s: string)
    requires AllBlank(l, b)
    ensures TrimLeft(l, b + s) == TrimLeft(l, s)
  {
    if b == "" {
      assert b + s == s;
    } else {
      TrimLeftBlanks(l, b[1..], s);
      assert (b + s)[1..] == b[1..] + s;
    }
  }

  lemma {:induction false} TrimRightBlanks(l: Language, s: string, b: string)
    requires AllBlank(l, b)
    ensures TrimRight(l, s + b) == TrimRight(l, s)
  {
    if b == "" {
      assert s + b == s;
    } else {
      TrimRightBlanks(l, s, b[..|b| - 1]);
      assert (s + b)[..|s + b| - 1] == s + b[..|b| - 1];
    }
  }

  // The trimmed text is the only one that `TrimSplits` describes.
  lemma TrimUnique(l: Language, pre: string, core: string, post: string)
    requires AllBlank(l, pre) && AllBlank(l, post) && Trimmed(l, core)
    ensures Trim(l, pre + core + post) == core
  {
    assert pre + core + post == pre + (core + post);
    TrimLeftBlanks(l, pre, core + post);
    if core == "" {
      assert core + post == post + "";
      TrimLeftBlanks(l, post, "");
    } else {
      TrimRightBlanks(l, core, post);
    }
  }

  lemma TrimPadded(l: Language, pre: string, s: string, post: string)
    requires AllBlank(l, pre) && AllBlank(l, post)
    ensures Trim(l, pre + s + post) == Trim(l, s)
  {
    var i, j := TrimSplits(l, s);
    assert pre + s + post == (pre + s[..i]) + Trim(l, s) + (s[j..] + post);
    TrimUnique(l, pre + s[..i], Trim(l, s), s[j..] + post);
  }

  // The code points that each language strips: up to 32 in Java; blank, tab,
  // line feed, vertical tab, form feed and carriage return in C++.
  lemma TrimStrips(c: char, s: string)
    requires s != "" && s[0] as int > 32 && s[|s| - 1] as int > 32
    ensures Trim(Java, [c] + s + [c]) == if c as int <= 32 then s else [c] + s + [c]
    ensures Trim(Cpp, [c] + s + [c]) == if c as int in {9, 10, 11, 12, 13, 32} then s else [c] + s + [c]
  {
    Stripped(Java, c, s);
    Stripped(Cpp, c, s);
  }

  lemma Stripped(l: Language, c: char, s: string)
    requires s != "" && s[0] as int > 32 && s[|s| - 1] as int > 32
    ensures Trim(l, [c] + s + [c]) == if Blank(l, c) then s else [c] + s + [c]
  {
    if Blank(l, c) {
      TrimUnique(l, [c], s, [c]);
    } else {
      TrimOfTrimmed(l, [c] + s + [c]);
    }
  }

  // ------------------------------------------------------ enumerating a set

  // `order` lists every element of `s` exactly once: one possible iteration
  // order of a hash set or hash map.
  ghost predicate Enumerates<T(!new)>(order: seq<T>, s: set<T>)
  {
    (forall x :: x in order <==> x in s) && NoRepeats(order)
  }

  predicate NoRepeats<T(==)>(order: seq<T>)
  {
    forall i, j :: 0 <= i < j < |order| ==> order[i] != order[j]
  }

  lemma {:induction false} EnumeratesLength<T(!new)>(order: seq<T>, s: set<T>)
    requires Enumerates(order, s)
    ensures |order| == |s|
  {
    if order == [] {
      assert s == {};
    } else {
      var n := |order| - 1;
      assert order == order[..n] + [order[n]];
      EnumeratesLength(order[..n], s - {order[n]});
    }
  }

  lemma {:induction false} EnumerationExists<T(!new)>(s: set<T>) returns (order: seq<T>)
    ensures Enumerates(order, s)
  {
    if s == {} {
      order := [];
    } else {
      var x :| x in s;
      var rest := EnumerationExists(s - {x});
      order := [x] + rest;
    }
  }

  // ---------------------------------------------------------------- numbers

  // A Java or C++ 32-bit int.
  const MIN_INT: int := -0x8000_0000
  const MAX_INT: int := 0x7fff_ffff

  // The value `n` has after 32-bit wrap-around.
  function Wrap32(n: int): (r: int)
    ensures MIN_INT <= r <= MAX_INT
    ensures MIN_INT <= n <= MAX_INT ==> r == n
  {
    (n + 0x8000_0000) % 0x1_0000_0000 - 0x8000_0000
  }

  lemma WrapAgain(n: int, k: int)
    ensures Wrap32(Wrap32(n) + k) == Wrap32(n + k)
  {
  }

  function Digit(d: int): (c: char)
    requires 0 <= d < 10
    ensures '0' <= c <= '9' && DigitValue(c) == d
  {
    d as char + '0'
  }

  function DigitValue(c: char): int
  {
    c as int - '0' as int
  }

  function Digits(n: nat): (s: string)
    ensures s != "" && forall i :: 0 <= i < |s| ==> '0' <= s[i] <= '9'
  {
    if n < 10 then [Digit(n)] else Digits(n / 10) + [Digit(n % 10)]
  }

  // Decimal rendering of an int, as String.valueOf and operator<< give it.
  function Decimal(n: int): string
  {
    if n < 0 then "-" + Digits(-n) else Digits(n)
  }

  function ReadDigits(s: string, acc: nat): nat
  {
    if s != "" && '0' <= s[0] <= '9' then ReadDigits(s[1..], acc * 10 + DigitValue(s[0])) else acc
  }

  // std::stoi: skips blanks, takes an optional sign and then digits; throws
  // (None) when there is no digit or the value is outside int.
  function Stoi(s: string): Option<int>
  {
    var t := TrimLeft(Cpp, s);
    var neg := t != "" && t[0] == '-';
    var d := if t != "" && (t[0] == '-' || t[0] == '+') then t[1..] else t;
    if d == "" || !('0' <= d[0] <= '9') then None
    else
      var n: int := ReadDigits(d, 0);
      var v: int := if neg then -n else n;
      if MIN_INT <= v <= MAX_INT then Some(v) else None
  }

  lemma {:induction false} ReadDigitsSnoc(s: string, c: char, acc: nat)
    requires forall i :: 0 <= i < |s| ==> '0' <= s[i] <= '9'
    requires '0' <= c <= '9'
    ensures ReadDigits(s + [c], acc) == ReadDigits(s, acc) * 10 + DigitValue(c)
  {
    if s == "" {
      assert (s + [c])[1..] == "";
    } else {
      ReadDigitsSnoc(s[1..], c, acc * 10 + DigitValue(s[0]));
      assert (s + [c])[1..] == s[1..] + [c];
    }
  }

  lemma {:induction false} ReadDigitsOfDigits(n: nat)
    ensures ReadDigits(Digits(n), 0) == n
  {
    if n < 10 {
      assert [Digit(n)][1..] == "";
    } else {
      ReadDigitsOfDigits(n / 10);
      ReadDigitsSnoc(Digits(n / 10), Digit(n % 10), 0);
    }
  }

  // Reading back a printed int, with blanks in front, gives the same int.
  lemma StoiOfDecimal(pad: string, n: int)
    requires MIN_INT <= n <= MAX_INT && AllBlank(Cpp, pad)
    ensures Stoi(pad + Decimal(n)) == Some(n)
  {
    TrimLeftBlanks(Cpp, pad, Decimal(n));
    ReadDigitsOfDigits(if n < 0 then -n else n);
    assert n < 0 ==> Decimal(n)[1..] == Digits(-n);
  }

  // The number that digits stand for, from the last one.
  function Value(digits: string): int
  {
    if digits == "" then 0 else Value(digits[..|digits| - 1]) * 10 + DigitValue(digits[|digits| - 1])
  }

  predicate AllDigits(s: string)
  {
    forall i :: 0 <= i < |s| ==> '0' <= s[i] <= '9'
  }

  lemma {:induction false} ReadDigitsUpTo(digits: string, rest: string, acc: nat)
    requires AllDigits(digits) && (rest == "" || !('0' <= rest[0] <= '9'))
    ensures ReadDigits(digits + rest, acc) == ReadDigits(digits, acc)
  {
    if digits == "" {
      assert digits + rest == rest;
    } else {
      assert (digits + rest)[1..] == digits[1..] + rest;
      ReadDigitsUpTo(digits[1..], rest, acc * 10 + DigitValue(digits[0]));
    }
  }

  lemma {:induction false} ReadDigitsIsValue(digits: string)
    requires AllDigits(digits)
    ensures ReadDigits(digits, 0) == Value(digits)
  {
    if digits != "" {
      var n := |digits| - 1;
      ReadDigitsIsValue(digits[..n]);
      ReadDigitsSnoc(digits[..n], digits[n], 0);
      assert digits[..n] + [digits[n]] == digits;
    }
  }

  // A printed int is a minus for a negative one and then the digits of its
  // size, without a zero in front.
  lemma DecimalExactly(n: int) returns (digits: string)
    ensures Decimal(n) == (if n < 0 then "-" else "") + digits
    ensures digits != "" && AllDigits(digits) && (|digits| > 1 ==> digits[0] != '0')
    ensures Value(digits) == if n < 0 then -n else n
  {
    digits := Digits(if n < 0 then -n else n);
    ReadDigitsOfDigits(if n < 0 then -n else n);
    ReadDigitsIsValue(digits);
    NoZeroInFront(if n < 0 then -n else n);
    assert n >= 0 ==> "" + digits == digits;
  }

  lemma {:induction false} NoZeroInFront(n: nat)
    ensures Digits(n)[0] == '0' ==> n == 0
    ensures |Digits(n)| > 1 ==> n >= 10
  {
    if n >= 10 {
      NoZeroInFront(n / 10);
      assert Digits(n)[0] == Digits(n / 10)[0];
    }
  }

  // `stoi` on any text that starts, after blanks, with an optional sign and
  // digits: their value if it is an int, whatever follows them.
  lemma StoiReads(pad: string, sign: string, digits: string, rest: string)
    requires AllBlank(Cpp, pad) && sign in {"", "+", "-"} && digits != "" && AllDigits(digits)
    requires rest == "" || !('0' <= rest[0] <= '9')
    ensures var n := if sign == "-" then -Value(digits) else Value(digits);
      Stoi(pad + (sign + (digits + rest))) == if MIN_INT <= n <= MAX_INT then Some(n) else None
  {
    var t := sign + (digits + rest);
    TrimLeftBlanks(Cpp, pad, t);
    ReadDigitsUpTo(digits, rest, 0);
    ReadDigitsIsValue(digits);
    assert (digits + rest)[0] == digits[0];
    SignedText(sign, digits + rest);
  }

  lemma SignedText(sign: string, d: string)
    requires sign in {"", "+", "-"} && d != "" && '0' <= d[0] <= '9'
    ensures sign + d != "" && TrimLeft(Cpp, sign + d) == sign + d
    ensures sign == "" ==> sign + d == d
    ensures sign != "" ==> (sign + d)[0] == sign[0] && (sign + d)[1..] == d
  {
  }

  // And no number on any other.
  lemma StoiFails(pad: string, sign: string, rest: string)
    requires AllBlank(Cpp, pad) && sign in {"", "+", "-"} && (rest == "" || !('0' <= rest[0] <= '9'))
    requires sign == "" && rest != "" ==> !Blank(Cpp, rest[0]) && rest[0] != '+' && rest[0] != '-'
    ensures Stoi(pad + (sign + rest)) == None
  {
    var t := sign + rest;
    TrimLeftBlanks(Cpp, pad, t);
    assert sign == "" ==> t == rest;
    assert sign != "" ==> t[0] == sign[0] && t[1..] == rest;
  }

  lemma DecimalInjective(m: int, n: int)
    requires MIN_INT <= m <= MAX_INT && MIN_INT <= n <= MAX_INT
    requires Decimal(m) == Decimal(n)
    ensures m == n
  {
    StoiOfDecimal("", m);
    StoiOfDecimal("", n);
    assert "" + Decimal(m) == Decimal(m) && "" + Decimal(n) == Decimal(n);
  }
}
