/** What strings of JSON stand for (section 7 of RFC 8259): every string that is spelled right is read as the
    bytes of its characters in UTF-8. */
module JsonUnicode {
  import opened Resources
  import opened JsonStrings
  import opened JsonScans

  // ----- UTF-8, by the ranges of its bytes

  predicate InRange(c: char, low: int, high: int) {
    low <= c as int <= high
  }

  /** The code point that some bytes are the shortest form of (table 3-7 of the Unicode standard). */
  function CodePoint(s: string): Option<nat> {
    if |s| == 1 && InRange(s[0], 0x00, 0x7F) then Some(s[0] as int)
    else if |s| == 2 && InRange(s[0], 0xC2, 0xDF) && InRange(s[1], 0x80, 0xBF) then
      Some((s[0] as int - 0xC0) * 0x40 + (s[1] as int - 0x80))
    else if |s| == 3 && InRange(s[0], 0xE0, 0xEF) && InRange(s[1], 0x80, 0xBF) && InRange(s[2], 0x80, 0xBF)
      && (s[0] as int == 0xE0 ==> s[1] as int >= 0xA0) && (s[0] as int == 0xED ==> s[1] as int <= 0x9F) then
      Some((s[0] as int - 0xE0) * 0x1000 + (s[1] as int - 0x80) * 0x40 + (s[2] as int - 0x80))
    else if |s| == 4 && InRange(s[0], 0xF0, 0xF4) && InRange(s[1], 0x80, 0xBF) && InRange(s[2], 0x80, 0xBF)
      && InRange(s[3], 0x80, 0xBF)
      && (s[0] as int == 0xF0 ==> s[1] as int >= 0x90) && (s[0] as int == 0xF4 ==> s[1] as int <= 0x8F) then
      Some((s[0] as int - 0xF0) * 0x40000 + (s[1] as int - 0x80) * 0x1000 + (s[2] as int - 0x80) * 0x40
           + (s[3] as int - 0x80))
    else None
  }

  /** Not half of a surrogate pair. */
  predicate IsScalar(n: nat) {
    n < 0xD800 || 0xDFFF < n < 0x110000
  }

  lemma CodeBytesDecode(n: nat)
    requires IsScalar(n)
    ensures CodePoint(CodeBytes(n)) == Some(n)
  {
    var s := CodeBytes(n);
    if n < 0x80 {
      assert s == [Byte(n)];
    } else if n < 0x800 {
      assert s == [Byte(0xC0 + n / 64), Byte(0x80 + n % 64)];
    } else if n < 0x10000 {
      ThreeParts(n);
      assert s == [Byte(0xE0 + n / 4096), Byte(0x80 + n / 64 % 64), Byte(0x80 + n % 64)];
    } else {
      FourParts(n);
      assert s == [Byte(0xF0 + n / 262144), Byte(0x80 + n / 4096 % 64), Byte(0x80 + n / 64 % 64), Byte(0x80 + n % 64)];
    }
  }

  lemma Halves(n: nat)
    ensures n == n / 64 * 64 + n % 64
  {
  }

  lemma ThreeParts(n: nat)
    ensures n == n / 4096 * 4096 + n / 64 % 64 * 64 + n % 64
  {
    Halves(n);
    Halves(n / 64);
    assert n / 4096 == n / 64 / 64;
  }

  lemma FourParts(n: nat)
    ensures n == n / 262144 * 262144 + n / 4096 % 64 * 4096 + n / 64 % 64 * 64 + n % 64
  {
    ThreeParts(n);
    Halves(n / 4096);
    assert n / 262144 == n / 4096 / 64;
  }

  lemma TwoDigits(a: nat, b: nat, n: nat)
    requires b < 64 && n == a * 64 + b
    ensures n / 64 == a && n % 64 == b
  {
  }

  /** A code point has one shortest form; below 0x80 that is the one character. */
  lemma OneForm(s: string, n: nat)
    requires CodePoint(s) == Some(n)
    ensures IsScalar(n) && s == CodeBytes(n) && (n < 0x80 ==> s == [n as char])
  {
    if |s| == 2 {
      TwoBytes(s, n);
    } else if |s| == 3 {
      ThreeBytes(s, n);
    } else if |s| == 4 {
      FourBytes(s, n);
    }
  }

  lemma TwoBytes(s: string, n: nat)
    requires |s| == 2 && CodePoint(s) == Some(n)
    ensures 0x80 <= n < 0x800 && s == CodeBytes(n)
  {
    OneFormOfTwo(s[0] as int - 0xC0, s[1] as int - 0x80, n);
    assert s == [Byte(0xC0 + n / 64), Byte(0x80 + n % 64)];
  }

  lemma ThreeBytes(s: string, n: nat)
    requires |s| == 3 && CodePoint(s) == Some(n)
    ensures 0x800 <= n < 0x10000 && IsScalar(n) && s == CodeBytes(n)
  {
    OneFormOfThree(s[0] as int - 0xE0, s[1] as int - 0x80, s[2] as int - 0x80, n);
    assert s == [Byte(0xE0 + n / 4096), Byte(0x80 + n / 64 % 64), Byte(0x80 + n % 64)];
  }

  lemma FourBytes(s: string, n: nat)
    requires |s| == 4 && CodePoint(s) == Some(n)
    ensures 0x10000 <= n < 0x110000 && s == CodeBytes(n)
  {
    OneFormOfFour(s[0] as int - 0xF0, s[1] as int - 0x80, s[2] as int - 0x80, s[3] as int - 0x80, n);
    assert s == [Byte(0xF0 + n / 262144), Byte(0x80 + n / 4096 % 64), Byte(0x80 + n / 64 % 64), Byte(0x80 + n % 64)];
  }

  lemma OneFormOfTwo(a: nat, b: nat, n: nat)
    requires 2 <= a < 32 && b < 64 && n == a * 64 + b
    ensures 0x80 <= n < 0x800 && n / 64 == a && n % 64 == b
  {
    TwoDigits(a, b, n);
  }

  lemma OneFormOfThree(a: nat, b: nat, c: nat, n: nat)
    requires a < 16 && b < 64 && c < 64 && n == a * 4096 + b * 64 + c
    requires (a == 0 ==> b >= 32) && (a == 13 ==> b < 32)
    ensures 0x800 <= n < 0x10000 && IsScalar(n) && n / 4096 == a && n / 64 % 64 == b && n % 64 == c
  {
    TwoDigits(a * 64 + b, c, n);
    TwoDigits(a, b, a * 64 + b);
    assert n / 4096 == n / 64 / 64;
  }

  lemma OneFormOfFour(a: nat, b: nat, c: nat, d: nat, n: nat)
    requires a < 5 && b < 64 && c < 64 && d < 64 && n == a * 262144 + b * 4096 + c * 64 + d
    requires (a == 0 ==> b >= 16) && (a == 4 ==> b < 16)
    ensures 0x10000 <= n < 0x110000
    ensures n / 262144 == a && n / 4096 % 64 == b && n / 64 % 64 == c && n % 64 == d
  {
    TwoDigits(a * 4096 + b * 64 + c, d, n);
    TwoDigits(a * 64 + b, c, a * 4096 + b * 64 + c);
    TwoDigits(a, b, a * 64 + b);
    assert n / 4096 == n / 64 / 64 && n / 262144 == n / 64 / 64 / 64;
  }

  // ----- the pieces of a string

  datatype Hex = Hex(value: nat, upper: bool)
  {
    predicate Ok() {
      value < 16
    }

    function Char(): char
      requires Ok()
    {
      if upper then "0123456789ABCDEF"[value] else "0123456789abcdef"[value]
    }
  }

  /** Four hexadecimal digits. */
  datatype Quad = Quad(a: Hex, b: Hex, c: Hex, d: Hex)
  {
    predicate Ok() {
      a.Ok() && b.Ok() && c.Ok() && d.Ok()
    }

    function Value(): nat
      requires Ok()
    {
      a.value * 0x1000 + b.value * 0x100 + c.value * 0x10 + d.value
    }

    function Digits(): string
      requires Ok()
    {
      [a.Char(), b.Char(), c.Char(), d.Char()]
    }
  }

  /** One character as it may be spelled: itself, behind a backslash, or by its code in UTF-16. The first half
      of a surrogate pair does not stand alone. */
  datatype Piece = Plain(c: char) | Short(c: char) | Unit(code: Quad) | Pair(high: Quad, low: Quad)
  {
    predicate Ok() {
      match this
      case Plain(c) => 0 < c as int < 256 && c != '\"' && c != '\\'
      case Short(c) => c in "\"\\/bfnrt"
      case Unit(code) => code.Ok() && !(0xD800 <= code.Value() < 0xDC00)
      case Pair(high, low) =>
        high.Ok() && low.Ok() && 0xD800 <= high.Value() < 0xDC00 && 0xDC00 <= low.Value() < 0xE000
    }

    function Text(): string
      requires Ok()
    {
      match this
      case Plain(c) => [c]
      case Short(c) => ['\\', c]
      case Unit(code) => "\\u" + code.Digits()
      case Pair(high, low) => "\\u" + high.Digits() + "\\u" + low.Digits()
    }

    /** These bytes are what it stands for. The code reads zero and the second half of a surrogate pair on its
        own as nothing, and of a pair whose first half has bit 6 set it makes a code point too small by 0x10000. */
    predicate Says(bytes: string)
      requires Ok()
    {
      match this
      case Plain(c) => bytes == [c]
      case Short(c) =>
        bytes == (if c == 'b' then [8 as char] else if c == 'f' then [12 as char] else if c == 'n' then [10 as char]
                  else if c == 'r' then [13 as char] else if c == 't' then [9 as char] else [c])
      case Unit(code) =>
        if code.Value() == 0 || 0xDC00 <= code.Value() < 0xE000 then bytes == ""
        else CodePoint(bytes) == Some(code.Value())
      case Pair(high, low) =>
        var n := 0x10000 + (high.Value() - 0xD800) * 0x400 + (low.Value() - 0xDC00);
        CodePoint(bytes) == Some(if high.Value() / 64 % 2 == 0 then n else n - 0x10000)
    }
  }
  // ----- reading one piece

  lemma HexReads(h: Hex)
    requires h.Ok()
    ensures HexValue(h.Char()) == Some(h.value) && Ordinary(h.Char()) && h.Char() != 'x' && h.Char() != 'X'
  {
    var v := h.value;
    if h.upper {
      assert "0123456789ABCDEF"[v] == if v < 10 then ('0' as int + v) as char else ('A' as int + v - 10) as char;
    } else {
      assert "0123456789abcdef"[v] == if v < 10 then ('0' as int + v) as char else ('a' as int + v - 10) as char;
    }
  }

  /** Four digits are read as the number they denote. */
  lemma QuadScans(q: Quad, s: string, stale: Memory)
    requires q.Ok() && |s| >= 4 && s[..4] == q.Digits()
    ensures Scanned(s, stale) == q.Value() && forall i | 0 <= i < 4 :: Ordinary(s[i])
  {
    HexReads(q.a);
    HexReads(q.b);
    HexReads(q.c);
    HexReads(q.d);
    assert s[0] == s[..4][0] && s[1] == s[..4][1] && s[2] == s[..4][2] && s[3] == s[..4][3];
    RunOfFour(s, q.a.value, q.b.value, q.c.value, q.d.value);
  }

  lemma RunOfFour(s: string, a: nat, b: nat, c: nat, d: nat)
    requires |s| >= 4 && HexValue(s[0]) == Some(a) && HexValue(s[1]) == Some(b)
    requires HexValue(s[2]) == Some(c) && HexValue(s[3]) == Some(d)
    ensures HexRun(s, 4, 0) == a * 0x1000 + b * 0x100 + c * 0x10 + d
  {
    assert s[1..][1..] == s[2..] && s[2..][1..] == s[3..];
    assert HexRun(s[3..], 1, a * 0x100 + b * 0x10 + c) == a * 0x1000 + b * 0x100 + c * 0x10 + d;
    assert HexRun(s[2..], 2, a * 0x10 + b) == HexRun(s[3..], 1, a * 0x100 + b * 0x10 + c);
    assert HexRun(s[1..], 3, a) == HexRun(s[2..], 2, a * 0x10 + b);
  }

  /** What reading one piece comes to: its bytes, and the text behind it, with the first pass in step. */
  ghost predicate Reads(p: Piece, t: string, more: string, bytes: string, stale: Memory)
    requires p.Ok()
  {
    var n := |p.Text()|;
    && t != "" && t[0] != '\"' && n <= |t| && t[n..] == more
    && p.Says(bytes) && Decoded(t, stale) == (bytes, n) && Pass(t, n, false) == Some(false)
    && Narrow(t, stale)
  }

  lemma PlainReads(p: Piece, t: string, more: string, stale: Memory)
    requires p.Ok() && p.Plain? && t == p.Text() + more
    ensures Reads(p, t, more, [p.c], stale)
  {
    assert Pass(t, 1, false) == Pass(t[1..], 0, false);
  }

  lemma ShortReads(p: Piece, t: string, more: string, stale: Memory)
    requires p.Ok() && p.Short? && t == p.Text() + more
    ensures Reads(p, t, more, [Meaning(p.c)], stale)
  {
    assert Pass(t, 2, false) == Pass(t[1..], 1, true) == Pass(t[1..][1..], 0, false);
  }

  function UnitBytes(n: nat): string
    requires n < 0x10000
  {
    if n == 0 || 0xDC00 <= n < 0xE000 then "" else CodeBytes(n)
  }

  lemma UnitReads(p: Piece, t: string, more: string, stale: Memory)
    requires p.Ok() && p.Unit? && t == p.Text() + more
    ensures Reads(p, t, more, UnitBytes(p.code.Value()), stale)
  {
    assert t[2..][..4] == p.code.Digits();
    QuadScans(p.code, t[2..], stale);
    if UnitBytes(p.code.Value()) != "" {
      CodeBytesDecode(p.code.Value());
    }
    assert forall i | 2 <= i < 6 :: t[i] == t[2..][i - 2];
    EscapePasses(t);
  }

  lemma PairReads(p: Piece, t: string, more: string, stale: Memory)
    requires p.Ok() && p.Pair? && t == p.Text() + more
    ensures Reads(p, t, more, CodeBytes(JoinSurrogates(p.high.Value(), p.low.Value())), stale)
  {
    PairText(p, t, more);
    PairScans(p.high, p.low, t, t[2..], t[8..], stale);
    PairSays(p, CodeBytes(JoinSurrogates(p.high.Value(), p.low.Value())));
    PairIsRead(p, t, more, CodeBytes(JoinSurrogates(p.high.Value(), p.low.Value())), stale);
  }

  lemma PairSays(p: Piece, bytes: string)
    requires p.Ok() && p.Pair? && bytes == CodeBytes(JoinSurrogates(p.high.Value(), p.low.Value()))
    ensures p.Says(bytes)
  {
    PairMeans(p.high.Value(), p.low.Value());
  }

  lemma PairIsRead(p: Piece, t: string, more: string, bytes: string, stale: Memory)
    requires p.Ok() && p.Pair? && p.Says(bytes) && |p.Text()| == 12 <= |t| && t[12..] == more && t[0] == '\\'
    requires Decoded(t, stale) == (bytes, 12) && Pass(t, 12, false) == Some(false)
    ensures Reads(p, t, more, bytes, stale)
  {
  }

  lemma PairScans(high: Quad, low: Quad, t: string, first: string, second: string, stale: Memory)
    requires high.Ok() && low.Ok() && 0xD800 <= high.Value() < 0xDC00 && 0xDC00 <= low.Value() < 0xE000
    requires |t| >= 12 && t[0] == t[6] == '\\' && t[1] == t[7] == 'u'
    requires first == t[2..] && second == t[8..] == first[6..]
    requires first[..4] == high.Digits() && second[..4] == low.Digits()
    ensures Decoded(t, stale) == (CodeBytes(JoinSurrogates(high.Value(), low.Value())), 12)
    ensures Pass(t, 12, false) == Some(false)
  {
    QuadScans(high, first, stale);
    QuadScans(low, second, stale);
    PairPasses(t, first, second);
    PairDecodes(t, first, high.Value(), low.Value(), stale);
  }

  lemma PairText(p: Piece, t: string, more: string)
    requires p.Ok() && p.Pair? && t == p.Text() + more
    ensures |p.Text()| == 12 <= |t| && t[12..] == more && t[0] == t[6] == '\\' && t[1] == t[7] == 'u'
    ensures t[2..][..4] == p.high.Digits() && t[8..][..4] == p.low.Digits() && t[2..][6..] == t[8..]
  {
    TwoEscapes(p.high.Digits(), p.low.Digits(), more, t);
  }

  lemma TwoEscapes(high: string, low: string, more: string, t: string)
    requires |high| == 4 && |low| == 4 && t == "\\u" + high + "\\u" + low + more
    ensures |t| >= 12 && t[12..] == more && t[0] == t[6] == '\\' && t[1] == t[7] == 'u'
    ensures t[2..][..4] == high && t[8..][..4] == low && t[2..][6..] == t[8..]
  {
    assert t[2..][..4] == high && t[8..][..4] == low;
  }

  lemma PairDecodes(t: string, first: string, high: nat, low: nat, stale: Memory)
    requires |t| >= 12 && t[0] == '\\' && t[1] == 'u' && first == t[2..] && first[4] == '\\' && first[5] == 'u'
    requires 0xD800 <= high < 0xDC00 && 0xDC00 <= low < 0xE000
    requires Scanned(first, stale) == high && Scanned(first[6..], stale) == low
    ensures Decoded(t, stale) == (CodeBytes(JoinSurrogates(high, low)), 12)
  {
  }

  lemma PairPasses(t: string, first: string, second: string)
    requires |t| >= 12 && t[0] == t[6] == '\\' && first == t[2..] && second == t[8..]
    requires forall i | 0 <= i < 4 :: Ordinary(first[i]) && Ordinary(second[i])
    ensures Pass(t, 12, false) == Some(false)
  {
    var rest := t[6..];
    assert forall i | 2 <= i < 6 :: t[i] == first[i - 2] && rest[i] == second[i - 2];
    EscapePasses(t);
    EscapePasses(rest);
    PassSplit(t, 6, 6, false);
  }

  lemma PairMeans(high: nat, low: nat)
    requires 0xD800 <= high < 0xDC00 && 0xDC00 <= low < 0xE000
    ensures var n := 0x10000 + (high - 0xD800) * 0x400 + (low - 0xDC00);
      CodePoint(CodeBytes(JoinSurrogates(high, low))) == Some(if high / 64 % 2 == 0 then n else n - 0x10000)
  {
    SurrogatesJoinRight(high, low);
    CodeBytesDecode(JoinSurrogates(high, low));
  }

  lemma PieceReads(p: Piece, t: string, more: string, stale: Memory) returns (bytes: string)
    requires p.Ok() && t == p.Text() + more
    ensures Reads(p, t, more, bytes, stale)
  {
    match p
    case Plain(c) => PlainReads(p, t, more, stale); bytes := [c];
    case Short(c) => ShortReads(p, t, more, stale); bytes := [Meaning(c)];
    case Unit(code) => UnitReads(p, t, more, stale); bytes := UnitBytes(code.Value());
    case Pair(high, low) =>
      PairReads(p, t, more, stale);
      bytes := CodeBytes(JoinSurrogates(high.Value(), low.Value()));
  }

  // ----- reading a string

  predicate AllOk(ps: seq<Piece>) {
    forall i | 0 <= i < |ps| :: ps[i].Ok()
  }

  function Spelled(ps: seq<Piece>): string
    requires AllOk(ps)
  {
    if ps == [] then "" else ps[0].Text() + Spelled(ps[1..])
  }

  /** The parts put together are what the pieces stand for, one after the other. */
  ghost predicate Means(ps: seq<Piece>, value: string)
    requires AllOk(ps)
  {
    if ps == [] then value == ""
    else exists n | 0 <= n <= |value| :: ps[0].Says(value[..n]) && Means(ps[1..], value[n..])
  }

  lemma MeansMore(ps: seq<Piece>, bytes: string, tail: string)
    requires AllOk(ps) && ps != [] && ps[0].Says(bytes) && Means(ps[1..], tail)
    ensures Means(ps, bytes + tail)
  {
    var value := bytes + tail;
    assert value[..|bytes|] == bytes && value[|bytes|..] == tail;
  }

  lemma SpelledFirst(ps: seq<Piece>, rest: string, t: string, more: string)
    requires AllOk(ps) && ps != [] && t == Spelled(ps) + "\"" + rest && more == Spelled(ps[1..]) + "\"" + rest
    ensures t == ps[0].Text() + more
  {
  }

  lemma PieceEnds(p: Piece, t: string, more: string, bytes: string, stale: Memory)
    requires p.Ok() && Reads(p, t, more, bytes, stale) && !Dangles(more, false)
    ensures !Dangles(t, false)
  {
    PassDangles(t, |p.Text()|, false);
  }

  lemma {:induction false} SpelledEnds(ps: seq<Piece>, rest: string, t: string, stale: Memory)
    requires AllOk(ps) && t == Spelled(ps) + "\"" + rest
    ensures !Dangles(t, false)
  {
    if ps != [] {
      var more := Spelled(ps[1..]) + "\"" + rest;
      SpelledFirst(ps, rest, t, more);
      var bytes := PieceReads(ps[0], t, more, stale);
      SpelledEnds(ps[1..], rest, more, stale);
      PieceEnds(ps[0], t, more, bytes, stale);
    }
  }

  lemma PieceFits(p: Piece, t: string, more: string, bytes: string, stale: Memory)
    requires p.Ok() && Reads(p, t, more, bytes, stale)
    ensures |bytes| + Counted(more, false) <= Counted(t, false)
  {
    DecodedFits(t, false, stale);
  }

  lemma PieceFills(p: Piece, t: string, more: string, bytes: string, tail: string, rest: string, cells: nat,
                   stale: Memory)
    requires p.Ok() && Reads(p, t, more, bytes, stale) && |bytes| <= cells
    requires Fill(more, cells - |bytes|, stale) == Got(tail, rest)
    ensures Fill(t, cells, stale) == Got(bytes + tail, rest)
  {
    FillsOne(t, |p.Text()|, more, bytes, tail, rest, cells, stale);
  }

  lemma FillsOne(t: string, n: nat, more: string, bytes: string, tail: string, rest: string, cells: nat, stale: Memory)
    requires t != "" && t[0] != '\"' && n <= |t| && t[n..] == more && Decoded(t, stale) == (bytes, n)
    requires |bytes| <= cells && Fill(more, cells - |bytes|, stale) == Got(tail, rest)
    ensures Fill(t, cells, stale) == Got(bytes + tail, rest)
  {
    assert Fill(t, cells, stale) == Before(bytes, Fill(more, cells - |bytes|, stale));
  }

  lemma {:induction false} SpelledFills(ps: seq<Piece>, rest: string, t: string, cells: nat, stale: Memory)
    returns (value: string)
    requires AllOk(ps) && t == Spelled(ps) + "\"" + rest && Counted(t, false) < cells
    ensures Fill(t, cells, stale) == Got(value, rest) && Means(ps, value)
  {
    if ps == [] {
      value := "";
      FillEnds(rest, t, cells, stale);
    } else {
      var more := Spelled(ps[1..]) + "\"" + rest;
      SpelledFirst(ps, rest, t, more);
      var bytes := PieceReads(ps[0], t, more, stale);
      PieceFits(ps[0], t, more, bytes, stale);
      var tail := SpelledFills(ps[1..], rest, more, cells - |bytes|, stale);
      PieceFills(ps[0], t, more, bytes, tail, rest, cells, stale);
      MeansMore(ps, bytes, tail);
      value := bytes + tail;
    }
  }

  lemma SpelledReads(ps: seq<Piece>, rest: string, t: string, stale: Memory) returns (value: string)
    requires AllOk(ps) && t == Spelled(ps) + "\"" + rest
    ensures ReadText(t, stale) == Got(value, rest) && Means(ps, value)
  {
    SpelledEnds(ps, rest, t, stale);
    value := SpelledFills(ps, rest, t, Counted(t, false) + 1, stale);
  }

  lemma Opened(inner: string, rest: string)
    ensures var quoted := "\"" + inner + "\"" + rest; quoted[0] == '\"' && quoted[1..] == inner + "\"" + rest
  {
  }

  /** However a string is spelled, in whatever text and whatever lies in memory: it is read whole, and its value
      is what its pieces stand for. */
  lemma StringReads(ps: seq<Piece>, rest: string, stale: Memory) returns (value: string)
    requires AllOk(ps)
    ensures ParseText("\"" + Spelled(ps) + "\"" + rest, stale) == Got(value, rest) && Means(ps, value)
  {
    var inner := Spelled(ps);
    var t := inner + "\"" + rest;
    Opened(inner, rest);
    value := SpelledReads(ps, rest, t, stale);
    QuotedOpens("\"" + inner + "\"" + rest, t, stale);
  }
}
