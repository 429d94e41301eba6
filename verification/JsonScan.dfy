/** JSON strings as they are read, in two passes: the first counts the bytes of a buffer, the second fills
    it. Where the two fall out of step, the second pass may run over the buffer or out of the text. */
module JsonScans {
  import opened Resources
  import opened JsonStrings

  /** Why reading stops: at a fault in the text, or because the code leaves the text or the buffer. What it
      does after leaving them is not defined. */
  datatype Why = Syntax | Outside | Overrun

  /** A value and what follows it in the text, as a string or as a position. */
  datatype Outcome<T, R> = Got(value: T, rest: R) | Stopped(why: Why)

  /** What a variable holds at each place of a text where no number is read into it. */
  type Memory = string -> nat

  // ----- numbers in escapes

  function HexValue(c: char): Option<nat> {
    if '0' <= c <= '9' then Some(c as int - '0' as int)
    else if 'a' <= c <= 'f' then Some(c as int - 'a' as int + 10)
    else if 'A' <= c <= 'F' then Some(c as int - 'A' as int + 10)
    else None
  }

  const TWO_TO_THE_32 := 0x1_0000_0000

  /** Below this a value leaves room for so many more hexadecimal digits in 16 bits. */
  function Headroom(n: nat): nat {
    if n == 0 then 0x10000 else if n == 1 then 0x1000 else if n == 2 then 0x100 else if n == 3 then 0x10 else 1
  }

  /** Reads at most `n` hexadecimal digits on from a value. */
  function HexRun(s: string, n: nat, value: nat): (r: nat)
    ensures n <= 4 && value < Headroom(n) ==> r < 0x10000
  {
    if n > 0 && s != "" && HexValue(s[0]).Some? then HexRun(s[1..], n - 1, value * 16 + HexValue(s[0]).value) else value
  }

  predicate HasPrefix(s: string) {
    |s| >= 2 && s[0] == '0' && (s[1] == 'x' || s[1] == 'X')
  }

  /** A hexadecimal number stands at the start of the text, perhaps behind the prefix of one. */
  predicate Scans(s: string) {
    if HasPrefix(s) then |s| > 2 && HexValue(s[2]).Some? else s != "" && HexValue(s[0]).Some?
  }

  /** The number in a field of four characters. Where no number stands, the variable keeps what it holds,
      which may be anything; so may what a sign or white space leads to. */
  function Scanned(s: string, stale: Memory): (uc: nat)
    ensures uc < TWO_TO_THE_32
    ensures Scans(s) ==> uc < 0x10000
  {
    if !Scans(s) then stale(s) % TWO_TO_THE_32
    else if HasPrefix(s) then HexRun(s[2..], 2, 0)
    else HexRun(s, 4, 0)
  }

  // ----- what escapes stand for

  /** A code point in UTF-8 (table 3-6 of the Unicode standard). */
  function Utf8(uc: nat): (s: string)
    requires uc < 0x110000
    ensures 1 <= |s| <= 4
  {
    if uc < 0x80 then [Byte(uc)]
    else if uc < 0x800 then [Byte(0xC0 + uc / 64), Byte(0x80 + uc % 64)]
    else if uc < 0x10000 then [Byte(0xE0 + uc / 4096), Byte(0x80 + uc / 64 % 64), Byte(0x80 + uc % 64)]
    else [Byte(0xF0 + uc / 262144), Byte(0x80 + uc / 4096 % 64), Byte(0x80 + uc / 64 % 64), Byte(0x80 + uc % 64)]
  }

  /** Two halves of a surrogate pair, joined as the code does: by setting bit 16. */
  function JoinSurrogates(high: nat, low: nat): (uc: nat)
    requires 0xD800 <= high < 0xDC00 && 0xDC00 <= low < 0xE000
    ensures uc < 0x110000
  {
    var bits := (high - 0xD800) * 1024 + (low - 0xDC00);
    if bits / 0x10000 % 2 == 1 then bits else bits + 0x10000
  }

  /** UTF-16 adds 0x10000 instead (section 2.1 of RFC 2781), so the pair is read right exactly if the
      bit is not set already. */
  lemma SurrogatesJoinRight(high: nat, low: nat)
    requires 0xD800 <= high < 0xDC00 && 0xDC00 <= low < 0xE000
    ensures JoinSurrogates(high, low) == 0x10000 + (high - 0xD800) * 1024 + (low - 0xDC00) <==> high / 64 % 2 == 0
  {
    var bits := (high - 0xD800) * 1024 + (low - 0xDC00);
    assert bits / 0x10000 == (high - 0xD800) / 64;
  }

  /** The bytes the code writes for a value: UTF-8 for a code point, else four bytes. */
  function CodeBytes(uc: nat): (s: string)
    requires uc < TWO_TO_THE_32
    ensures 1 <= |s| <= 4 && (uc < 0x10000 ==> |s| <= 3)
    ensures uc < 0x110000 ==> s == Utf8(uc)
  {
    if uc < 0x10000 then Utf8(uc)
    else [Byte(0xF0 + uc / 262144 % 16), Byte(0x80 + uc / 4096 % 64), Byte(0x80 + uc / 64 % 64), Byte(0x80 + uc % 64)]
  }

  /** What an escape that starts with `u` stands for, and how long the code takes it to be, from its first
      digit. It skips four characters whatever they are. A half pair stands for nothing. */
  function UnicodeEscape(s: string, stale: Memory): (r: (string, nat))
    ensures |r.0| <= 4 && (r.1 == 4 || r.1 == 10)
    ensures r.1 == 4 && Scanned(s, stale) < 0x10000 ==> |r.0| <= 3
  {
    var uc := Scanned(s, stale);
    if 0xDC00 <= uc <= 0xDFFF || uc == 0 then ("", 4)
    else if !(0xD800 <= uc <= 0xDBFF) then (CodeBytes(uc), 4)
    else if At(s, 4) != '\\' || At(s, 5) != 'u' then ("", 4)
    else
      var uc2 := Scanned(s[6..], stale);
      if uc2 < 0xDC00 || uc2 > 0xDFFF then ("", 10) else (CodeBytes(JoinSurrogates(uc, uc2)), 10)
  }

  /** What a plain escape stands for: a letter of its own, or itself. */
  function Meaning(c: char): char {
    match c
    case 'b' => Byte(8)
    case 'f' => Byte(12)
    case 'n' => '\n'
    case 'r' => '\r'
    case 't' => '\t'
    case _ => c
  }

  /** The first character of a text, decoded, and how far the code moves on, perhaps out of the text. */
  function Decoded(s: string, stale: Memory): (r: (string, nat))
    requires s != ""
    ensures 1 <= r.1 && |r.0| <= 4
  {
    if s[0] != '\\' then ([s[0]], 1)
    else if At(s, 1) != 'u' then ([Meaning(At(s, 1))], 2)
    else var (bytes, n) := UnicodeEscape(s[2..], stale); (bytes, n + 2)
  }

  // ----- the two passes

  /** What the first pass counts: a backslash hides the character behind it. */
  function Counted(s: string, hidden: bool): nat {
    if s == "" then 0
    else if hidden then Counted(s[1..], false)
    else if s[0] == '\"' then 0
    else 1 + Counted(s[1..], s[0] == '\\')
  }

  /** The first pass skips the end of the text, which a backslash hides. */
  predicate Dangles(s: string, hidden: bool) {
    if s == "" then hidden
    else if hidden then Dangles(s[1..], false)
    else s[0] != '\"' && Dangles(s[1..], s[0] == '\\')
  }

  function Before(bytes: string, r: Outcome<string, string>): Outcome<string, string> {
    match r
    case Got(more, rest) => Got(bytes + more, rest)
    case Stopped(_) => r
  }

  /** What the second pass makes of a text, with so many cells left in the buffer: it decodes up to the
      next quote it meets, or to the end of the text, and puts a zero behind. */
  function Fill(s: string, cells: nat, stale: Memory): (r: Outcome<string, string>)
    ensures r.Got? ==> |r.value| < cells && |r.rest| <= |s|
    ensures r.Stopped? ==> !r.why.Syntax?
    decreases |s|
  {
    if s == "" || s[0] == '\"' then
      if cells == 0 then Stopped(Overrun) else Got("", if s == "" then "" else s[1..])
    else
      var (bytes, n) := Decoded(s, stale);
      if |bytes| > cells then Stopped(Overrun)
      else if n > |s| then Stopped(Outside)
      else Before(bytes, Fill(s[n..], cells - |bytes|, stale))
  }

  /** Reads a string behind its first quote. */
  function ReadText(s: string, stale: Memory): (r: Outcome<string, string>)
    ensures r.Got? ==> |r.rest| <= |s|
  {
    if Dangles(s, false) then Stopped(Outside) else Fill(s, Counted(s, false) + 1, stale)
  }

  /** Reads a string; the result is its value and the rest of the text. */
  function ParseText(s: string, stale: Memory): (r: Outcome<string, string>)
    ensures r.Got? ==> |r.rest| < |s|
  {
    if s == "" || s[0] != '\"' then Stopped(Syntax) else ReadText(s[1..], stale)
  }

  // ----- when the second pass stays in the buffer

  function Bit(b: bool): nat {
    if b then 1 else 0
  }

  /** Whether the first pass, having read `n` more characters without stopping, hides the next one. */
  function Pass(s: string, n: nat, hidden: bool): (r: Option<bool>)
    requires n <= |s|
  {
    if n == 0 then Some(hidden)
    else if hidden then Pass(s[1..], n - 1, false)
    else if s[0] == '\"' then None
    else Pass(s[1..], n - 1, s[0] == '\\')
  }

  /** The first pass counts at least one byte for two characters. */
  lemma {:induction false} PassCounts(s: string, n: nat, hidden: bool)
    requires n <= |s| && Pass(s, n, hidden).Some?
    ensures var after := Pass(s, n, hidden).value;
      2 * Counted(s, hidden) + Bit(hidden) >= 2 * Counted(s[n..], after) + n + Bit(after)
  {
    if n == 0 {
      assert s[0..] == s;
    } else {
      PassCounts(s[1..], n - 1, !hidden && s[0] == '\\');
      assert s[1..][n - 1..] == s[n..];
    }
  }

  /** Without backslashes it counts every character. */
  lemma {:induction false} PassCountsPlain(s: string, n: nat)
    requires n <= |s| && Pass(s, n, false).Some? && forall i | 0 <= i < n :: s[i] != '\\'
    ensures Pass(s, n, false) == Some(false) && Counted(s, false) == n + Counted(s[n..], false)
  {
    if n == 0 {
      assert s[0..] == s;
    } else {
      PassCountsPlain(s[1..], n - 1);
      assert s[1..][n - 1..] == s[n..];
    }
  }

  /** Four bytes for one escape, which take a value of more than 16 bits, come with no backslash inside it. */
  predicate Narrow(s: string, stale: Memory)
    requires s != "" && Decoded(s, stale).1 <= |s|
  {
    var (bytes, n) := Decoded(s, stale);
    n == 6 && |bytes| == 4 ==> forall i | 2 <= i < 6 :: s[i] != '\\'
  }

  /** One character decoded: its bytes are paid for by what the first pass counts for it, where a
      hidden character counts as paid in advance. */
  lemma DecodedFits(s: string, hidden: bool, stale: Memory)
    requires s != "" && s[0] != '\"' && Decoded(s, stale).1 <= |s| && Narrow(s, stale)
    requires Pass(s, Decoded(s, stale).1, hidden).Some?
    ensures var (bytes, n) := Decoded(s, stale); var after := Pass(s, n, hidden).value;
      |bytes| + Counted(s[n..], after) + Bit(after) <= Counted(s, hidden) + Bit(hidden)
  {
    var d := Decoded(s, stale);
    PassCounts(s, d.1, hidden);
    if s[0] != '\\' {
      assert Pass(s, 1, hidden) == Some(false);
    } else if d.1 == 6 && |d.0| == 4 {
      WideFits(s, hidden);
    }
  }

  lemma WideFits(s: string, hidden: bool)
    requires |s| >= 6 && s[0] == '\\' && s[1] == 'u' && forall i | 2 <= i < 6 :: s[i] != '\\'
    requires Pass(s, 6, hidden).Some?
    ensures Pass(s, 6, hidden) == Some(false) && 4 + Counted(s[6..], false) <= Counted(s, hidden)
  {
    var digits := s[1..][1..];
    assert digits == s[2..] && digits[4..] == s[6..];
    assert Pass(s, 6, hidden) == Pass(s[1..], 5, !hidden) == Pass(digits, 4, false);
    PassCountsPlain(digits, 4);
  }

  /** The second pass never reads past the place where the first pass stops, each escape taken as long as
      the code takes it to be. */
  predicate Behind(s: string, hidden: bool, stale: Memory)
    decreases |s|
  {
    s == "" || s[0] == '\"' ||
    var n := Decoded(s, stale).1;
    n <= |s| && Narrow(s, stale) && Pass(s, n, hidden).Some? && Behind(s[n..], Pass(s, n, hidden).value, stale)
  }

  /** Then it stays in the buffer and in the text. */
  lemma {:induction false} BehindFits(s: string, hidden: bool, cells: nat, stale: Memory)
    requires Behind(s, hidden, stale) && Counted(s, hidden) + Bit(hidden) < cells
    ensures Fill(s, cells, stale).Got?
    decreases |s|
  {
    if s != "" && s[0] != '\"' {
      var (bytes, n) := Decoded(s, stale);
      var after := Pass(s, n, hidden).value;
      DecodedFits(s, hidden, stale);
      assert |bytes| + Counted(s[n..], after) + Bit(after) < cells;
      BehindFits(s[n..], after, cells - |bytes|, stale);
    }
  }

  /** A reading during which the second pass stays behind the first gets a value. */
  lemma ReadsBehind(s: string, stale: Memory)
    requires Behind(s, false, stale) && !Dangles(s, false)
    ensures ReadText(s, stale).Got?
  {
    BehindFits(s, false, Counted(s, false) + 1, stale);
  }

  // ----- a test on the text

  predicate Ordinary(c: char) {
    c != '\"' && c != '\\'
  }

  /** Behind every backslash and `u` there are four characters, neither quote nor backslash, and no
      backslash ends the text. */
  predicate Tame(s: string) {
    (s != "" ==> s[|s| - 1] != '\\') && forall i | 0 <= i < |s| :: TameAt(s, i)
  }

  predicate TameAt(s: string, i: nat) {
    At(s, i) == '\\' && At(s, i + 1) == 'u' ==> i + 6 <= |s| && forall k | i + 2 <= k < i + 6 :: Ordinary(s[k])
  }

  lemma TameRest(s: string, n: nat)
    requires Tame(s) && n <= |s|
    ensures Tame(s[n..])
  {
    forall i | 0 <= i < |s[n..]|
      ensures TameAt(s[n..], i)
    {
      assert TameAt(s, n + i);
    }
  }

  /** Both passes step over one character of a tame text alike. */
  lemma TameStep(s: string, stale: Memory)
    requires Tame(s) && s != "" && s[0] != '\"'
    ensures var n := Decoded(s, stale).1;
      n <= |s| && Narrow(s, stale) && Pass(s, n, false) == Some(false)
  {
    if s[0] == '\\' && At(s, 1) == 'u' {
      TameEscape(s);
      if Decoded(s, stale).1 == 12 {
        TamePair(s);
      }
    } else if s[0] == '\\' {
      assert |s| >= 2 && Decoded(s, stale).1 == 2;
      assert Pass(s, 2, false) == Pass(s[1..], 1, true) == Pass(s[1..][1..], 0, false);
    } else {
      assert Pass(s, 1, false) == Pass(s[1..], 0, false);
    }
  }

  lemma TamePair(s: string)
    requires Tame(s) && |s| >= 8 && s[0] == '\\' && s[1] == 'u' && s[6] == '\\' && s[7] == 'u'
    ensures |s| >= 12 && Pass(s, 12, false) == Some(false)
  {
    TameEscape(s);
    TameRest(s, 6);
    TameEscape(s[6..]);
    PassSplit(s, 6, 6, false);
  }

  lemma TameEscape(s: string)
    requires Tame(s) && |s| >= 2 && s[0] == '\\' && s[1] == 'u'
    ensures |s| >= 6 && Pass(s, 6, false) == Some(false) && forall i | 2 <= i < 6 :: Ordinary(s[i])
  {
    assert TameAt(s, 0);
    EscapePasses(s);
  }

  lemma {:induction false} PlainPass(s: string, n: nat)
    requires n <= |s| && forall i | 0 <= i < n :: Ordinary(s[i])
    ensures Pass(s, n, false) == Some(false)
  {
    if n > 0 {
      PlainPass(s[1..], n - 1);
    }
  }

  /** The first pass takes an escape with four ordinary characters whole. */
  lemma EscapePasses(s: string)
    requires |s| >= 6 && s[0] == '\\' && forall i | 2 <= i < 6 :: Ordinary(s[i])
    ensures Pass(s, 6, false) == Some(false)
  {
    assert s[1..][1..] == s[2..];
    assert Pass(s, 6, false) == Pass(s[1..], 5, true) == Pass(s[2..], 4, false);
    PlainPass(s[2..], 4);
  }

  lemma {:induction false} PassSplit(s: string, m: nat, n: nat, hidden: bool)
    requires m + n <= |s|
    ensures Pass(s, m + n, hidden) ==
      if Pass(s, m, hidden).None? then None else Pass(s[m..], n, Pass(s, m, hidden).value)
  {
    if m == 0 {
      assert s[0..] == s;
    } else {
      PassSplit(s[1..], m - 1, n, !hidden && s[0] == '\\');
      assert s[1..][m - 1..] == s[m..];
    }
  }

  lemma {:induction false} TameBehind(s: string, stale: Memory)
    requires Tame(s)
    ensures Behind(s, false, stale)
    decreases |s|
  {
    if s != "" && s[0] != '\"' {
      var n := Decoded(s, stale).1;
      TameStep(s, stale);
      TameRest(s, n);
      TameBehind(s[n..], stale);
    }
  }

  lemma {:induction false} TameEnds(s: string, hidden: bool)
    requires Tame(s) && (hidden ==> s != "")
    ensures !Dangles(s, hidden)
  {
    if s != "" {
      TameRest(s, 1);
      TameEnds(s[1..], !hidden && s[0] == '\\');
    }
  }

  /** Whatever lies in memory, no string of a tame text is read over its buffer or out of the text. */
  lemma TameReads(s: string, stale: Memory)
    requires Tame(s)
    ensures ReadText(s, stale).Got?
  {
    TameBehind(s, stale);
    TameEnds(s, false);
    ReadsBehind(s, stale);
  }

  // ----- exactly when every continuation is safe

  /** The second pass reads the whole of this text without meeting its quote, and every value in it is
      decided by the text. */
  predicate Runs(s: string, stale: Memory)
    decreases |s|
  {
    s == "" ||
    (s[0] != '\"' && Decoded(s, stale).1 <= |s| && Clear(s, stale) && Runs(s[Decoded(s, stale).1..], stale))
  }

  predicate Clear(s: string, stale: Memory)
    requires s != "" && Decoded(s, stale).1 <= |s|
  {
    (Decoded(s, stale).1 >= 6 ==> Scans(s[2..])) && (Decoded(s, stale).1 == 12 ==> Scans(s[8..]))
  }

  function Bytes(s: string, stale: Memory): string
    requires Runs(s, stale)
    decreases |s|
  {
    if s == "" then "" else Decoded(s, stale).0 + Bytes(s[Decoded(s, stale).1..], stale)
  }

  /** A string without quotes or backslashes, and the quote that ends it. */
  predicate PlainTail(x: string) {
    forall i | 0 <= i < |x| :: Ordinary(x[i])
  }

  lemma {:induction false} HexRunPrefix(s: string, y: string, n: nat, value: nat)
    requires n <= |s|
    ensures HexRun(s + y, n, value) == HexRun(s, n, value)
  {
    if n > 0 && HexValue(s[0]).Some? {
      assert (s + y)[1..] == s[1..] + y;
      HexRunPrefix(s[1..], y, n - 1, value * 16 + HexValue(s[0]).value);
    }
  }

  lemma ScannedPrefix(s: string, y: string, stale: Memory)
    requires |s| >= 4 && Scans(s)
    ensures Scans(s + y) && Scanned(s + y, stale) == Scanned(s, stale)
  {
    assert (s + y)[2..] == s[2..] + y;
    HexRunPrefix(s[2..], y, 2, 0);
    HexRunPrefix(s, y, 4, 0);
  }

  /** What follows does not change what is decoded. */
  lemma DecodedPrefix(s: string, y: string, stale: Memory)
    requires s != "" && Runs(s, stale) && y != "" && y[0] != '\\'
    ensures Decoded(s + y, stale) == Decoded(s, stale)
  {
    if s[0] == '\\' && |s| >= 6 && s[1] == 'u' {
      var t := s[2..];
      assert (s + y)[2..] == t + y;
      ScannedPrefix(t, y, stale);
      if At(t, 4) == '\\' {
        assert s[6..][0] == '\\';
        if At(t, 5) == 'u' && Decoded(s, stale).1 == 12 {
          assert (t + y)[6..] == t[6..] + y;
          ScannedPrefix(t[6..], y, stale);
        }
      }
    }
  }

  lemma BeforeTwice(a: string, b: string, r: Outcome<string, string>)
    ensures Before(a, Before(b, r)) == Before(a + b, r)
  {
    if r.Got? {
      assert a + (b + r.value) == a + b + r.value;
    }
  }

  function Left(cells: nat, n: nat): nat {
    if n <= cells then cells - n else 0
  }

  /** The outcome of filling a buffer with these bytes and then with what follows. */
  ghost predicate Fills(r: Outcome<string, string>, bytes: string, y: string, cells: nat, stale: Memory) {
    r == if |bytes| > cells then Stopped(Overrun) else Before(bytes, Fill(y, cells - |bytes|, stale))
  }

  lemma FillsMore(whole: Outcome<string, string>, rest: Outcome<string, string>, bytes: string, more: string, y: string,
                  cells: nat, stale: Memory)
    requires |bytes| > cells ==> whole == Stopped(Overrun)
    requires |bytes| <= cells ==> whole == Before(bytes, rest) && Fills(rest, more, y, cells - |bytes|, stale)
    ensures Fills(whole, bytes + more, y, cells, stale)
  {
    if |bytes + more| <= cells {
      BeforeTwice(bytes, more, Fill(y, cells - |bytes + more|, stale));
    }
  }

  lemma {:induction false} FillRuns(s: string, y: string, cells: nat, stale: Memory)
    requires Runs(s, stale) && y != "" && y[0] != '\\'
    ensures Fills(Fill(s + y, cells, stale), Bytes(s, stale), y, cells, stale)
    decreases |s|
  {
    if s == "" {
      assert s + y == y;
      BeforeNothing(Fill(y, cells, stale));
    } else {
      var d := Decoded(s, stale);
      var rest := Fill(s[d.1..] + y, Left(cells, |d.0|), stale);
      DecodedPrefix(s, y, stale);
      FillFirst(s, y, cells, stale);
      FillRuns(s[d.1..], y, Left(cells, |d.0|), stale);
      FillsMore(Fill(s + y, cells, stale), rest, d.0, Bytes(s[d.1..], stale), y, cells, stale);
    }
  }

  lemma FillFirst(s: string, y: string, cells: nat, stale: Memory)
    requires s != "" && s[0] != '\"' && Decoded(s, stale).1 <= |s| && Decoded(s + y, stale) == Decoded(s, stale)
    ensures var d := Decoded(s, stale);
      Fill(s + y, cells, stale) ==
        if |d.0| > cells then Stopped(Overrun) else Before(d.0, Fill(s[d.1..] + y, Left(cells, |d.0|), stale))
  {
    var n := Decoded(s, stale).1;
    assert (s + y)[n..] == s[n..] + y;
  }

  lemma BeforeNothing(r: Outcome<string, string>)
    ensures Before("", r) == r
  {
    if r.Got? {
      assert "" + r.value == r.value;
    }
  }

  lemma {:induction false} FillPlain(x: string, cells: nat, stale: Memory)
    requires PlainTail(x)
    ensures Fill(x + "\"", cells, stale) == if |x| < cells then Got(x, "") else Stopped(Overrun)
  {
    var s := x + "\"";
    if x == "" {
      assert s == "\"" && s[1..] == "";
    } else {
      assert s[0] == x[0] && s[1..] == x[1..] + "\"";
      assert Decoded(s, stale) == ([x[0]], 1);
      if cells > 0 {
        FillPlain(x[1..], cells - 1, stale);
        assert [x[0]] + x[1..] == x;
      }
    }
  }

  /** Once the first pass has stopped, what follows counts nothing. */
  lemma {:induction false} StoppedCounts(s: string, y: string, hidden: bool)
    requires Pass(s, |s|, hidden).None?
    ensures Counted(s + y, hidden) == Counted(s, hidden)
  {
    if s != "" {
      assert (s + y)[1..] == s[1..] + y;
      if hidden || s[0] != '\"' {
        StoppedCounts(s[1..], y, !hidden && s[0] == '\\');
      }
    }
  }

  lemma {:induction false} StoppedEnds(s: string, y: string, hidden: bool)
    requires Pass(s, |s|, hidden).None?
    ensures !Dangles(s + y, hidden)
  {
    if s != "" {
      assert (s + y)[1..] == s[1..] + y;
      if hidden || s[0] != '\"' {
        StoppedEnds(s[1..], y, !hidden && s[0] == '\\');
      }
    }
  }

  /** Before that, the bytes of the second pass are paid for, and what follows is counted. */
  lemma {:induction false} RunsPaid(s: string, y: string, hidden: bool, stale: Memory)
    requires Runs(s, stale) && y != "" && y[0] != '\\' && Pass(s, |s|, hidden).Some?
    ensures var after := Pass(s, |s|, hidden).value;
      |Bytes(s, stale)| + Counted(y, after) + Bit(after) <= Counted(s + y, hidden) + Bit(hidden)
    decreases |s|
  {
    if s == "" {
      assert s + y == y;
    } else {
      var n := Decoded(s, stale).1;
      DecodedPrefix(s, y, stale);
      PassSplit(s, n, |s| - n, hidden);
      FirstPaid(s, y, hidden, stale);
      RunsPaid(s[n..], y, Pass(s, n, hidden).value, stale);
    }
  }

  lemma FirstPaid(s: string, y: string, hidden: bool, stale: Memory)
    requires s != "" && s[0] != '\"' && Decoded(s, stale).1 <= |s| && Decoded(s + y, stale) == Decoded(s, stale)
    requires Pass(s, Decoded(s, stale).1, hidden).Some? && Clear(s, stale)
    ensures var (bytes, n) := Decoded(s, stale); var after := Pass(s, n, hidden).value;
      |bytes| + Counted(s[n..] + y, after) + Bit(after) <= Counted(s + y, hidden) + Bit(hidden)
  {
    var n := Decoded(s, stale).1;
    assert (s + y)[n..] == s[n..] + y;
    PassPrefix(s, y, n, hidden);
    DecodedFits(s + y, hidden, stale);
  }

  lemma {:induction false} PassPrefix(s: string, y: string, n: nat, hidden: bool)
    requires n <= |s|
    ensures Pass(s + y, n, hidden) == Pass(s, n, hidden)
  {
    if n > 0 {
      assert (s + y)[1..] == s[1..] + y;
      PassPrefix(s[1..], y, n - 1, !hidden && s[0] == '\\');
    }
  }

  lemma {:induction false} PlainCounts(x: string)
    requires PlainTail(x)
    ensures Counted(x + "\"", false) == |x|
  {
    if x != "" {
      assert (x + "\"")[1..] == x[1..] + "\"";
      PlainCounts(x[1..]);
    }
  }

  /** Hidden or not, the first pass pays for a plain string. */
  lemma TailPaid(x: string, hidden: bool)
    requires PlainTail(x)
    ensures |x| <= Counted(x + "\"", hidden) + Bit(hidden)
  {
    if hidden && x != "" {
      assert (x + "\"")[1..] == x[1..] + "\"";
      PlainCounts(x[1..]);
    } else if !hidden {
      PlainCounts(x);
    }
  }

  /** The text, a plain string behind it, and a quote are read into the buffer counted for them. */
  predicate Holds(s: string, x: string, stale: Memory) {
    Fill(s + (x + "\""), Counted(s + (x + "\""), false) + 1, stale).Got?
  }

  /** That is so exactly if there are no more bytes than counted. */
  lemma HoldsCounted(s: string, x: string, stale: Memory)
    requires Runs(s, stale) && PlainTail(x)
    ensures Holds(s, x, stale) <==> |Bytes(s, stale)| + |x| <= Counted(s + (x + "\""), false)
  {
    var y := x + "\"";
    var cells := Counted(s + y, false) + 1;
    FillRuns(s, y, cells, stale);
    if |Bytes(s, stale)| <= cells {
      FillPlain(x, cells - |Bytes(s, stale)|, stale);
    }
  }

  /** For a text that the second pass has read without meeting its quote: no plain string behind it,
      however long, makes it run over the buffer, exactly if the first pass has not stopped in the text. */
  lemma ContinuationsAreSafe(s: string, stale: Memory)
    requires Runs(s, stale)
    ensures (forall x | PlainTail(x) :: Holds(s, x, stale)) <==> Pass(s, |s|, false).Some?
  {
    if Pass(s, |s|, false).Some? {
      forall x | PlainTail(x)
        ensures Holds(s, x, stale)
      {
        PassedHolds(s, x, stale);
      }
    } else {
      StoppedOverruns(s, stale);
    }
  }

  lemma PassedHolds(s: string, x: string, stale: Memory)
    requires Runs(s, stale) && PlainTail(x) && Pass(s, |s|, false).Some?
    ensures Holds(s, x, stale)
  {
    RunsPaid(s, x + "\"", false, stale);
    TailPaid(x, Pass(s, |s|, false).value);
    HoldsCounted(s, x, stale);
  }

  lemma StoppedOverruns(s: string, stale: Memory)
    requires Runs(s, stale) && Pass(s, |s|, false).None?
    ensures exists x :: PlainTail(x) && !Holds(s, x, stale)
  {
    var x := seq(Counted(s, false) + 1, _ => 'a');
    StoppedCounts(s, x + "\"", false);
    HoldsCounted(s, x, stale);
    assert PlainTail(x) && !Holds(s, x, stale);
  }

  /** An escape of one digit in front of the quote: the first pass stops at the quote and counts two, the
      second skips the quote and reads on to the next one. Seven bytes and a zero do not fit into three. */
  lemma ShortEscapeOverruns(stale: Memory)
    ensures var s := "\\u1\"AA" + ("AAAAAA" + "\"");
      Counted(s, false) == 2 && ReadText(s, stale) == Stopped(Overrun)
      && Fill(s, 8, stale).Got? && |Fill(s, 8, stale).value| == 7
  {
    var t, x := "\\u1\"AA", "AAAAAA";
    ShortEscape(stale);
    StoppedCounts(t, x + "\"", false);
    FillRuns(t, x + "\"", 3, stale);
    FillPlain(x, 2, stale);
    FillRuns(t, x + "\"", 8, stale);
    FillPlain(x, 7, stale);
  }

  lemma ShortEscape(stale: Memory)
    ensures var t := "\\u1\"AA";
      Runs(t, stale) && |Bytes(t, stale)| == 1 && Counted(t, false) == 2 && Pass(t, 6, false).None?
      && forall y :: !Dangles(t + y, false)
  {
    var t := "\\u1\"AA";
    assert t[2..] == "1\"AA" && t[2..][1..] == "\"AA";
    assert HexRun(t[2..], 4, 0) == HexRun("\"AA", 3, 1) == 1;
    assert Decoded(t, stale) == (Utf8(1), 6);
    assert t[1..] == "u1\"AA" && t[1..][1..] == "1\"AA";
    forall y {
      StoppedEnds(t, y, false);
    }
  }

  // ----- round trip

  lemma EscapeCharDecodes(c: char, more: string, stale: Memory)
    requires 0 < c as int < 256
    ensures var text, n := EscapeChar(c) + more, |EscapeChar(c)|;
      && text[0] != '\"' && Decoded(text, stale) == ([c], n) && text[n..] == more
      && Pass(text, n, false) == Some(false)
  {
    var text, n := EscapeChar(c) + more, |EscapeChar(c)|;
    if Letter(c).None? && c as int <= 31 {
      ControlDecodes(c, more, stale);
    } else if n == 2 {
      assert Pass(text, 2, false) == Pass(text[1..], 1, true) == Pass(text[1..][1..], 0, false);
    } else {
      assert Pass(text, 1, false) == Pass(text[1..], 0, false);
    }
  }

  lemma ControlDecodes(c: char, more: string, stale: Memory)
    requires 0 < c as int <= 31 && Letter(c).None?
    ensures var text := EscapeChar(c) + more; Decoded(text, stale) == ([c], 6) && Pass(text, 6, false) == Some(false)
  {
    var text, high, low := EscapeChar(c) + more, HexDigit(c as int / 16), HexDigit(c as int % 16);
    assert text[2..] == ['0', '0', high, low] + more;
    ControlDigits(c as int, high, low, more);
    EscapePasses(text);
  }

  lemma ControlDigits(c: nat, high: char, low: char, more: string)
    requires c <= 31 && high == HexDigit(c / 16) && low == HexDigit(c % 16)
    ensures var digits := ['0', '0', high, low] + more;
      !HasPrefix(digits) && HexRun(digits, 4, 0) == c && forall i | 0 <= i < 4 :: Ordinary(digits[i])
  {
    var digits := ['0', '0', high, low] + more;
    assert HexValue(high) == Some(c / 16) && HexValue(low) == Some(c % 16);
    assert digits[1..] == ['0', high, low] + more && digits[1..][1..] == [high, low] + more;
    assert digits[1..][1..][1..] == [low] + more;
    assert HexRun(digits, 4, 0) == HexRun([high, low] + more, 2, 0) == HexRun([low] + more, 1, c / 16) == c;
  }

  lemma {:induction false} PassDangles(s: string, n: nat, hidden: bool)
    requires n <= |s| && Pass(s, n, hidden).Some?
    ensures Dangles(s, hidden) == Dangles(s[n..], Pass(s, n, hidden).value)
  {
    if n == 0 {
      assert s[0..] == s;
    } else {
      PassDangles(s[1..], n - 1, !hidden && s[0] == '\\');
      assert s[1..][n - 1..] == s[n..];
    }
  }

  /** The first pass counts enough for an escaped string, and ends inside the text. */
  lemma {:induction false} EscapedCounts(s: string, rest: string, stale: Memory)
    requires CString(s)
    ensures var t := Escaped(s) + "\"" + rest; |s| <= Counted(t, false) && !Dangles(t, false)
  {
    if s != "" {
      var more, n := Escaped(s[1..]) + "\"" + rest, |EscapeChar(s[0])|;
      assert Escaped(s) + "\"" + rest == EscapeChar(s[0]) + more;
      EscapedCounts(s[1..], rest, stale);
      EscapeCharDecodes(s[0], more, stale);
      DecodedFits(EscapeChar(s[0]) + more, false, stale);
      PassDangles(EscapeChar(s[0]) + more, n, false);
    }
  }

  lemma EscapeCharFills(c: char, more: string, cells: nat, stale: Memory)
    requires 0 < c as int < 256 && cells > 0
    ensures Fill(EscapeChar(c) + more, cells, stale) == Before([c], Fill(more, cells - 1, stale))
  {
    EscapeCharDecodes(c, more, stale);
  }

  lemma EscapedFillsMore(c: char, more: string, tail: string, rest: string, t: string, cells: nat, stale: Memory)
    requires 0 < c as int < 256 && cells > 0 && t == EscapeChar(c) + more
    requires Fill(more, cells - 1, stale) == Got(tail, rest)
    ensures Fill(t, cells, stale) == Got([c] + tail, rest)
  {
    EscapeCharFills(c, more, cells, stale);
  }

  lemma FillEnds(rest: string, t: string, cells: nat, stale: Memory)
    requires cells > 0 && t == "\"" + rest
    ensures Fill(t, cells, stale) == Got("", rest)
  {
    assert t[0] == '\"' && t[1..] == rest;
  }

  lemma EscapedFirst(s: string, rest: string, more: string, t: string)
    requires CString(s) && s != "" && t == Escaped(s) + "\"" + rest && more == Escaped(s[1..]) + "\"" + rest
    ensures t == EscapeChar(s[0]) + more
  {
  }

  lemma {:induction false} EscapedFills(s: string, rest: string, t: string, cells: nat, stale: Memory)
    requires CString(s) && |s| < cells && t == Escaped(s) + "\"" + rest
    ensures Fill(t, cells, stale) == Got(s, rest)
  {
    if s == "" {
      FillEnds(rest, t, cells, stale);
    } else {
      var more := Escaped(s[1..]) + "\"" + rest;
      EscapedFills(s[1..], rest, more, cells - 1, stale);
      EscapedFirst(s, rest, more, t);
      EscapedFillsMore(s[0], more, s[1..], rest, t, cells, stale);
      assert [s[0]] + s[1..] == s;
    }
  }

  /** Reading what was printed gives the string back, whatever follows it and whatever lies in memory. */
  lemma QuotedParses(s: string, rest: string, stale: Memory)
    requires CString(s)
    ensures ParseText(Quoted(s) + rest, stale) == Got(s, rest)
  {
    var t, quoted := Escaped(s) + "\"" + rest, Quoted(s) + rest;
    QuotedText(s, rest, t, quoted);
    EscapedReads(s, rest, t, stale);
    QuotedOpens(quoted, t, stale);
  }

  lemma QuotedText(s: string, rest: string, t: string, quoted: string)
    requires CString(s) && t == Escaped(s) + "\"" + rest && quoted == Quoted(s) + rest
    ensures quoted != "" && quoted[0] == '\"' && quoted[1..] == t
  {
  }

  lemma EscapedReads(s: string, rest: string, t: string, stale: Memory)
    requires CString(s) && t == Escaped(s) + "\"" + rest
    ensures ReadText(t, stale) == Got(s, rest)
  {
    EscapedCounts(s, rest, stale);
    EscapedFills(s, rest, t, Counted(t, false) + 1, stale);
  }

  lemma QuotedOpens(quoted: string, t: string, stale: Memory)
    requires quoted != "" && quoted[0] == '\"' && quoted[1..] == t
    ensures ParseText(quoted, stale) == ReadText(t, stale)
  {
  }

  // ----- the parser, on positions of a text

  /** The first pass over a string: the bytes it counts, or nothing if it leaves the text. */
  method CountString(text: string, start: nat) returns (len: Option<nat>)
    requires CString(text) && start <= |text|
    ensures len == if Dangles(text[start..], false) then None else Some(Counted(text[start..], false))
  {
    var n, ptr := 0, start;
    while At(text, ptr) != '\"' && At(text, ptr) != '\0'
      invariant start <= ptr <= |text| && n + Counted(text[ptr..], false) == Counted(text[start..], false)
      invariant Dangles(text[ptr..], false) == Dangles(text[start..], false)
      decreases |text| - ptr
    {
      assert text[ptr..][1..] == text[ptr + 1..];
      n := n + 1;
      if text[ptr] == '\\' {
        if ptr + 1 == |text| {
          return None;
        }
        assert text[ptr + 1..][1..] == text[ptr + 2..];
        ptr := ptr + 2;
      } else {
        ptr := ptr + 1;
      }
    }
    return Some(n);
  }

  /** The bits that mark the first of so many bytes. */
  function LeadMark(len: nat): nat {
    if len == 1 then 0 else if len == 2 then 0xC0 else if len == 3 then 0xE0 else 0xF0
  }

  /** The bytes of a value, as shifting it by six bits at a time yields them. */
  predicate Shifted(uc: nat, bytes: string) {
    && |bytes| == (if uc < 0x80 then 1 else if uc < 0x800 then 2 else if uc < 0x10000 then 3 else 4)
    && (|bytes| == 1 ==> bytes[0] == Byte(uc))
    && (|bytes| == 2 ==> bytes[0] == Byte(0xC0 + uc / 64) && bytes[1] == Byte(0x80 + uc % 64))
    && (|bytes| == 3 ==>
          && bytes[0] == Byte(0xE0 + uc / 64 / 64)
          && bytes[1] == Byte(0x80 + uc / 64 % 64) && bytes[2] == Byte(0x80 + uc % 64))
    && (|bytes| == 4 ==>
          && bytes[0] == Byte(0xF0 + uc / 64 / 64 / 64 % 16) && bytes[1] == Byte(0x80 + uc / 64 / 64 % 64)
          && bytes[2] == Byte(0x80 + uc / 64 % 64) && bytes[3] == Byte(0x80 + uc % 64))
  }

  lemma BytesAreShifted(uc: nat)
    requires uc < TWO_TO_THE_32
    ensures Shifted(uc, CodeBytes(uc))
  {
    assert uc / 64 / 64 == uc / 4096 && uc / 64 / 64 / 64 == uc / 262144;
  }

  /** Writes the bytes of a value from the last to the first; of the first only eight bits are kept. */
  method WriteUtf8(out: array<char>, at: nat, uc: nat) returns (next: nat)
    requires uc < TWO_TO_THE_32 && at + |CodeBytes(uc)| <= out.Length
    modifies out
    ensures next == at + |CodeBytes(uc)| && out[..next] == old(out[..at]) + CodeBytes(uc)
  {
    BytesAreShifted(uc);
    next := WriteBackwards(out, at, uc, CodeBytes(uc));
  }

  method WriteBackwards(out: array<char>, at: nat, uc: nat, ghost bytes: string) returns (next: nat)
    requires Shifted(uc, bytes) && at + |bytes| <= out.Length
    modifies out
    ensures next == at + |bytes| && out[..next] == old(out[..at]) + bytes
  {
    var len: nat, rest: nat := 4, uc;
    if uc < 0x80 {
      len := 1;
    } else if uc < 0x800 {
      len := 2;
    } else if uc < 0x10000 {
      len := 3;
    }
    if len == 4 {
      out[at + 3] := Byte(0x80 + rest % 64);
      rest := rest / 64;
    }
    if len >= 3 {
      out[at + 2] := Byte(0x80 + rest % 64);
      rest := rest / 64;
    }
    if len >= 2 {
      out[at + 1] := Byte(0x80 + rest % 64);
      rest := rest / 64;
    }
    out[at] := Byte(LeadMark(len) + if len == 4 then rest % 16 else rest);
    assert out[..at + len] == old(out[..at]) + bytes;
    return at + len;
  }

  /** What reading an escape, or a whole string, has come to: a place in the buffer and one in the text. */
  ghost predicate Moves(r: Outcome<nat, nat>, d: (string, nat), text: string, ptr: nat, out: array<char>, at: nat,
                        before: string)
    reads out
  {
    if at + |d.0| > out.Length then r == Stopped(Overrun)
    else if ptr + d.1 > |text| then r == Stopped(Outside)
    else r == Got(at + |d.0|, ptr + d.1) && out[..at + |d.0|] == before + d.0
  }

  /** Decodes an escape that starts with `u`, from its first digit. A write that would leave the buffer
      and a step that leaves the text end the reading. */
  method DecodeUnicode(text: string, ptr: nat, out: array<char>, at: nat, stale: Memory) returns (r: Outcome<nat, nat>)
    requires ptr <= |text| && at <= out.Length
    modifies out
    ensures Moves(r, UnicodeEscape(text[ptr..], stale), text, ptr, out, at, old(out[..at]))
  {
    var uc, next, len := Scanned(text[ptr..], stale), ptr + 4, 0;
    if !(0xDC00 <= uc <= 0xDFFF) && uc != 0 {
      var valid := true;
      if 0xD800 <= uc <= 0xDBFF {
        valid := false;
        if At(text, ptr + 4) == '\\' && At(text, ptr + 5) == 'u' {
          assert text[ptr..][6..] == text[ptr + 6..];
          var uc2 := Scanned(text[ptr + 6..], stale);
          next := ptr + 10;
          if 0xDC00 <= uc2 <= 0xDFFF {
            uc, valid := JoinSurrogates(uc, uc2), true;
          }
        }
      }
      if valid {
        if at + |CodeBytes(uc)| > out.Length {
          return Stopped(Overrun);
        }
        var end := WriteUtf8(out, at, uc);
        return if next > |text| then Stopped(Outside) else Got(end, next);
      }
    }
    return if next > |text| then Stopped(Outside) else Got(at, next);
  }

  /** Decodes the character at a position into the buffer. */
  method DecodeChar(text: string, ptr: nat, out: array<char>, at: nat, stale: Memory) returns (r: Outcome<nat, nat>)
    requires ptr < |text| && at <= out.Length
    modifies out
    ensures Moves(r, Decoded(text[ptr..], stale), text, ptr, out, at, old(out[..at]))
  {
    if text[ptr] == '\\' && At(text, ptr + 1) == 'u' {
      assert text[ptr..][2..] == text[ptr + 2..];
      r := DecodeUnicode(text, ptr + 2, out, at, stale);
      return;
    }
    if at == out.Length {
      return Stopped(Overrun);
    }
    if text[ptr] != '\\' {
      out[at] := text[ptr];
      return Got(at + 1, ptr + 1);
    }
    out[at] := Meaning(At(text, ptr + 1));
    return if ptr + 2 > |text| then Stopped(Outside) else Got(at + 1, ptr + 2);
  }

  /** What the second pass makes of a text from a position on, with so many cells left. */
  ghost predicate Specifies(reading: (nat, nat) -> Outcome<string, string>, text: string, stale: Memory) {
    forall p: nat, cells: nat {:trigger Fill(text[p..], cells, stale)} | p <= |text| ::
      reading(p, cells) == Fill(text[p..], cells, stale)
  }

  /** One character decoded: `now` is what is made of the text left before it, `later` of the text after it. */
  ghost predicate Advances(now: Outcome<string, string>, later: Outcome<string, string>, done: string, d: (string, nat),
                           cells: nat, n: nat) {
    if |d.0| > cells then Before(done, now) == Stopped(Overrun)
    else if d.1 > n then Before(done, now) == Stopped(Outside)
    else Before(done, now) == Before(done + d.0, later)
  }

  lemma FillStep(done: string, left: string, cells: nat, stale: Memory, now: Outcome<string, string>,
                 later: Outcome<string, string>)
    requires left != "" && left[0] != '\"' && now == Fill(left, cells, stale)
    requires var d := Decoded(left, stale);
      |d.0| <= cells && d.1 <= |left| ==> later == Fill(left[d.1..], cells - |d.0|, stale)
    ensures Advances(now, later, done, Decoded(left, stale), cells, |left|)
  {
    BeforeTwice(done, Decoded(left, stale).0, later);
  }

  /** The same, on positions. */
  lemma ReadsNext(reading: (nat, nat) -> Outcome<string, string>, text: string, ptr: nat, cells: nat, done: string,
                  d: (string, nat), stale: Memory)
    requires Specifies(reading, text, stale) && ptr < |text| && text[ptr] != '\"' && d == Decoded(text[ptr..], stale)
    ensures Advances(reading(ptr, cells), reading(ptr + d.1, Left(cells, |d.0|)), done, d, cells, |text| - ptr)
  {
    var later := reading(ptr + d.1, Left(cells, |d.0|));
    ReadingIs(reading, text, ptr, cells, stale);
    if |d.0| <= cells && ptr + d.1 <= |text| {
      SliceTwice(text, ptr, ptr + d.1);
      ReadingIs(reading, text, ptr + d.1, cells - |d.0|, stale);
    }
    FillStep(done, text[ptr..], cells, stale, reading(ptr, cells), later);
  }

  lemma ReadingIs(reading: (nat, nat) -> Outcome<string, string>, text: string, p: nat, cells: nat, stale: Memory)
    requires Specifies(reading, text, stale) && p <= |text|
    ensures reading(p, cells) == Fill(text[p..], cells, stale)
  {
  }

  lemma ReadsEnd(done: string, left: string, cells: nat, stale: Memory)
    requires left == "" || left[0] == '\"'
    ensures Before(done, Fill(left, cells, stale)) ==
      if cells == 0 then Stopped(Overrun) else Got(done, if left == "" then "" else left[1..])
  {
    assert done + "" == done;
  }

  lemma SliceTwice(text: string, from: nat, to: nat)
    requires from <= to <= |text|
    ensures text[from..][to - from..] == text[to..]
  {
  }

  /** The text from the start of a string has been read into a buffer. */
  ghost predicate Filled(r: Outcome<nat, nat>, all: Outcome<string, string>, text: string, out: array<char>)
    reads out
  {
    match r
    case Stopped(why) => all == Stopped(why)
    case Got(len, ptr) => len < out.Length && ptr <= |text| && all == Got(out[..len], text[ptr..]) && out[len] == '\0'
  }

  /** The second pass: decodes into the buffer up to the next quote it meets, or the end of the text. */
  method UnescapeInto(text: string, start: nat, out: array<char>, stale: Memory,
                      ghost reading: (nat, nat) -> Outcome<string, string>) returns (r: Outcome<nat, nat>)
    requires CString(text) && start <= |text| && Specifies(reading, text, stale)
    modifies out
    ensures Filled(r, reading(start, out.Length), text, out)
  {
    var ptr: nat, ptr2: nat := start, 0;
    ghost var all := reading(start, out.Length);
    BeforeNothing(all);
    while At(text, ptr) != '\"' && At(text, ptr) != '\0'
      invariant start <= ptr <= |text| && ptr2 <= out.Length
      invariant all == Before(out[..ptr2], reading(ptr, out.Length - ptr2))
      decreases |text| - ptr
    {
      var next := ReadOne(text, ptr, out, ptr2, stale, reading);
      if next.Stopped? {
        return next;
      }
      ptr2, ptr := next.value, next.rest;
    }
    r := Finish(text, ptr, out, ptr2, stale, reading);
  }

  method ReadOne(text: string, ptr: nat, out: array<char>, at: nat, stale: Memory,
                 ghost reading: (nat, nat) -> Outcome<string, string>) returns (r: Outcome<nat, nat>)
    requires ptr < |text| && text[ptr] != '\"' && at <= out.Length && Specifies(reading, text, stale)
    modifies out
    ensures r.Stopped? ==> Before(old(out[..at]), reading(ptr, out.Length - at)) == Stopped(r.why)
    ensures r.Got? ==> r.value <= out.Length && ptr < r.rest <= |text|
    ensures r.Got? ==>
      Before(old(out[..at]), reading(ptr, out.Length - at)) ==
        Before(out[..r.value], reading(r.rest, out.Length - r.value))
  {
    ReadsNext(reading, text, ptr, out.Length - at, out[..at], Decoded(text[ptr..], stale), stale);
    r := DecodeChar(text, ptr, out, at, stale);
  }

  /** Puts the zero behind the value, and steps over the quote. */
  method Finish(text: string, end: nat, out: array<char>, at: nat, stale: Memory,
                ghost reading: (nat, nat) -> Outcome<string, string>) returns (r: Outcome<nat, nat>)
    requires CString(text) && end <= |text| && at <= out.Length && (At(text, end) == '\"' || At(text, end) == '\0')
    requires Specifies(reading, text, stale)
    modifies out
    ensures Filled(r, Before(old(out[..at]), reading(end, out.Length - at)), text, out)
  {
    ReadsEnd(out[..at], text[end..], out.Length - at, stale);
    if at == out.Length {
      return Stopped(Overrun);
    }
    out[at] := '\0';
    if At(text, end) == '\"' {
      assert text[end..][1..] == text[end + 1..];
      return Got(at, end + 1);
    }
    return Got(at, end);
  }

  /** A result at a position says the same as one with the rest of the text. */
  ghost predicate Agrees<T>(r: Outcome<T, nat>, spec: Outcome<T, string>, text: string, p: nat) {
    match r
    case Stopped(why) => spec == Stopped(why)
    case Got(value, q) => p < q <= |text| && spec == Got(value, text[q..])
  }

  /** Reads a string at a position, in a buffer of the size the first pass finds. */
  method ParseString(text: string, p: nat, stale: Memory) returns (r: Outcome<string, nat>)
    requires CString(text) && p <= |text|
    ensures Agrees(r, ParseText(text[p..], stale), text, p)
  {
    if At(text, p) != '\"' {
      return Stopped(Syntax);
    }
    assert text[p..][1..] == text[p + 1..];
    var len := CountString(text, p + 1);
    if len.None? {
      return Stopped(Outside);
    }
    var out := new char[len.value + 1];
    ghost var reading := (q: nat, cells: nat) =>
      if q <= |text| then Fill(text[q..], cells, stale) else Stopped(Outside);
    var end := UnescapeInto(text, p + 1, out, stale, reading);
    match end
    case Stopped(why) => return Stopped(why);
    case Got(n, q) => return Got(out[..n], q);
  }
}
