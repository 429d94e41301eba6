/** A test on a whole text under which parsing it never leaves the text or a buffer. */
module JsonBounds {
  import opened Resources
  import opened TaskIds
  import opened JsonStrings
  import opened JsonScans
  import opened JsonNumbers
  import opened JsonValues

  /** What is left of a text. */
  predicate IsRest(rest: string, s: string) {
    |rest| <= |s| && rest == s[|s| - |rest|..]
  }

  lemma RestOfRest(a: string, b: string, c: string)
    requires IsRest(a, b) && IsRest(b, c)
    ensures IsRest(a, c)
  {
  }

  lemma RestAt(s: string, n: nat)
    requires n <= |s|
    ensures IsRest(s[n..], s)
  {
  }

  /** Both got in bounds and left with a tame rest, or stopped at a fault in the text. */
  ghost predicate Safe<T>(r: Outcome<T, string>) {
    match r case Got(_, rest) => Tame(rest) case Stopped(why) => why.Syntax?
  }

  lemma TameIsRest(rest: string, s: string)
    requires Tame(s) && IsRest(rest, s)
    ensures Tame(rest)
  {
    TameRest(s, |s| - |rest|);
  }

  // ----- what reading leaves

  lemma {:induction false} SkipRest(s: string)
    ensures IsRest(Skip(s), s)
  {
    if s != "" && 0 < s[0] as int <= 32 {
      SkipRest(s[1..]);
      RestAt(s, 1);
      RestOfRest(Skip(s[1..]), s[1..], s);
    }
  }

  lemma {:induction false} DigitRunRest(s: string, n: nat)
    ensures IsRest(DigitRun(s, n).1, s)
  {
    if StartsDigit(s) {
      var m := n * 10 + (s[0] as int - '0' as int);
      DigitRunRest(s[1..], m);
      RestAt(s, 1);
      RestOfRest(DigitRun(s[1..], m).1, s[1..], s);
    }
  }

  lemma DropRest(s: string, chars: string)
    ensures IsRest(Drop(s, chars), s)
  {
  }

  lemma IntegerPartRest(s: string)
    ensures IsRest(IntegerPart(s).1, s)
  {
    var rest := Drop(s, "0");
    DropRest(s, "0");
    DigitRunRest(rest, 0);
    RestOfRest(IntegerPart(s).1, rest, s);
  }

  lemma FractionPartRest(s: string, n: nat)
    ensures IsRest(FractionPart(s, n).2, s)
  {
    if Starts(s, ".") && StartsDigit(s[1..]) {
      DigitRunRest(s[1..], n);
      RestOfRest(DigitRun(s[1..], n).1, s[1..], s);
    }
  }

  lemma ExponentPartRest(s: string)
    ensures IsRest(ExponentPart(s).1, s)
  {
    if Starts(s, "eE") {
      var digits := Drop(s[1..], "+-");
      DropRest(s[1..], "+-");
      RestOfRest(digits, s[1..], s);
      DigitRunRest(digits, 0);
      RestOfRest(DigitRun(digits, 0).1, digits, s);
    }
  }

  lemma NumeralRest(s: string)
    ensures IsRest(ParseNumeral(s).1, s)
  {
    var positive := Drop(s, "-");
    var (n, more) := IntegerPart(positive);
    DropRest(s, "-");
    IntegerPartRest(positive);
    RestOfRest(more, positive, s);
    FractionPartRest(more, n);
    var rest := FractionPart(more, n).2;
    RestOfRest(rest, more, s);
    ExponentPartRest(rest);
    RestOfRest(ExponentPart(rest).1, rest, s);
  }

  lemma {:induction false} FillRest(s: string, cells: nat, stale: Memory)
    ensures var r := Fill(s, cells, stale); r.Got? ==> IsRest(r.rest, s)
    decreases |s|
  {
    if s != "" && s[0] != '\"' {
      var d := Decoded(s, stale);
      if |d.0| <= cells && d.1 <= |s| {
        FillRest(s[d.1..], cells - |d.0|, stale);
        RestAt(s, d.1);
      }
    }
  }

  lemma TextIsSafe(s: string, stale: Memory)
    requires Tame(s)
    ensures Safe(ParseText(s, stale))
  {
    if s != "" && s[0] == '\"' {
      TameRest(s, 1);
      TameReads(s[1..], stale);
      FillRest(s[1..], Counted(s[1..], false) + 1, stale);
      TameIsRest(ReadText(s[1..], stale).rest, s[1..]);
    }
  }

  lemma SkipIsTame(s: string)
    requires Tame(s)
    ensures Tame(Skip(s))
  {
    SkipRest(s);
    TameIsRest(Skip(s), s);
  }

  // ----- the whole text

  /** Whatever lies in memory, parsing a tame text never leaves the text, and no string in it is read over
      the buffer counted for it: it stops at a fault in the text, or not at all. */
  lemma {:induction false} TameParses(s: string, stale: Memory)
    requires Tame(s)
    ensures Safe(ParseJson(s, stale))
    decreases |s|, 0
  {
    if "null" <= s || "true" <= s {
      TameRest(s, 4);
    } else if "false" <= s {
      TameRest(s, 5);
    } else if s != "" {
      if s[0] == '\"' {
        TextIsSafe(s, stale);
      } else if s[0] == '-' || IsDigit(s[0]) {
        NumeralRest(s);
        TameIsRest(ParseNumeral(s).1, s);
      } else if s[0] == '[' || s[0] == '{' {
        InnerIsSafe(s, Skip(s[1..]), stale);
      }
    }
  }

  lemma {:induction false} InnerIsSafe(s: string, inner: string, stale: Memory)
    requires Tame(s) && s != "" && inner == Skip(s[1..]) && (s[0] == '[' || s[0] == '{')
    ensures inner != "" ==> Tame(inner[1..])
    ensures if s[0] == '[' then Safe(ParseItems(inner, stale)) else Safe(ParseMembers(inner, stale))
    decreases |inner|, 3
  {
    TameRest(s, 1);
    SkipIsTame(s[1..]);
    if inner != "" {
      TameRest(inner, 1);
    }
    if s[0] == '[' {
      ItemsAreSafe(inner, stale);
    } else {
      MembersAreSafe(inner, stale);
    }
  }

  lemma {:induction false} ItemsAreSafe(s: string, stale: Memory)
    requires Tame(s)
    ensures Safe(ParseItems(s, stale))
    decreases |s|, 1
  {
    SkipIsTame(s);
    TameParses(Skip(s), stale);
    var r := ParseJson(Skip(s), stale);
    if r.Got? {
      SkipIsTame(r.rest);
      MoreIsSafe(Skip(r.rest), stale);
    }
  }

  /** After an item or a member. */
  lemma {:induction false} MoreIsSafe(s: string, stale: Memory)
    requires Tame(s)
    ensures Safe(MoreItems(s, stale)) && Safe(MoreMembers(s, stale))
    decreases |s|, 2
  {
    if s != "" {
      TameRest(s, 1);
      if Starts(s, ",") {
        ItemsAreSafe(s[1..], stale);
        MembersAreSafe(s[1..], stale);
      }
    }
  }

  lemma NameIsSafe(s: string, stale: Memory)
    requires Tame(s)
    ensures Safe(ParseName(s, stale))
  {
    SkipIsTame(s);
    TextIsSafe(Skip(s), stale);
    var r := ParseText(Skip(s), stale);
    if r.Got? {
      SkipIsTame(r.rest);
      if Starts(Skip(r.rest), ":") {
        TameRest(Skip(r.rest), 1);
      }
    }
  }

  lemma {:induction false} MembersAreSafe(s: string, stale: Memory)
    requires Tame(s)
    ensures Safe(ParseMembers(s, stale))
    decreases |s|, 1
  {
    NameIsSafe(s, stale);
    var name := ParseName(s, stale);
    if name.Got? {
      SkipIsTame(name.rest);
      TameParses(Skip(name.rest), stale);
      var value := ParseJson(Skip(name.rest), stale);
      if value.Got? {
        SkipIsTame(value.rest);
        MoreIsSafe(Skip(value.rest), stale);
      }
    }
  }
}
