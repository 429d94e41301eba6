/** Reading a printed tree consumes exactly what was printed and gives the tree back. */
module JsonRoundTrips {
  import opened Resources
  import opened TaskIds
  import opened JsonStrings
  import opened JsonScans
  import opened JsonNumbers
  import opened JsonValues

  /** White space before an item or a member does not matter. */
  lemma WhiteBefore(w: string, s: string, stale: Memory)
    requires White(w)
    ensures ParseItems(w + s, stale) == ParseItems(s, stale) && ParseMembers(w + s, stale) == ParseMembers(s, stale)
  {
    SkipsWhite(w, s);
  }

  lemma LiteralParses(v: Json, rest: string, stale: Memory)
    requires v.Null? || v.False? || v.True?
    ensures ParseJson(Print(v, 0, false) + rest, stale) == Got(v, rest)
  {
    var s := Print(v, 0, false) + rest;
    assert s[0] == Print(v, 0, false)[0];
    assert s[|Print(v, 0, false)|..] == rest;
  }

  lemma NumberParses(v: Json, rest: string, stale: Memory)
    requires v.Number? && Printable(v) && Ends(rest)
    ensures ParseJson(Print(v, 0, false) + rest, stale) == Got(Reread(v), rest)
  {
    var shown := Shown(v.number.sign, v.number.value);
    var s := Decimal(shown) + rest;
    ItoaReads(if shown < 0 then -shown else shown);
    assert s[0] == '-' || IsDigit(s[0]);
    DecimalParses(shown, rest);
  }

  lemma TextParses(text: string, rest: string, stale: Memory)
    requires CString(text)
    ensures ParseJson(Quoted(text) + rest, stale) == Got(Text(text), rest)
  {
    QuotedParses(text, rest, stale);
    assert (Quoted(text) + rest)[0] == '\"';
  }

  /** The layout does not change what simple values look like. */
  lemma SimpleParses(v: Json, depth: nat, fmt: bool, rest: string, stale: Memory)
    requires Printable(v) && Ends(rest) && !v.Array? && !v.Object?
    ensures ParseJson(Print(v, depth, fmt) + rest, stale) == Got(Reread(v), rest)
  {
    match v
    case Number(_) => NumberParses(v, rest, stale);
    case Text(text) => TextParses(text, rest, stale);
    case _ => LiteralParses(v, rest, stale);
  }

  // ----- arrays

  /** The text of the items after the first, with the bracket that ends them and what follows. */
  function ItemsTail(next: Chain, depth: nat, fmt: bool, rest: string): string
    requires AllPrintable(next)
  {
    if next.End? then "]" + rest
    else "," + If(fmt, " ") + JoinItems(PrintAll(next, depth, fmt), fmt) + "]" + rest
  }

  lemma ItemsText(c: Chain, depth: nat, fmt: bool, rest: string)
    requires AllPrintable(c) && c.Item?
    ensures JoinItems(PrintAll(c, depth, fmt), fmt) + "]" + rest ==
      Print(c.value, depth, fmt) + ItemsTail(c.next, depth, fmt, rest)
  {
    var entries, printed := PrintAll(c, depth, fmt), Print(c.value, depth, fmt);
    assert entries[1..] == PrintAll(c.next, depth, fmt);
    if c.next.End? {
      assert |entries| == 1;
      Assoc(printed, "]", rest);
    } else {
      var more := JoinItems(entries[1..], fmt);
      assert PrintAll(c.next, depth, fmt) != [];
      ItemText(printed, ",", If(fmt, " "), more, "]", rest);
    }
  }

  lemma ItemText(value: string, comma: string, space: string, more: string, close: string, rest: string)
    ensures value + comma + space + more + close + rest == value + (comma + space + more + close + rest)
  {
    Assoc(value, comma, space);
    Assoc(value, comma + space, more);
    Assoc(value, comma + space + more, close);
    Assoc(value, comma + space + more + close, rest);
  }

  lemma TailEnds(next: Chain, depth: nat, fmt: bool, rest: string)
    requires AllPrintable(next)
    ensures var t := ItemsTail(next, depth, fmt, rest); Ends(t) && Skip(t) == t
  {
  }

  lemma {:induction false} ItemsParse(c: Chain, depth: nat, fmt: bool, rest: string, stale: Memory)
    requires AllPrintable(c) && c.Item?
    ensures ParseItems(JoinItems(PrintAll(c, depth, fmt), fmt) + "]" + rest, stale) == Got(RereadAll(c, false), rest)
    decreases c, 0
  {
    var tail := ItemsTail(c.next, depth, fmt, rest);
    ItemsText(c, depth, fmt, rest);
    TailEnds(c.next, depth, fmt, rest);
    PrintStarts(c.value, depth, fmt);
    ValueParses(c.value, depth, fmt, tail, stale);
    ItemsTailParses(c.next, depth, fmt, rest, stale);
  }

  lemma {:induction false} ItemsTailParses(next: Chain, depth: nat, fmt: bool, rest: string, stale: Memory)
    requires AllPrintable(next)
    ensures MoreItems(ItemsTail(next, depth, fmt, rest), stale) == Got(RereadAll(next, false), rest)
    decreases next, 1
  {
    var tail := ItemsTail(next, depth, fmt, rest);
    if next.End? {
      assert tail[1..] == rest;
    } else {
      var more := JoinItems(PrintAll(next, depth, fmt), fmt) + "]" + rest;
      assert tail[1..] == If(fmt, " ") + more;
      WhiteBefore(If(fmt, " "), more, stale);
      ItemsParse(next, depth, fmt, rest, stale);
    }
  }

  lemma ArrayOpens(s: string, inner: string, stale: Memory)
    requires s != "" && s[0] == '[' && s[1..] == inner && Skip(inner) == inner
    ensures ParseJson(s, stale) ==
      if Starts(inner, "]") then Got(Array(End), inner[1..]) else ArrayOf(ParseItems(inner, stale))
  {
  }

  lemma {:induction false} ArrayParses(v: Json, depth: nat, fmt: bool, rest: string, stale: Memory)
    requires Printable(v) && v.Array?
    ensures ParseJson(Print(v, depth, fmt) + rest, stale) == Got(Reread(v), rest)
    decreases v, 0
  {
    var items := JoinItems(PrintAll(v.child, depth + 1, fmt), fmt);
    var inner := items + "]" + rest;
    Assoc("[" + items, "]", rest);
    Assoc("[", items, "]" + rest);
    Assoc(items, "]", rest);
    if v.child.End? {
      assert inner == "]" + rest && inner[1..] == rest;
    } else {
      ItemsText(v.child, depth + 1, fmt, rest);
      PrintStarts(v.child.value, depth + 1, fmt);
      ItemsParse(v.child, depth + 1, fmt, rest, stale);
    }
    ArrayOpens("[" + items + "]" + rest, inner, stale);
  }

  // ----- objects

  /** What follows the value of a member: the other members, the brace that ends them, and the rest. */
  function MembersTail(next: Chain, depth: nat, fmt: bool, close: string): string
    requires AllPrintable(next) && AllNamed(next)
  {
    If(next.Item?, ",") + If(fmt, "\n") + JoinMembers(PrintMembers(next, depth, fmt), depth, fmt) + close
  }

  lemma MembersText(c: Chain, depth: nat, fmt: bool, close: string)
    requires AllPrintable(c) && AllNamed(c) && c.Item?
    ensures JoinMembers(PrintMembers(c, depth, fmt), depth, fmt) + close
      == If(fmt, Tabs(depth)) + (Quoted(c.name)
        + (":" + (If(fmt, "\t") + (Print(c.value, depth, fmt) + MembersTail(c.next, depth, fmt, close)))))
  {
    var members, printed := PrintMembers(c, depth, fmt), Print(c.value, depth, fmt);
    assert members[1..] == PrintMembers(c.next, depth, fmt);
    assert |members| == 1 <==> c.next.End?;
    var more := JoinMembers(PrintMembers(c.next, depth, fmt), depth, fmt);
    MemberText(If(fmt, Tabs(depth)), Quoted(c.name), If(fmt, "\t"), printed, If(c.next.Item?, ","), If(fmt, "\n"), more,
      close);
  }

  lemma MemberText(tabs: string, name: string, tab: string, value: string, comma: string, line: string, more: string,
                   close: string)
    ensures (tabs + name + ":" + tab + value + comma + line + more) + close
      == tabs + (name + (":" + (tab + (value + (comma + line + more + close)))))
  {
    var front := tabs + name + ":" + tab + value;
    Assoc(front + comma, line, more);
    Assoc(front, comma, line + more);
    Assoc(comma, line, more);
    Assoc(front, comma + line + more, close);
    var tail := comma + line + more + close;
    Assoc(tabs + name + ":" + tab, value, tail);
    Assoc(tabs + name + ":", tab, value + tail);
    Assoc(tabs + name, ":", tab + (value + tail));
    Assoc(tabs, name, ":" + (tab + (value + tail)));
  }

  /** How an object ends: layout, a brace and the rest. */
  ghost predicate Closes(close: string, rest: string) {
    exists w :: White(w) && close == w + "}" + rest
  }

  lemma ClosingParses(close: string, rest: string, stale: Memory)
    requires Closes(close, rest)
    ensures Ends(close) && MoreMembers(Skip(close), stale) == Got(End, rest)
  {
    var w :| White(w) && close == w + "}" + rest;
    assert close == w + ("}" + rest);
    SkipsWhite(w, "}" + rest);
    assert ("}" + rest)[1..] == rest;
  }

  lemma {:induction false} MembersTailParses(next: Chain, depth: nat, fmt: bool, close: string, rest: string,
                                             stale: Memory)
    requires AllPrintable(next) && AllNamed(next) && Closes(close, rest)
    ensures var tail := MembersTail(next, depth, fmt, close);
      Ends(tail) && MoreMembers(Skip(tail), stale) == Got(RereadAll(next, true), rest)
    decreases next, 1
  {
    var tail := MembersTail(next, depth, fmt, close);
    if next.End? {
      assert tail == If(fmt, "\n") + close;
      SkipsWhite(If(fmt, "\n"), close);
      ClosingParses(close, rest, stale);
    } else {
      var members, line := JoinMembers(PrintMembers(next, depth, fmt), depth, fmt), If(fmt, "\n");
      var more := members + close;
      Assoc("," + line, members, close);
      Assoc(",", line, more);
      WhiteBefore(If(fmt, "\n"), more, stale);
      MembersParse(next, depth, fmt, close, rest, stale);
    }
  }

  lemma {:induction false} MembersParse(c: Chain, depth: nat, fmt: bool, close: string, rest: string, stale: Memory)
    requires AllPrintable(c) && AllNamed(c) && c.Item? && Closes(close, rest)
    ensures ParseMembers(JoinMembers(PrintMembers(c, depth, fmt), depth, fmt) + close, stale) ==
      Got(RereadAll(c, true), rest)
    decreases c, 0
  {
    var tail := MembersTail(c.next, depth, fmt, close);
    MembersText(c, depth, fmt, close);
    MembersTailParses(c.next, depth, fmt, close, rest, stale);
    ValueParses(c.value, depth, fmt, tail, stale);
    MemberReads(c.name, Print(c.value, depth, fmt), Reread(c.value), tail, depth, fmt, stale) by {
      PrintStarts(c.value, depth, fmt);
    }
  }

  /** One member, read from its name to its value. */
  lemma MemberReads(name: string, printed: string, value: Json, tail: string, depth: nat, fmt: bool, stale: Memory)
    requires CString(name) && printed != "" && printed[0] as int > 32
    requires ParseJson(printed + tail, stale) == Got(value, tail)
    ensures ParseMembers(If(fmt, Tabs(depth)) + (Quoted(name) + (":" + (If(fmt, "\t") + (printed + tail)))), stale)
      == Linked(name, value, MoreMembers(Skip(tail), stale))
  {
    var more := If(fmt, "\t") + (printed + tail);
    WhiteBefore(If(fmt, Tabs(depth)), Quoted(name) + (":" + more), stale);
    NameReads(name, more, stale);
    SkipsWhite(If(fmt, "\t"), printed + tail);
  }

  lemma NameReads(name: string, more: string, stale: Memory)
    requires CString(name)
    ensures ParseName(Quoted(name) + (":" + more), stale) == Got(name, more)
  {
    QuotedParses(name, ":" + more, stale);
    assert (Quoted(name) + (":" + more))[0] == '\"';
    assert (":" + more)[1..] == more;
  }

  lemma ObjectText(line: string, members: string, tabs: string, rest: string)
    ensures var s := "{" + line + members + tabs + "}" + rest;
      s[0] == '{' && s[1..] == line + (members + (tabs + "}" + rest))
  {
    var close := tabs + "}" + rest;
    Assoc("{" + line + members, tabs, "}");
    Assoc("{" + line + members, tabs + "}", rest);
    Assoc("{" + line, members, close);
    Assoc("{", line, members + close);
  }

  lemma ObjectOpens(s: string, line: string, inner: string, stale: Memory)
    requires s != "" && s[0] == '{' && s[1..] == line + inner && White(line)
    ensures ParseJson(s, stale) ==
      if Starts(Skip(inner), "}") then Got(Object(End), Skip(inner)[1..])
      else ObjectOf(ParseMembers(Skip(inner), stale))
  {
    SkipsWhite(line, inner);
    assert Skip(s[1..]) == Skip(inner);
  }

  lemma ClosingText(tabs: string, rest: string)
    requires White(tabs)
    ensures var close := tabs + "}" + rest; Closes(close, rest) && Skip(close) == "}" + rest
  {
    Assoc(tabs, "}", rest);
    SkipsWhite(tabs, "}" + rest);
  }

  lemma NoMembers(depth: nat, fmt: bool)
    ensures JoinMembers(PrintMembers(End, depth, fmt), depth, fmt) == ""
  {
  }

  lemma {:induction false} ObjectParses(v: Json, depth: nat, fmt: bool, rest: string, stale: Memory)
    requires Printable(v) && v.Object?
    ensures ParseJson(Print(v, depth, fmt) + rest, stale) == Got(Reread(v), rest)
    decreases v, 0
  {
    var child, tabs, line := v.child, If(fmt, Tabs(depth)), If(fmt, "\n");
    var close := tabs + "}" + rest;
    var members := JoinMembers(PrintMembers(child, depth + 1, fmt), depth + 1, fmt);
    ObjectText(line, members, tabs, rest);
    ObjectOpens("{" + line + members + tabs + "}" + rest, line, members + close, stale);
    ClosingText(tabs, rest);
    if child.End? {
      NoMembers(depth + 1, fmt);
      assert members + close == close;
      assert ("}" + rest)[1..] == rest;
    } else {
      ObjectStarts(child, depth + 1, fmt, close, stale);
      MembersParse(child, depth + 1, fmt, close, rest, stale);
    }
  }

  /** A printed object that is not empty goes on with a quote. */
  lemma ObjectStarts(c: Chain, depth: nat, fmt: bool, close: string, stale: Memory)
    requires AllPrintable(c) && AllNamed(c) && c.Item?
    ensures var inner := JoinMembers(PrintMembers(c, depth, fmt), depth, fmt) + close;
      Starts(Skip(inner), "\"") && ParseMembers(Skip(inner), stale) == ParseMembers(inner, stale)
  {
    MembersText(c, depth, fmt, close);
    var more := Quoted(c.name)
      + (":" + (If(fmt, "\t") + (Print(c.value, depth, fmt) + MembersTail(c.next, depth, fmt, close))));
    SkipsWhite(If(fmt, Tabs(depth)), more);
    WhiteBefore(If(fmt, Tabs(depth)), more, stale);
    assert more[0] == '\"';
  }

  // ----- all values

  lemma {:induction false} ValueParses(v: Json, depth: nat, fmt: bool, rest: string, stale: Memory)
    requires Printable(v) && Ends(rest)
    ensures ParseJson(Print(v, depth, fmt) + rest, stale) == Got(Reread(v), rest)
    decreases v, 1
  {
    match v
    case Array(_) => ArrayParses(v, depth, fmt, rest, stale);
    case Object(_) => ObjectParses(v, depth, fmt, rest, stale);
    case _ => SimpleParses(v, depth, fmt, rest, stale);
  }

  // ----- printed texts are C strings

  lemma {:induction false} EscapedIsText(s: string)
    requires CString(s)
    ensures CString(Escaped(s))
  {
    if s != "" {
      EscapedIsText(s[1..]);
    }
  }

  lemma ItoaIsText(n: nat)
    ensures CString(Itoa(n))
  {
    ItoaReads(n);
    assert forall i | 0 <= i < |Itoa(n)| :: Itoa(n)[i] in Itoa(n);
  }

  lemma BothText(a: string, b: string)
    requires CString(a) && CString(b)
    ensures CString(a + b)
  {
  }

  lemma BracesText(line: string, members: string, tabs: string)
    requires CString(line) && CString(members) && CString(tabs)
    ensures CString("{" + line + members + tabs + "}")
  {
    BothText("{" + line, members);
    BothText("{" + line + members, tabs);
  }

  lemma MemberIsText(m: (string, string), last: bool, depth: nat, fmt: bool)
    requires CString(m.0) && CString(m.1)
    ensures CString(Member(m, last, depth, fmt))
  {
    var named := If(fmt, Tabs(depth)) + m.0 + ":" + If(fmt, "\t");
    assert CString(If(fmt, Tabs(depth)) + m.0);
    assert CString(named);
    assert CString(named + m.1);
  }

  lemma {:induction false} PrintIsText(v: Json, depth: nat, fmt: bool)
    requires Printable(v)
    ensures CString(Print(v, depth, fmt))
    decreases v, 0
  {
    match v
    case Number(number) =>
      var shown := Shown(number.sign, number.value);
      ItoaIsText(if shown < 0 then -shown else shown);
    case Text(text) => EscapedIsText(text);
    case Array(child) => ItemsAreText(child, depth + 1, fmt);
    case Object(child) =>
      MembersAreText(child, depth + 1, fmt);
      var line, members := If(fmt, "\n"), JoinMembers(PrintMembers(child, depth + 1, fmt), depth + 1, fmt);
      BracesText(line, members, If(fmt, Tabs(depth)));
    case _ =>
  }

  lemma {:induction false} ItemsAreText(c: Chain, depth: nat, fmt: bool)
    requires AllPrintable(c)
    ensures CString(JoinItems(PrintAll(c, depth, fmt), fmt))
    decreases c, 1
  {
    if c.Item? {
      PrintIsText(c.value, depth, fmt);
      ItemsAreText(c.next, depth, fmt);
      assert PrintAll(c, depth, fmt)[1..] == PrintAll(c.next, depth, fmt);
    }
  }

  lemma {:induction false} MembersAreText(c: Chain, depth: nat, fmt: bool)
    requires AllPrintable(c) && AllNamed(c)
    ensures CString(JoinMembers(PrintMembers(c, depth, fmt), depth, fmt))
    decreases c, 1
  {
    if c.Item? {
      EscapedIsText(c.name);
      PrintIsText(c.value, depth, fmt);
      MembersAreText(c.next, depth, fmt);
      var members := PrintMembers(c, depth, fmt);
      assert members[1..] == PrintMembers(c.next, depth, fmt);
      MemberIsText(members[0], |members| == 1, depth, fmt);
    }
  }

  /** For every printable tree, with or without layout, and whatever lies in memory: reading its text
      consumes exactly the text. If its integers are below a bound below which a long double is exact, the
      same tree comes back, up to sign flags, exactly if every negative integer is marked as signed. On
      every platform the bound is at least 2 to the 53rd, and what is read below it needs no settling. Where
      it is 2 to the 63rd, larger integers do not come back, for their conversion to 64 bits is undefined. */
  lemma RoundTrip(v: Json, fmt: bool, bound: nat, stale: Memory)
    requires Printable(v) && EXACT <= bound <= TWO_TO_THE_63
    ensures CString(Print(v, 0, fmt))
    ensures var r := ParseJson(Print(v, 0, fmt), stale);
      && r.Got? && r.rest == ""
      && (IntegersBelow(v, bound) ==> (Plain(Settled(r.value, bound)) == Plain(v) <==> WellSigned(v)))
      && (IntegersBelow(v, EXACT) ==> (Plain(r.value) == Plain(v) <==> WellSigned(v)))
      && (Plain(Settled(r.value, TWO_TO_THE_63)) == Plain(v) <==> IntegersBelow(v, TWO_TO_THE_63) && WellSigned(v))
  {
    assert Print(v, 0, fmt) + "" == Print(v, 0, fmt);
    PrintIsText(v, 0, fmt);
    ValueParses(v, 0, fmt, "", stale);
    SettlesAsSigned(v, bound);
    SettlesAsSigned(v, EXACT);
    SettlesAsSigned(v, TWO_TO_THE_63);
    RereadIsPortable(v);
  }

  lemma SettlesAsSigned(v: Json, bound: nat)
    requires Printable(v) && EXACT <= bound <= TWO_TO_THE_63
    ensures Plain(Settled(Reread(v), bound)) == Plain(v) <==> IntegersBelow(v, bound) && WellSigned(v)
  {
    RereadIsSame(v, bound);
    SignsDecide(v, bound);
  }
}
