/** Every text of JSON (RFC 8259), with white space wherever it may stand and strings and numbers however they
    are spelled, is read whole, and the tree is what the text says. */
module JsonTexts {
  import opened Resources
  import opened TaskIds
  import opened JsonStrings
  import opened JsonScans
  import opened JsonNumbers
  import opened JsonValues
  import opened JsonUnicode

  // ----- texts

  /** A value as it is written. The white space of an array or an object is that inside an empty one. */
  datatype Written =
    | Literal(value: Json) | Numeric(numeral: Numeral) | Quote(pieces: seq<Piece>)
    | List(blank: string, items: Items) | Record(blank: string, members: Members)

  /** The items of an array, each with the white space before and after it. */
  datatype Items = NoItem | AnItem(before: string, item: Written, after: string, next: Items)

  /** The members of an object, with the white space before the name, behind it, and around the value. */
  datatype Members =
    | NoMember
    | AMember(before: string, name: seq<Piece>, colon: string, space: string, item: Written, after: string,
              next: Members)

  predicate Ok(w: Written) {
    match w
    case Literal(value) => value.Null? || value.False? || value.True?
    case Numeric(numeral) => numeral.Ok()
    case Quote(pieces) => AllOk(pieces)
    case List(blank, items) => White(blank) && ItemsOk(items)
    case Record(blank, members) => White(blank) && MembersOk(members)
  }

  predicate ItemsOk(items: Items) {
    items.AnItem? ==> White(items.before) && Ok(items.item) && White(items.after) && ItemsOk(items.next)
  }

  predicate MembersOk(ms: Members) {
    ms.AMember? ==>
      && White(ms.before) && AllOk(ms.name) && White(ms.colon) && White(ms.space)
      && Ok(ms.item) && White(ms.after) && MembersOk(ms.next)
  }

  /** The text of a value in front of another text. */
  function Text(w: Written, rest: string): string
    requires Ok(w)
  {
    match w
    case Literal(value) => (if value.Null? then "null" else if value.False? then "false" else "true") + rest
    case Numeric(numeral) => numeral.Text() + rest
    case Quote(pieces) => "\"" + Spelled(pieces) + "\"" + rest
    case List(blank, items) =>
      "[" + if items.NoItem? then blank + ("]" + rest) else ItemText(items, rest)
    case Record(blank, members) =>
      "{" + if members.NoMember? then blank + ("}" + rest) else MemberText(members, rest)
  }

  function ItemText(items: Items, rest: string): string
    requires ItemsOk(items) && items.AnItem?
  {
    items.before + Text(items.item, items.after +
      if items.next.NoItem? then "]" + rest else "," + ItemText(items.next, rest))
  }

  function MemberText(ms: Members, rest: string): string
    requires MembersOk(ms) && ms.AMember?
  {
    ms.before + ("\"" + Spelled(ms.name) + "\"" + (ms.colon + (":" + (ms.space + Text(ms.item, ms.after +
      if ms.next.NoMember? then "}" + rest else "," + MemberText(ms.next, rest))))))
  }

  // ----- what they say

  /** This tree is what the text says. */
  ghost predicate Denotes(w: Written, v: Json)
    requires Ok(w)
  {
    match w
    case Literal(value) => v == value
    case Numeric(numeral) => v == Number(Denoted(numeral))
    case Quote(pieces) => v.Text? && Means(pieces, v.text)
    case List(_, items) => v.Array? && DenoteItems(items, v.child)
    case Record(_, members) => v.Object? && DenoteMembers(members, v.child)
  }

  ghost predicate DenoteItems(items: Items, c: Chain)
    requires ItemsOk(items)
  {
    if items.NoItem? then c == End
    else c.Item? && c.name == "" && Denotes(items.item, c.value) && DenoteItems(items.next, c.next)
  }

  ghost predicate DenoteMembers(ms: Members, c: Chain)
    requires MembersOk(ms)
  {
    if ms.NoMember? then c == End
    else c.Item? && Means(ms.name, c.name) && Denotes(ms.item, c.value) && DenoteMembers(ms.next, c.next)
  }

  // ----- reading

  /** A value starts with a character that is not white and closes nothing. */
  lemma TextStarts(w: Written, rest: string)
    requires Ok(w)
    ensures var s := Text(w, rest); s != "" && s[0] as int > 32 && s[0] != ']' && Skip(s) == s
  {
    match w
    case Numeric(x) => NumeralStarts(x, rest);
    case _ =>
  }

  lemma NumeralStarts(x: Numeral, rest: string)
    requires x.Ok()
    ensures var s := x.Text() + rest; s != "" && (s[0] == '-' || IsDigit(s[0]))
  {
    assert x.whole[0] in x.whole && IsDigit(x.whole[0]);
  }

  lemma LiteralReads(w: Written, rest: string, stale: Memory)
    requires Ok(w) && w.Literal?
    ensures ParseJson(Text(w, rest), stale) == Got(w.value, rest)
  {
    var literal := if w.value.Null? then "null" else if w.value.False? then "false" else "true";
    var s := Text(w, rest);
    assert s == literal + rest && s[0] == literal[0] && s[|literal|..] == rest;
  }

  lemma NumericReads(w: Written, rest: string, stale: Memory)
    requires Ok(w) && w.Numeric? && Ends(rest)
    ensures ParseJson(Text(w, rest), stale) == Got(Number(Denoted(w.numeral)), rest)
  {
    NumeralStarts(w.numeral, rest);
    NumeralReads(w.numeral, rest);
  }

  lemma QuoteReads(w: Written, rest: string, stale: Memory) returns (v: Json)
    requires Ok(w) && w.Quote?
    ensures ParseJson(Text(w, rest), stale) == Got(v, rest) && Denotes(w, v)
  {
    var value := StringReads(w.pieces, rest, stale);
    v := Json.Text(value);
    assert Text(w, rest)[0] == '\"';
  }

  /** What follows an item or a member: white space, and a comma or a bracket. */
  lemma TailStarts(after: string, tail: string)
    requires White(after) && tail != "" && tail[0] in ",]}"
    ensures Ends(after + tail) && Skip(after + tail) == tail
  {
    SkipsWhite(after, tail);
    assert after != "" ==> (after + tail)[0] == after[0];
    assert after == "" ==> after + tail == tail;
  }

  lemma {:induction false} ItemsRead(items: Items, rest: string, stale: Memory) returns (c: Chain)
    requires ItemsOk(items) && items.AnItem?
    ensures ParseItems(ItemText(items, rest), stale) == Got(c, rest) && DenoteItems(items, c)
    decreases items
  {
    var tail := if items.next.NoItem? then "]" + rest else "," + ItemText(items.next, rest);
    var more := items.after + tail;
    TailStarts(items.after, tail);
    SkipsWhite(items.before, Text(items.item, more));
    TextStarts(items.item, more);
    var v := TextReads(items.item, more, stale);
    var next := End;
    if items.next.NoItem? {
      assert tail[1..] == rest;
    } else {
      assert tail[1..] == ItemText(items.next, rest);
      next := ItemsRead(items.next, rest, stale);
    }
    c := Item("", v, next);
  }

  /** A name, its colon and the white space around it. */
  lemma NameIsRead(ms: Members, more: string, stale: Memory) returns (name: string)
    requires MembersOk(ms) && ms.AMember?
    ensures var text := "\"" + Spelled(ms.name) + "\"" + (ms.colon + (":" + more));
      ParseName(ms.before + text, stale) == Got(name, more)
    ensures Means(ms.name, name)
  {
    var tail := ms.colon + (":" + more);
    var quoted := "\"" + Spelled(ms.name) + "\"" + tail;
    name := StringReads(ms.name, tail, stale);
    SkipsWhite(ms.before, quoted);
    assert quoted[0] == '\"';
    SkipsWhite(ms.colon, ":" + more);
    assert (":" + more)[1..] == more;
  }

  /** One member, read as far as the white space behind its value. */
  lemma MemberIsRead(ms: Members, more: string, v: Json, stale: Memory) returns (name: string)
    requires MembersOk(ms) && ms.AMember? && ParseJson(Text(ms.item, more), stale) == Got(v, more)
    ensures var text := ms.colon + (":" + (ms.space + Text(ms.item, more)));
      ParseMembers(ms.before + ("\"" + Spelled(ms.name) + "\"" + text), stale) ==
        Linked(name, v, MoreMembers(Skip(more), stale))
    ensures Means(ms.name, name)
  {
    name := NameIsRead(ms, ms.space + Text(ms.item, more), stale);
    SkipsWhite(ms.space, Text(ms.item, more));
    TextStarts(ms.item, more);
  }

  lemma {:induction false} MembersRead(ms: Members, rest: string, stale: Memory) returns (c: Chain)
    requires MembersOk(ms) && ms.AMember?
    ensures ParseMembers(MemberText(ms, rest), stale) == Got(c, rest) && DenoteMembers(ms, c)
    decreases ms
  {
    var tail := if ms.next.NoMember? then "}" + rest else "," + MemberText(ms.next, rest);
    var more := ms.after + tail;
    TailStarts(ms.after, tail);
    var v := TextReads(ms.item, more, stale);
    var name := MemberIsRead(ms, more, v, stale);
    var next := End;
    if ms.next.NoMember? {
      assert tail[1..] == rest;
    } else {
      assert tail[1..] == MemberText(ms.next, rest);
      next := MembersRead(ms.next, rest, stale);
    }
    c := Item(name, v, next);
  }

  lemma {:induction false} SkipTwice(s: string)
    ensures Skip(Skip(s)) == Skip(s)
  {
    if s != "" && 0 < s[0] as int <= 32 {
      SkipTwice(s[1..]);
    }
  }

  /** An array that is not empty is read as its items are. */
  lemma ListOpens(items: Items, rest: string, stale: Memory)
    requires ItemsOk(items) && items.AnItem?
    ensures ParseJson("[" + ItemText(items, rest), stale) == ArrayOf(ParseItems(ItemText(items, rest), stale))
  {
    var t := ItemText(items, rest);
    var more := items.after + if items.next.NoItem? then "]" + rest else "," + ItemText(items.next, rest);
    SkipsWhite(items.before, Text(items.item, more));
    TextStarts(items.item, more);
    ListGoesOn("[" + t, t, stale);
  }

  lemma ListGoesOn(s: string, t: string, stale: Memory)
    requires s != "" && s[0] == '[' && s[1..] == t && !Starts(Skip(t), "]")
    ensures ParseJson(s, stale) == ArrayOf(ParseItems(t, stale))
  {
    SkipTwice(t);
  }

  lemma RecordOpens(ms: Members, rest: string, stale: Memory)
    requires MembersOk(ms) && ms.AMember?
    ensures ParseJson("{" + MemberText(ms, rest), stale) == ObjectOf(ParseMembers(MemberText(ms, rest), stale))
  {
    var t := MemberText(ms, rest);
    var quoted := t[|ms.before|..];
    assert t == ms.before + quoted && quoted[0] == '\"';
    SkipsWhite(ms.before, quoted);
    RecordGoesOn("{" + t, t, stale);
  }

  lemma RecordGoesOn(s: string, t: string, stale: Memory)
    requires s != "" && s[0] == '{' && s[1..] == t && Starts(Skip(t), "\"")
    ensures ParseJson(s, stale) == ObjectOf(ParseMembers(t, stale))
  {
    SkipTwice(t);
  }

  lemma EmptyReads(blank: string, rest: string, stale: Memory)
    requires White(blank)
    ensures ParseJson("[" + (blank + ("]" + rest)), stale) == Got(Array(End), rest)
    ensures ParseJson("{" + (blank + ("}" + rest)), stale) == Got(Object(End), rest)
  {
    SkipsWhite(blank, "]" + rest);
    SkipsWhite(blank, "}" + rest);
    assert ("[" + (blank + ("]" + rest)))[1..] == blank + ("]" + rest) && ("]" + rest)[1..] == rest;
    assert ("{" + (blank + ("}" + rest)))[1..] == blank + ("}" + rest) && ("}" + rest)[1..] == rest;
  }

  lemma {:induction false} ListReads(w: Written, rest: string, stale: Memory) returns (v: Json)
    requires Ok(w) && w.List?
    ensures ParseJson(Text(w, rest), stale) == Got(v, rest) && Denotes(w, v)
    decreases w, 0
  {
    var child := End;
    if w.items.NoItem? {
      EmptyReads(w.blank, rest, stale);
    } else {
      child := ItemsRead(w.items, rest, stale);
      ListOpens(w.items, rest, stale);
    }
    v := Array(child);
  }

  lemma {:induction false} RecordReads(w: Written, rest: string, stale: Memory) returns (v: Json)
    requires Ok(w) && w.Record?
    ensures ParseJson(Text(w, rest), stale) == Got(v, rest) && Denotes(w, v)
    decreases w, 0
  {
    var child := End;
    if w.members.NoMember? {
      EmptyReads(w.blank, rest, stale);
    } else {
      child := MembersRead(w.members, rest, stale);
      RecordOpens(w.members, rest, stale);
    }
    v := Object(child);
  }

  /** Every text of JSON is read whole, whatever follows it that no number could go on with, and whatever lies
      in memory: the tree is what the text says. */
  lemma {:induction false} TextReads(w: Written, rest: string, stale: Memory) returns (v: Json)
    requires Ok(w) && Ends(rest)
    ensures ParseJson(Text(w, rest), stale) == Got(v, rest) && Denotes(w, v)
    decreases w, 1
  {
    match w
    case Literal(value) =>
      LiteralReads(w, rest, stale);
      v := value;
    case Numeric(numeral) =>
      NumericReads(w, rest, stale);
      v := Number(Denoted(numeral));
    case Quote(_) => v := QuoteReads(w, rest, stale);
    case List(_, _) => v := ListReads(w, rest, stale);
    case Record(_, _) => v := RecordReads(w, rest, stale);
  }
}
