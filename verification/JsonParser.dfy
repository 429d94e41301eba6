/** The parser as the code runs it: a position that moves through the text, and loops over the items of
    arrays and objects. */
module JsonParsers {
  import opened Resources
  import opened TaskIds
  import opened JsonStrings
  import opened JsonScans
  import opened JsonNumbers
  import opened JsonValues

  method SkipFrom(text: string, p: nat) returns (q: nat)
    requires p <= |text|
    ensures p <= q <= |text| && Skip(text[p..]) == text[q..]
  {
    q := p;
    while At(text, q) != '\0' && At(text, q) as int <= 32
      invariant p <= q <= |text| && Skip(text[p..]) == Skip(text[q..])
      decreases |text| - q
    {
      assert text[q..][1..] == text[q + 1..];
      q := q + 1;
    }
  }

  /** Appends a chain to a chain. */
  function Concat(a: Chain, b: Chain): Chain {
    match a case End => b case Item(name, value, next) => Item(name, value, Concat(next, b))
  }

  function Glued(done: Chain, r: Outcome<Chain, string>): Outcome<Chain, string> {
    match r case Stopped(why) => Stopped(why) case Got(more, rest) => Got(Concat(done, more), rest)
  }

  lemma {:induction false} ConcatAssoc(a: Chain, b: Chain, c: Chain)
    ensures Concat(Concat(a, b), c) == Concat(a, Concat(b, c))
  {
    if a.Item? {
      ConcatAssoc(a.next, b, c);
    }
  }

  lemma {:induction false} ConcatEnd(a: Chain)
    ensures Concat(a, End) == a
  {
    if a.Item? {
      ConcatEnd(a.next);
    }
  }

  lemma GluedItem(done: Chain, name: string, value: Json, r: Outcome<Chain, string>)
    ensures Glued(done, Linked(name, value, r)) == Glued(Concat(done, Item(name, value, End)), r)
  {
    if r.Got? {
      ConcatAssoc(done, Item(name, value, End), r.value);
    }
  }

  lemma GluedLast(done: Chain, rest: string)
    ensures Glued(done, Got(End, rest)) == Got(done, rest)
  {
    ConcatEnd(done);
  }

  method ParseValue(text: string, p: nat, stale: Memory) returns (r: Outcome<Json, nat>)
    requires CString(text) && p <= |text|
    ensures Agrees(r, ParseJson(text[p..], stale), text, p)
    decreases |text| - p, 1
  {
    ghost var s := text[p..];
    if "null" <= text[p..] {
      assert s[4..] == text[p + 4..];
      return Got(Null, p + 4);
    }
    if "false" <= text[p..] {
      assert s[5..] == text[p + 5..];
      return Got(False, p + 5);
    }
    if "true" <= text[p..] {
      assert s[4..] == text[p + 4..];
      return Got(True, p + 4);
    }
    if At(text, p) == '\"' {
      var string_ := ParseString(text, p, stale);
      return if string_.Stopped? then Stopped(string_.why) else Got(Text(string_.value), string_.rest);
    }
    if At(text, p) == '-' || '0' <= At(text, p) <= '9' {
      NumeralIsShorter(s);
      var number, q := ParseNumber(text, p);
      return Got(Number(number), q);
    }
    if At(text, p) == '[' {
      r := ParseArray(text, p, stale);
    } else if At(text, p) == '{' {
      r := ParseObject(text, p, stale);
    } else {
      return Stopped(Syntax);
    }
  }

  method ParseArray(text: string, p: nat, stale: Memory) returns (r: Outcome<Json, nat>)
    requires CString(text) && p < |text| && text[p] == '['
    ensures Agrees(r, ParseJson(text[p..], stale), text, p)
    decreases |text| - p, 0
  {
    assert text[p..][1..] == text[p + 1..];
    var start := SkipFrom(text, p + 1);
    if At(text, start) == ']' {
      assert text[start..][1..] == text[start + 1..];
      return Got(Array(End), start + 1);
    }
    var items := ParseChain(text, start, stale);
    return if items.Stopped? then Stopped(items.why) else Got(Array(items.value), items.rest);
  }

  /** The items of an array, one after the other. */
  method ParseChain(text: string, start: nat, stale: Memory) returns (r: Outcome<Chain, nat>)
    requires CString(text) && start <= |text|
    ensures Agrees(r, ParseItems(text[start..], stale), text, start)
    decreases |text| - start, 3
  {
    var child := ParseItem(text, start, stale);
    if child.Stopped? {
      return Stopped(child.why);
    }
    ghost var spec := ParseItems(text[start..], stale);
    GluedNothing(spec);
    GluedItem(End, "", child.value, MoreItems(text[child.rest..], stale));
    r := MoreChain(text, child.rest, Item("", child.value, End), spec, stale);
  }

  method MoreChain(text: string, at: nat, first: Chain, ghost spec: Outcome<Chain, string>, stale: Memory)
    returns (r: Outcome<Chain, nat>)
    requires CString(text) && at <= |text| && spec == Glued(first, MoreItems(text[at..], stale))
    ensures Agrees(r, spec, text, at)
    decreases |text| - at, 4
  {
    var done, value := first, at;
    while At(text, value) == ','
      invariant at <= value <= |text| && spec == Glued(done, MoreItems(text[value..], stale))
      decreases |text| - value
    {
      assert text[value..][1..] == text[value + 1..];
      var child := ParseItem(text, value + 1, stale);
      if child.Stopped? {
        return Stopped(child.why);
      }
      GluedItem(done, "", child.value, MoreItems(text[child.rest..], stale));
      done, value := Concat(done, Item("", child.value, End)), child.rest;
    }
    if At(text, value) == ']' {
      assert text[value..][1..] == text[value + 1..];
      GluedLast(done, text[value + 1..]);
      return Got(done, value + 1);
    }
    return Stopped(Syntax);
  }

  lemma GluedNothing(r: Outcome<Chain, string>)
    ensures Glued(End, r) == r
  {
  }

  /** One item, with the white space around it. */
  method ParseItem(text: string, p: nat, stale: Memory) returns (r: Outcome<Json, nat>)
    requires CString(text) && p <= |text|
    ensures r.Stopped? ==> ParseItems(text[p..], stale) == Stopped(r.why)
    ensures r.Got? ==> p < r.rest <= |text|
    ensures r.Got? ==> ParseItems(text[p..], stale) == Linked("", r.value, MoreItems(text[r.rest..], stale))
    decreases |text| - p, 2
  {
    var q := SkipFrom(text, p);
    var value := ParseValue(text, q, stale);
    if value.Stopped? {
      return Stopped(value.why);
    }
    var end := SkipFrom(text, value.rest);
    return Got(value.value, end);
  }

  method ParseObject(text: string, p: nat, stale: Memory) returns (r: Outcome<Json, nat>)
    requires CString(text) && p < |text| && text[p] == '{'
    ensures Agrees(r, ParseJson(text[p..], stale), text, p)
    decreases |text| - p, 0
  {
    assert text[p..][1..] == text[p + 1..];
    var start := SkipFrom(text, p + 1);
    if At(text, start) == '}' {
      assert text[start..][1..] == text[start + 1..];
      return Got(Object(End), start + 1);
    }
    var members := ParseNamed(text, start, stale);
    return if members.Stopped? then Stopped(members.why) else Got(Object(members.value), members.rest);
  }

  /** The members of an object, one after the other. */
  method ParseNamed(text: string, start: nat, stale: Memory) returns (r: Outcome<Chain, nat>)
    requires CString(text) && start <= |text|
    ensures Agrees(r, ParseMembers(text[start..], stale), text, start)
    decreases |text| - start, 3
  {
    var name, child := ParseMember(text, start, stale);
    if child.Stopped? {
      return Stopped(child.why);
    }
    ghost var spec := ParseMembers(text[start..], stale);
    GluedNothing(spec);
    GluedItem(End, name, child.value, MoreMembers(text[child.rest..], stale));
    r := MoreNamed(text, child.rest, Item(name, child.value, End), spec, stale);
  }

  method MoreNamed(text: string, at: nat, first: Chain, ghost spec: Outcome<Chain, string>, stale: Memory)
    returns (r: Outcome<Chain, nat>)
    requires CString(text) && at <= |text| && spec == Glued(first, MoreMembers(text[at..], stale))
    ensures Agrees(r, spec, text, at)
    decreases |text| - at, 4
  {
    var done, value := first, at;
    while At(text, value) == ','
      invariant at <= value <= |text| && spec == Glued(done, MoreMembers(text[value..], stale))
      decreases |text| - value
    {
      var next := LinkMember(text, value, done, spec, stale);
      if next.Stopped? {
        return Stopped(next.why);
      }
      done, value := next.value, next.rest;
    }
    LastMember(spec, done, text[value..], stale);
    if At(text, value) == '}' {
      assert text[value..][1..] == text[value + 1..];
      return Got(done, value + 1);
    }
    return Stopped(Syntax);
  }

  /** Links the member behind a comma to the chain. */
  method LinkMember(text: string, at: nat, done: Chain, ghost spec: Outcome<Chain, string>, stale: Memory)
    returns (r: Outcome<Chain, nat>)
    requires CString(text) && at < |text| && text[at] == ',' && spec == Glued(done, MoreMembers(text[at..], stale))
    ensures r.Stopped? ==> spec == Stopped(r.why)
    ensures r.Got? ==> at < r.rest <= |text| && spec == Glued(r.value, MoreMembers(text[r.rest..], stale))
    decreases |text| - at, 3
  {
    assert text[at..][1..] == text[at + 1..];
    var name, child := ParseMember(text, at + 1, stale);
    if child.Stopped? {
      return Stopped(child.why);
    }
    NextMember(spec, done, text[at..], name, child.value, text[child.rest..], stale);
    return Got(Concat(done, Item(name, child.value, End)), child.rest);
  }

  lemma NextMember(spec: Outcome<Chain, string>, done: Chain, s: string, name: string, value: Json, rest: string,
                   stale: Memory)
    requires spec == Glued(done, MoreMembers(s, stale)) && Starts(s, ",")
    requires ParseMembers(s[1..], stale) == Linked(name, value, MoreMembers(rest, stale))
    ensures spec == Glued(Concat(done, Item(name, value, End)), MoreMembers(rest, stale))
  {
    GluedItem(done, name, value, MoreMembers(rest, stale));
  }

  lemma LastMember(spec: Outcome<Chain, string>, done: Chain, s: string, stale: Memory)
    requires spec == Glued(done, MoreMembers(s, stale)) && !Starts(s, ",")
    ensures spec == if Starts(s, "}") then Got(done, s[1..]) else Stopped(Syntax)
  {
    if Starts(s, "}") {
      GluedLast(done, s[1..]);
    }
  }

  /** A name and its colon, with the white space around them. */
  method ParseKey(text: string, p: nat, stale: Memory) returns (r: Outcome<string, nat>)
    requires CString(text) && p <= |text|
    ensures Agrees(r, ParseName(text[p..], stale), text, p)
  {
    var start := SkipFrom(text, p);
    var string_ := ParseString(text, start, stale);
    if string_.Stopped? {
      return Stopped(string_.why);
    }
    var colon := SkipFrom(text, string_.rest);
    if At(text, colon) != ':' {
      return Stopped(Syntax);
    }
    assert text[colon..][1..] == text[colon + 1..];
    return Got(string_.value, colon + 1);
  }

  /** One member, with the white space around its parts. */
  method ParseMember(text: string, p: nat, stale: Memory) returns (name: string, r: Outcome<Json, nat>)
    requires CString(text) && p <= |text|
    ensures r.Stopped? ==> ParseMembers(text[p..], stale) == Stopped(r.why)
    ensures r.Got? ==> p < r.rest <= |text|
    ensures r.Got? ==> ParseMembers(text[p..], stale) == Linked(name, r.value, MoreMembers(text[r.rest..], stale))
    decreases |text| - p, 2
  {
    var key := ParseKey(text, p, stale);
    if key.Stopped? {
      return "", Stopped(key.why);
    }
    var q := SkipFrom(text, key.rest);
    var value := ParseValue(text, q, stale);
    if value.Stopped? {
      return "", Stopped(value.why);
    }
    var end := SkipFrom(text, value.rest);
    return key.value, Got(value.value, end);
  }

  /** Parses a whole text. What follows the value is ignored. */
  method Parse(text: string, stale: Memory) returns (r: Outcome<Json, nat>)
    requires CString(text)
    ensures match ParseJson(Skip(text), stale)
      case Stopped(why) => r == Stopped(why)
      case Got(value, _) => r.Got? && r.value == value
  {
    assert text[0..] == text;
    var start := SkipFrom(text, 0);
    r := ParseValue(text, start, stale);
  }
}
