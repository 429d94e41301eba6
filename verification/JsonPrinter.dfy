/** The printer as the code runs it: the texts of the items are collected, a buffer is sized from their
    lengths, and everything is copied into it. No write ever leaves the buffer. */
module JsonPrinters {
  import opened Resources
  import opened TaskIds
  import opened JsonStrings
  import opened JsonNumbers
  import opened JsonValues

  function Bit(fmt: bool): nat {
    if fmt then 1 else 0
  }

  /** What the code reserves for the items of an array, besides 5 bytes. */
  function ItemsRoom(entries: seq<string>, fmt: bool): nat {
    if entries == [] then 0
    else ItemsRoom(entries[..|entries| - 1], fmt) + |entries[|entries| - 1]| + 2 + Bit(fmt)
  }

  lemma ItemsRoomAppend(entries: seq<string>, e: string, fmt: bool)
    ensures ItemsRoom(entries + [e], fmt) == ItemsRoom(entries, fmt) + |e| + 2 + Bit(fmt)
  {
    assert (entries + [e])[..|entries|] == entries;
  }

  lemma {:induction false} ItemsRoomFront(entries: seq<string>, fmt: bool)
    requires entries != []
    ensures ItemsRoom(entries, fmt) == |entries[0]| + 2 + Bit(fmt) + ItemsRoom(entries[1..], fmt)
  {
    var last := |entries| - 1;
    if last > 0 {
      ItemsRoomFront(entries[..last], fmt);
      assert entries[..last][1..] == entries[1..][..last - 1];
    }
  }

  /** The room reserved is enough. */
  lemma {:induction false} ItemsFit(entries: seq<string>, fmt: bool)
    ensures |JoinItems(entries, fmt)| <= ItemsRoom(entries, fmt)
  {
    if entries != [] {
      ItemsRoomFront(entries, fmt);
      ItemsFit(entries[1..], fmt);
    }
  }

  /** What the code reserves for the members of an object. */
  function MembersRoom(members: seq<(string, string)>, depth: nat, fmt: bool): nat {
    if members == [] then 0
    else
      var m := members[|members| - 1];
      MembersRoom(members[..|members| - 1], depth, fmt) + |m.1| + |m.0| + 2 + if fmt then 2 + depth else 0
  }

  lemma MembersRoomAppend(members: seq<(string, string)>, m: (string, string), depth: nat, fmt: bool)
    ensures MembersRoom(members + [m], depth, fmt) ==
      MembersRoom(members, depth, fmt) + |m.1| + |m.0| + 2 + if fmt then 2 + depth else 0
  {
    assert (members + [m])[..|members|] == members;
  }

  lemma {:induction false} MembersRoomFront(members: seq<(string, string)>, depth: nat, fmt: bool)
    requires members != []
    ensures MembersRoom(members, depth, fmt)
      == |members[0].1| + |members[0].0| + 2 + (if fmt then 2 + depth else 0) + MembersRoom(members[1..], depth, fmt)
  {
    var last := |members| - 1;
    if last > 0 {
      MembersRoomFront(members[..last], depth, fmt);
      assert members[..last][1..] == members[1..][..last - 1];
    }
  }

  lemma {:induction false} MembersFit(members: seq<(string, string)>, depth: nat, fmt: bool)
    ensures |JoinMembers(members, depth, fmt)| <= MembersRoom(members, depth, fmt)
  {
    if members != [] {
      MembersRoomFront(members, depth, fmt);
      MembersFit(members[1..], depth, fmt);
    }
  }

  method PrintValue(v: Json, depth: nat, fmt: bool) returns (out: string)
    requires Printable(v)
    ensures out == Print(v, depth, fmt)
    decreases v, 0
  {
    match v
    case Null => out := "null";
    case False => out := "false";
    case True => out := "true";
    case Number(number) =>
      var str, len := PrintInt(number.sign, number.value);
      out := str[..len];
    case Text(text) =>
      out := PrintText(text);
    case Array(child) => out := PrintArray(child, depth, fmt);
    case Object(child) => out := PrintObject(child, depth, fmt);
  }

  /** The text in the buffer of a printed string, up to its final zero. */
  method PrintText(text: string) returns (out: string)
    requires CString(text)
    ensures out == Quoted(text)
  {
    var str := PrintString(text);
    out := str[..str.Length - 1];
    assert str[..][..str.Length - 1] == Quoted(text);
  }

  // ----- arrays

  method PrintArray(child: Chain, depth: nat, fmt: bool) returns (text: string)
    requires AllPrintable(child)
    ensures text == "[" + JoinItems(PrintAll(child, depth + 1, fmt), fmt) + "]"
    decreases child, 1
  {
    var entries, len := CollectItems(child, depth + 1, fmt);
    text := ComposeItems(entries, len, fmt);
  }

  /** The items before `c` have been printed, and their room counted. */
  ghost predicate Collects(child: Chain, entries: seq<string>, c: Chain, len: nat, depth: nat, fmt: bool)
    requires AllPrintable(child)
  {
    && AllPrintable(c) && (c == child || c < child) && len == 5 + ItemsRoom(entries, fmt)
    && entries + PrintAll(c, depth, fmt) == PrintAll(child, depth, fmt)
  }

  lemma CollectNext(child: Chain, entries: seq<string>, c: Chain, len: nat, depth: nat, fmt: bool)
    requires AllPrintable(child) && Collects(child, entries, c, len, depth, fmt) && c.Item?
    ensures var ret := Print(c.value, depth, fmt);
      Collects(child, entries + [ret], c.next, len + |ret| + 2 + Bit(fmt), depth, fmt)
  {
    var ret := Print(c.value, depth, fmt);
    ItemsRoomAppend(entries, ret, fmt);
    assert entries + [ret] + PrintAll(c.next, depth, fmt) == entries + ([ret] + PrintAll(c.next, depth, fmt));
  }

  lemma CollectStart(child: Chain, depth: nat, fmt: bool)
    requires AllPrintable(child)
    ensures Collects(child, [], child, 5, depth, fmt)
  {
  }

  lemma CollectEnd(child: Chain, entries: seq<string>, c: Chain, len: nat, depth: nat, fmt: bool)
    requires AllPrintable(child) && Collects(child, entries, c, len, depth, fmt) && c.End?
    ensures entries == PrintAll(child, depth, fmt) && len == 5 + ItemsRoom(entries, fmt)
  {
    assert entries + [] == entries;
  }

  /** The texts of the items, and the size of the buffer. */
  method CollectItems(child: Chain, depth: nat, fmt: bool) returns (entries: seq<string>, len: nat)
    requires AllPrintable(child)
    ensures entries == PrintAll(child, depth, fmt) && len == 5 + ItemsRoom(entries, fmt)
    decreases child, 0
  {
    entries, len := [], 5;
    var c := child;
    CollectStart(child, depth, fmt);
    while c.Item?
      invariant Collects(child, entries, c, len, depth, fmt)
      decreases c
    {
      CollectNext(child, entries, c, len, depth, fmt);
      var ret := PrintValue(c.value, depth, fmt);
      entries, len := entries + [ret], len + |ret| + 2 + Bit(fmt);
      c := c.next;
    }
    CollectEnd(child, entries, c, len, depth, fmt);
  }

  /** Part of a text is in the buffer; this is left. */
  ghost predicate Composes(all: string, done: string, left: string) {
    done + left == all
  }

  lemma ComposeItem(all: string, done: string, entries: seq<string>, i: nat, fmt: bool)
    requires i < |entries| && Composes(all, done, JoinItems(entries[i..], fmt))
    ensures var sep := if i + 1 == |entries| then "" else "," + If(fmt, " ");
      && Composes(all, done + entries[i] + sep, JoinItems(entries[i + 1..], fmt))
      && |done + entries[i] + sep| <= |all|
  {
    assert entries[i..][1..] == entries[i + 1..];
    if i + 1 == |entries| {
      assert JoinItems(entries[i + 1..], fmt) == "";
    } else {
      var sep, more := "," + If(fmt, " "), JoinItems(entries[i + 1..], fmt);
      assert entries[i] + "," + If(fmt, " ") + more == entries[i] + (sep + more);
      assert done + (entries[i] + (sep + more)) == done + entries[i] + sep + more;
    }
  }

  /** Copies the texts of the items into a buffer of the given size. */
  method ComposeItems(entries: seq<string>, len: nat, fmt: bool) returns (text: string)
    requires len == 5 + ItemsRoom(entries, fmt)
    ensures text == "[" + JoinItems(entries, fmt) + "]"
  {
    ItemsFit(entries, fmt);
    var out := new char[len];
    out[0] := '[';
    var ptr: nat := 1;
    out[ptr] := '\0';
    ghost var all := "[" + JoinItems(entries, fmt);
    assert out[..1] == "[" && entries[0..] == entries;
    for i := 0 to |entries|
      invariant 1 <= ptr <= |all| && Composes(all, out[..ptr], JoinItems(entries[i..], fmt))
    {
      ghost var before := out[..ptr];
      ComposeItem(all, before, entries, i, fmt);
      ptr := StrCpy(out, ptr, entries[i]);
      if i != |entries| - 1 {
        ptr := Separate(out, ptr, fmt);
      }
      assert out[..ptr] == before + entries[i] + (if i + 1 == |entries| then "" else "," + If(fmt, " "));
    }
    assert out[..ptr] == all;
    out[ptr], out[ptr + 1] := ']', '\0';
    text := out[..ptr + 1];
  }

  method Separate(out: array<char>, at: nat, fmt: bool) returns (next: nat)
    requires at + 1 + Bit(fmt) < out.Length
    modifies out
    ensures next == at + 1 + Bit(fmt) && out[..next] == old(out[..at]) + ("," + If(fmt, " "))
  {
    out[at] := ',';
    next := at + 1;
    if fmt {
      out[next] := ' ';
      next := next + 1;
    }
    out[next] := '\0';
  }

  // ----- objects

  method PrintObject(child: Chain, depth: nat, fmt: bool) returns (text: string)
    requires AllPrintable(child) && AllNamed(child)
    ensures text ==
      "{" + If(fmt, "\n") + JoinMembers(PrintMembers(child, depth + 1, fmt), depth + 1, fmt)
      + If(fmt, Tabs(depth)) + "}"
    decreases child, 1
  {
    var members, len := CollectMembers(child, depth + 1, fmt);
    text := ComposeMembers(members, len, depth + 1, fmt);
  }

  function FirstRoom(depth: nat, fmt: bool): nat {
    7 + if fmt then depth else 0
  }

  ghost predicate CollectsMembers(child: Chain, members: seq<(string, string)>, c: Chain, len: nat, depth: nat,
                                  fmt: bool)
    requires AllPrintable(child) && AllNamed(child)
  {
    && AllPrintable(c) && AllNamed(c) && (c == child || c < child)
    && len == FirstRoom(depth, fmt) + MembersRoom(members, depth, fmt)
    && members + PrintMembers(c, depth, fmt) == PrintMembers(child, depth, fmt)
  }

  lemma CollectNextMember(child: Chain, members: seq<(string, string)>, c: Chain, len: nat, depth: nat, fmt: bool)
    requires AllPrintable(child) && AllNamed(child) && CollectsMembers(child, members, c, len, depth, fmt) && c.Item?
    ensures var str, ret := Quoted(c.name), Print(c.value, depth, fmt);
      CollectsMembers(child, members + [(str, ret)], c.next,
                      len + |ret| + |str| + 2 + if fmt then 2 + depth else 0, depth, fmt)
  {
    var m := (Quoted(c.name), Print(c.value, depth, fmt));
    MembersRoomAppend(members, m, depth, fmt);
    assert members + [m] + PrintMembers(c.next, depth, fmt) == members + ([m] + PrintMembers(c.next, depth, fmt));
  }

  lemma CollectMembersStart(child: Chain, depth: nat, fmt: bool)
    requires AllPrintable(child) && AllNamed(child)
    ensures CollectsMembers(child, [], child, FirstRoom(depth, fmt), depth, fmt)
  {
  }

  lemma CollectMembersEnd(child: Chain, members: seq<(string, string)>, c: Chain, len: nat, depth: nat, fmt: bool)
    requires AllPrintable(child) && AllNamed(child) && CollectsMembers(child, members, c, len, depth, fmt) && c.End?
    ensures members == PrintMembers(child, depth, fmt)
      && len == FirstRoom(depth, fmt) + MembersRoom(members, depth, fmt)
  {
    assert members + [] == members;
  }

  /** The texts of the names and values, and the size of the buffer. */
  method CollectMembers(child: Chain, depth: nat, fmt: bool) returns (members: seq<(string, string)>, len: nat)
    requires AllPrintable(child) && AllNamed(child)
    ensures members == PrintMembers(child, depth, fmt)
      && len == FirstRoom(depth, fmt) + MembersRoom(members, depth, fmt)
    decreases child, 0
  {
    members, len := [], 7;
    if fmt {
      len := len + depth;
    }
    var c := child;
    CollectMembersStart(child, depth, fmt);
    while c.Item?
      invariant CollectsMembers(child, members, c, len, depth, fmt)
      decreases c
    {
      CollectNextMember(child, members, c, len, depth, fmt);
      var str := PrintText(c.name);
      var ret := PrintValue(c.value, depth, fmt);
      len := len + |ret| + |str| + 2 + if fmt then 2 + depth else 0;
      members := members + [(str, ret)];
      c := c.next;
    }
    CollectMembersEnd(child, members, c, len, depth, fmt);
  }

  lemma ComposeMember(all: string, done: string, members: seq<(string, string)>, i: nat, depth: nat, fmt: bool)
    requires i < |members| && Composes(all, done, JoinMembers(members[i..], depth, fmt))
    ensures var m := Member(members[i], i + 1 == |members|, depth, fmt);
      && Composes(all, done + m, JoinMembers(members[i + 1..], depth, fmt))
      && |done + m| <= |all|
  {
    assert members[i..][1..] == members[i + 1..];
    var m, more := Member(members[i], i + 1 == |members|, depth, fmt), JoinMembers(members[i + 1..], depth, fmt);
    assert done + (m + more) == done + m + more;
  }

  /** Copies the members into a buffer of the given size. */
  method ComposeMembers(members: seq<(string, string)>, len: nat, depth: nat, fmt: bool) returns (text: string)
    requires depth > 0 && len == FirstRoom(depth, fmt) + MembersRoom(members, depth, fmt)
    ensures text == "{" + If(fmt, "\n") + JoinMembers(members, depth, fmt) + If(fmt, Tabs(depth - 1)) + "}"
  {
    MembersFit(members, depth, fmt);
    var out := new char[len];
    out[0] := '{';
    var ptr: nat := 1;
    if fmt {
      out[ptr] := '\n';
      ptr := ptr + 1;
    }
    out[ptr] := '\0';
    ghost var open := "{" + If(fmt, "\n");
    ghost var all := open + JoinMembers(members, depth, fmt);
    assert out[..ptr] == open && members[0..] == members;
    for i := 0 to |members|
      invariant 1 <= ptr <= |all| && Composes(all, out[..ptr], JoinMembers(members[i..], depth, fmt))
    {
      ComposeMember(all, out[..ptr], members, i, depth, fmt);
      ptr := WriteMember(out, ptr, members[i], i == |members| - 1, depth, fmt);
    }
    assert out[..ptr] == all;
    if fmt {
      ptr := WriteTabs(out, ptr, depth - 1);
    }
    assert out[..ptr] == all + If(fmt, Tabs(depth - 1));
    out[ptr], out[ptr + 1] := '}', '\0';
    text := out[..ptr + 1];
  }

  method WriteTabs(out: array<char>, at: nat, n: nat) returns (next: nat)
    requires at + n <= out.Length
    modifies out
    ensures next == at + n && out[..next] == old(out[..at]) + Tabs(n)
  {
    next := at;
    for j := 0 to n
      invariant next == at + j && out[..next] == old(out[..at]) + Tabs(j)
    {
      out[next] := '\t';
      next := next + 1;
    }
  }

  method WriteMember(out: array<char>, at: nat, m: (string, string), last: bool, depth: nat, fmt: bool)
    returns (next: nat)
    requires at + |Member(m, last, depth, fmt)| < out.Length
    modifies out
    ensures next == at + |Member(m, last, depth, fmt)| && out[..next] == old(out[..at]) + Member(m, last, depth, fmt)
  {
    ghost var before, tabs, tab := out[..at], If(fmt, Tabs(depth)), If(fmt, "\t");
    next := at;
    if fmt {
      next := WriteTabs(out, next, depth);
    }
    assert out[..next] == before + tabs;
    next := WriteName(out, next, m.0, fmt);
    next := WriteEntry(out, next, m.1, last, fmt);
    WrittenMember(before, tabs, m.0, tab, m.1, If(!last, ","), If(fmt, "\n"));
  }

  lemma WrittenMember(before: string, tabs: string, name: string, tab: string, value: string, comma: string,
                      line: string)
    ensures before + tabs + name + ":" + tab + value + comma + line ==
      before + (tabs + name + ":" + tab + value + comma + line)
  {
    Assoc(before, tabs, name);
    Assoc(before, tabs + name, ":");
    Assoc(before, tabs + name + ":", tab);
    Assoc(before, tabs + name + ":" + tab, value);
    Assoc(before, tabs + name + ":" + tab + value, comma);
    Assoc(before, tabs + name + ":" + tab + value + comma, line);
  }

  method WriteEntry(out: array<char>, at: nat, entry: string, last: bool, fmt: bool) returns (next: nat)
    requires at + |entry| + Bit(!last) + Bit(fmt) < out.Length
    modifies out
    ensures next == at + |entry| + Bit(!last) + Bit(fmt)
      && out[..next] == old(out[..at]) + entry + If(!last, ",") + If(fmt, "\n")
  {
    next := StrCpy(out, at, entry);
    if !last {
      out[next] := ',';
      next := next + 1;
    }
    if fmt {
      out[next] := '\n';
      next := next + 1;
    }
    out[next] := '\0';
  }

  method WriteName(out: array<char>, at: nat, name: string, fmt: bool) returns (next: nat)
    requires at + |name| + 1 + Bit(fmt) <= out.Length
    modifies out
    ensures next == at + |name| + 1 + Bit(fmt) && out[..next] == old(out[..at]) + name + ":" + If(fmt, "\t")
  {
    next := StrCpy(out, at, name);
    out[next] := ':';
    next := next + 1;
    if fmt {
      out[next] := '\t';
      next := next + 1;
    }
  }
}
