/** JSON values: how they are written, how a text is read, and that reading undoes writing. */
module JsonValues {
  import opened Resources
  import opened TaskIds
  import opened JsonStrings
  import opened JsonScans
  import opened JsonNumbers

  /** A node of the tree; the items of an array or object form a chain. Items of arrays have no name. */
  datatype Json =
    | Null | False | True
    | Number(number: Numeric) | Text(text: string)
    | Array(child: Chain) | Object(child: Chain)

  datatype Chain = End | Item(name: string, value: Json, next: Chain)

  // ----- writing

  /** A tree without fractions, of integers that fit 64 bits and C strings. */
  predicate Printable(v: Json) {
    match v
    case Number(number) => number.Whole? && IsInt64(number.value)
    case Text(text) => CString(text)
    case Array(child) => AllPrintable(child)
    case Object(child) => AllPrintable(child) && AllNamed(child)
    case _ => true
  }

  predicate AllPrintable(c: Chain) {
    c.Item? ==> Printable(c.value) && AllPrintable(c.next)
  }

  predicate AllNamed(c: Chain) {
    c.Item? ==> CString(c.name) && AllNamed(c.next)
  }

  function If(fmt: bool, s: string): string {
    if fmt then s else ""
  }

  function Tabs(n: nat): (s: string)
    ensures |s| == n && forall i | 0 <= i < n :: s[i] == '\t'
  {
    seq(n, _ => '\t')
  }

  /** The text of a value at a nesting depth, with or without layout. */
  function Print(v: Json, depth: nat, fmt: bool): string
    requires Printable(v)
  {
    match v
    case Null => "null"
    case False => "false"
    case True => "true"
    case Number(number) => Decimal(Shown(number.sign, number.value))
    case Text(text) => Quoted(text)
    case Array(child) => "[" + JoinItems(PrintAll(child, depth + 1, fmt), fmt) + "]"
    case Object(child) =>
      "{" + If(fmt, "\n") + JoinMembers(PrintMembers(child, depth + 1, fmt), depth + 1, fmt)
      + If(fmt, Tabs(depth)) + "}"
  }

  function PrintAll(c: Chain, depth: nat, fmt: bool): seq<string>
    requires AllPrintable(c)
  {
    match c
    case End => []
    case Item(_, value, next) => [Print(value, depth, fmt)] + PrintAll(next, depth, fmt)
  }

  function JoinItems(entries: seq<string>, fmt: bool): string {
    if entries == [] then ""
    else if |entries| == 1 then entries[0]
    else entries[0] + "," + If(fmt, " ") + JoinItems(entries[1..], fmt)
  }

  /** The texts of a name and its value. */
  function PrintMembers(c: Chain, depth: nat, fmt: bool): seq<(string, string)>
    requires AllPrintable(c) && AllNamed(c)
  {
    match c
    case End => []
    case Item(name, value, next) => [(Quoted(name), Print(value, depth, fmt))] + PrintMembers(next, depth, fmt)
  }

  function Member(m: (string, string), last: bool, depth: nat, fmt: bool): string {
    If(fmt, Tabs(depth)) + m.0 + ":" + If(fmt, "\t") + m.1 + If(!last, ",") + If(fmt, "\n")
  }

  function JoinMembers(members: seq<(string, string)>, depth: nat, fmt: bool): string {
    if members == [] then ""
    else Member(members[0], |members| == 1, depth, fmt) + JoinMembers(members[1..], depth, fmt)
  }

  // ----- reading

  function Skip(s: string): (r: string)
    ensures |r| <= |s|
  {
    if s != "" && 0 < s[0] as int <= 32 then Skip(s[1..]) else s
  }

  /** Reads a value. Reading a string may leave the text or the buffer of the string. */
  function ParseJson(s: string, stale: Memory): (r: Outcome<Json, string>)
    ensures r.Got? ==> |r.rest| < |s|
    decreases |s|, 0
  {
    if "null" <= s then Got(Null, s[4..])
    else if "false" <= s then Got(False, s[5..])
    else if "true" <= s then Got(True, s[4..])
    else if s == "" then Stopped(Syntax)
    else if s[0] == '\"' then TextOf(ParseText(s, stale))
    else if s[0] == '-' || IsDigit(s[0]) then
      NumeralIsShorter(s);
      var (number, rest) := ParseNumeral(s);
      Got(Number(number), rest)
    else if s[0] == '[' then
      var inner := Skip(s[1..]);
      if Starts(inner, "]") then Got(Array(End), inner[1..]) else ArrayOf(ParseItems(inner, stale))
    else if s[0] == '{' then
      var inner := Skip(s[1..]);
      if Starts(inner, "}") then Got(Object(End), inner[1..]) else ObjectOf(ParseMembers(inner, stale))
    else Stopped(Syntax)
  }

  lemma NumeralIsShorter(s: string)
    requires s != "" && (s[0] == '-' || IsDigit(s[0]))
    ensures |ParseNumeral(s).1| < |s|
  {
  }

  function TextOf(r: Outcome<string, string>): Outcome<Json, string> {
    match r case Stopped(why) => Stopped(why) case Got(text, rest) => Got(Text(text), rest)
  }

  function ArrayOf(r: Outcome<Chain, string>): Outcome<Json, string> {
    match r case Stopped(why) => Stopped(why) case Got(child, rest) => Got(Array(child), rest)
  }

  function ObjectOf(r: Outcome<Chain, string>): Outcome<Json, string> {
    match r case Stopped(why) => Stopped(why) case Got(child, rest) => Got(Object(child), rest)
  }

  function Linked(name: string, value: Json, r: Outcome<Chain, string>): Outcome<Chain, string> {
    match r case Stopped(why) => Stopped(why) case Got(next, rest) => Got(Item(name, value, next), rest)
  }

  /** The items of an array, up to its bracket. */
  function ParseItems(s: string, stale: Memory): (r: Outcome<Chain, string>)
    ensures r.Got? ==> |r.rest| < |s|
    decreases |s|, 1
  {
    match ParseJson(Skip(s), stale)
    case Stopped(why) => Stopped(why)
    case Got(value, rest) => Linked("", value, MoreItems(Skip(rest), stale))
  }

  function MoreItems(s: string, stale: Memory): (r: Outcome<Chain, string>)
    ensures r.Got? ==> |r.rest| < |s|
    decreases |s|, 2
  {
    if Starts(s, ",") then ParseItems(s[1..], stale)
    else if Starts(s, "]") then Got(End, s[1..])
    else Stopped(Syntax)
  }

  /** A name and its colon. */
  function ParseName(s: string, stale: Memory): (r: Outcome<string, string>)
    ensures r.Got? ==> |r.rest| < |s|
  {
    match ParseText(Skip(s), stale)
    case Stopped(why) => Stopped(why)
    case Got(name, rest) =>
      var colon := Skip(rest);
      if Starts(colon, ":") then Got(name, colon[1..]) else Stopped(Syntax)
  }

  /** The members of an object, up to its brace. */
  function ParseMembers(s: string, stale: Memory): (r: Outcome<Chain, string>)
    ensures r.Got? ==> |r.rest| < |s|
    decreases |s|, 1
  {
    match ParseName(s, stale)
    case Stopped(why) => Stopped(why)
    case Got(name, rest) =>
      match ParseJson(Skip(rest), stale)
      case Stopped(why) => Stopped(why)
      case Got(value, end) => Linked(name, value, MoreMembers(Skip(end), stale))
  }

  function MoreMembers(s: string, stale: Memory): (r: Outcome<Chain, string>)
    ensures r.Got? ==> |r.rest| < |s|
    decreases |s|, 2
  {
    if Starts(s, ",") then ParseMembers(s[1..], stale)
    else if Starts(s, "}") then Got(End, s[1..])
    else Stopped(Syntax)
  }

  // ----- what survives

  /** The tree that reading a printed tree gives: numbers as shown, with the sign they show, and array
      items without names. */
  function Reread(v: Json): Json
    requires Printable(v)
  {
    match v
    case Number(number) => Number(ReadBack(Shown(number.sign, number.value)))
    case Array(child) => Array(RereadAll(child, false))
    case Object(child) => Object(RereadAll(child, true))
    case _ => v
  }

  function RereadAll(c: Chain, named: bool): Chain
    requires AllPrintable(c)
  {
    match c
    case End => End
    case Item(name, value, next) => Item(if named then name else "", Reread(value), RereadAll(next, named))
  }

  /** A tree without its sign flags, and without names where there should be none. */
  function Plain(v: Json): Json {
    match v
    case Number(Whole(_, value)) => Number(Whole(1, value))
    case Array(child) => Array(PlainAll(child, false))
    case Object(child) => Object(PlainAll(child, true))
    case _ => v
  }

  function PlainAll(c: Chain, named: bool): Chain {
    match c
    case End => End
    case Item(name, value, next) => Item(if named then name else "", Plain(value), PlainAll(next, named))
  }

  /** A tree as it is where a long double is exact below this bound. */
  function Settled(v: Json, bound: nat): Json {
    match v
    case Number(number) => Number(SettledNumber(number, bound))
    case Array(child) => Array(AllSettled(child, bound))
    case Object(child) => Object(AllSettled(child, bound))
    case _ => v
  }

  function AllSettled(c: Chain, bound: nat): Chain {
    match c
    case End => End
    case Item(name, value, next) => Item(name, Settled(value, bound), AllSettled(next, bound))
  }

  /** Every integer is shown as a number below this bound. */
  predicate ShownBelow(v: Json, bound: nat)
    requires Printable(v)
  {
    match v
    case Number(number) => Magnitude(Shown(number.sign, number.value)) < bound
    case Array(child) => AllShownBelow(child, bound)
    case Object(child) => AllShownBelow(child, bound)
    case _ => true
  }

  predicate AllShownBelow(c: Chain, bound: nat)
    requires AllPrintable(c)
  {
    c.Item? ==> ShownBelow(c.value, bound) && AllShownBelow(c.next, bound)
  }

  lemma {:induction false} RereadIsSame(v: Json, bound: nat)
    requires Printable(v) && EXACT <= bound <= TWO_TO_THE_63
    ensures Plain(Settled(Reread(v), bound)) == Plain(v) <==> ShownBelow(v, bound)
  {
    match v
    case Array(child) => RereadAllIsSame(child, false, bound);
    case Object(child) => RereadAllIsSame(child, true, bound);
    case _ =>
  }

  lemma {:induction false} RereadAllIsSame(c: Chain, named: bool, bound: nat)
    requires AllPrintable(c) && EXACT <= bound <= TWO_TO_THE_63
    ensures PlainAll(AllSettled(RereadAll(c, named), bound), named) == PlainAll(c, named) <==> AllShownBelow(c, bound)
  {
    if c.Item? {
      RereadIsSame(c.value, bound);
      RereadAllIsSame(c.next, named, bound);
    }
  }

  /** What is read needs no settling where it is the same on every platform. */
  lemma {:induction false} RereadIsPortable(v: Json)
    requires Printable(v)
    ensures Settled(Reread(v), EXACT) == Reread(v)
  {
    match v
    case Array(child) => RereadAllIsPortable(child, false);
    case Object(child) => RereadAllIsPortable(child, true);
    case _ =>
  }

  lemma {:induction false} RereadAllIsPortable(c: Chain, named: bool)
    requires AllPrintable(c)
    ensures AllSettled(RereadAll(c, named), EXACT) == RereadAll(c, named)
  {
    if c.Item? {
      RereadIsPortable(c.value);
      RereadAllIsPortable(c.next, named);
    }
  }

  /** Every negative integer is marked as signed. */
  predicate WellSigned(v: Json) {
    match v
    case Number(number) => number.Whole? ==> number.sign == -1 || number.value >= 0
    case Array(child) => AllWellSigned(child)
    case Object(child) => AllWellSigned(child)
    case _ => true
  }

  predicate AllWellSigned(c: Chain) {
    c.Item? ==> WellSigned(c.value) && AllWellSigned(c.next)
  }

  /** Every integer is below this bound, with or without its sign. */
  predicate IntegersBelow(v: Json, bound: nat) {
    match v
    case Number(number) => number.Whole? ==> Magnitude(number.value) < bound
    case Array(child) => AllIntegersBelow(child, bound)
    case Object(child) => AllIntegersBelow(child, bound)
    case _ => true
  }

  predicate AllIntegersBelow(c: Chain, bound: nat) {
    c.Item? ==> IntegersBelow(c.value, bound) && AllIntegersBelow(c.next, bound)
  }

  /** Integers are shown below the bound exactly if they are below it and the negative ones are marked. */
  lemma {:induction false} SignsDecide(v: Json, bound: nat)
    requires Printable(v) && bound <= TWO_TO_THE_63
    ensures ShownBelow(v, bound) <==> IntegersBelow(v, bound) && WellSigned(v)
  {
    match v
    case Array(child) => SignsDecideAll(child, bound);
    case Object(child) => SignsDecideAll(child, bound);
    case _ =>
  }

  lemma {:induction false} SignsDecideAll(c: Chain, bound: nat)
    requires AllPrintable(c) && bound <= TWO_TO_THE_63
    ensures AllShownBelow(c, bound) <==> AllIntegersBelow(c, bound) && AllWellSigned(c)
  {
    if c.Item? {
      SignsDecide(c.value, bound);
      SignsDecideAll(c.next, bound);
    }
  }

  lemma Assoc(a: string, b: string, c: string)
    ensures (a + b) + c == a + (b + c)
  {
  }

  // ----- white space

  predicate White(w: string) {
    forall i | 0 <= i < |w| :: 0 < w[i] as int <= 32
  }

  lemma {:induction false} SkipsWhite(w: string, s: string)
    requires White(w)
    ensures Skip(w + s) == Skip(s)
  {
    if w == "" {
      assert w + s == s;
    } else {
      assert (w + s)[1..] == w[1..] + s;
      SkipsWhite(w[1..], s);
    }
  }

  /** Every value starts with a character that is not white, and no value starts like a closing bracket. */
  lemma PrintStarts(v: Json, depth: nat, fmt: bool)
    requires Printable(v)
    ensures var s := Print(v, depth, fmt); s != "" && s[0] as int > 32 && s[0] != ']'
  {
    if v.Number? {
      var shown := Shown(v.number.sign, v.number.value);
      ItoaReads(if shown < 0 then -shown else shown);
      assert shown >= 0 ==> IsDigit(Itoa(shown)[0]);
    }
  }
}
