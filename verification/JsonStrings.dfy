/** JSON strings as they are written: escaping into a buffer of exactly the right size. */
module JsonStrings {
  import opened Resources

  /** The contents of a C string: bytes, none of them zero. */
  predicate CString(s: string) {
    forall i | 0 <= i < |s| :: 0 < s[i] as int < 256
  }

  function Byte(n: nat): char
    requires n < 256
  {
    n as char
  }

  /** Copies a C string, its final zero included, into a buffer. */
  method StrCpy(out: array<char>, at: nat, text: string) returns (next: nat)
    requires at + |text| < out.Length
    modifies out
    ensures next == at + |text| && out[..next] == old(out[..at]) + text && out[next] == '\0'
  {
    next := at;
    for i := 0 to |text|
      invariant next == at + i && out[..next] == old(out[..at]) + text[..i]
    {
      out[next] := text[i];
      next := next + 1;
    }
    out[next] := '\0';
    assert text[..|text|] == text;
  }

  // ----- escaping

  function HexDigit(d: nat): char
    requires d < 16
  {
    "0123456789abcdef"[d]
  }

  /** The letter that escapes a character, if it has one. */
  function Letter(c: char): Option<char> {
    match c
    case '\\' => Some('\\')
    case '\"' => Some('\"')
    case '\n' => Some('n')
    case '\r' => Some('r')
    case '\t' => Some('t')
    case _ => if c as int == 8 then Some('b') else if c as int == 12 then Some('f') else None
  }

  function EscapeChar(c: char): string
    requires c as int < 256
  {
    if Letter(c).Some? then ['\\', Letter(c).value]
    else if c as int > 31 then [c]
    else ['\\', 'u', '0', '0', HexDigit(c as int / 16), HexDigit(c as int % 16)]
  }

  function Escaped(s: string): string
    requires CString(s)
  {
    if s == "" then "" else EscapeChar(s[0]) + Escaped(s[1..])
  }

  /** A string as JSON writes it. */
  function Quoted(s: string): string
    requires CString(s)
  {
    "\"" + Escaped(s) + "\""
  }

  /** The character at a position of a C string: its end reads as zero. */
  function At(s: string, p: nat): char {
    if p < |s| then s[p] else '\0'
  }

  /** The first pass: how many bytes the escaped text takes. */
  method EscapedLength(str: string) returns (len: nat)
    requires CString(str)
    ensures len == |Escaped(str)|
  {
    len := 0;
    var ptr := 0;
    while At(str, ptr) != '\0'
      invariant ptr <= |str| && len + |Escaped(str[ptr..])| == |Escaped(str)|
      decreases |str| - ptr
    {
      var token := str[ptr];
      assert str[ptr..][1..] == str[ptr + 1..];
      len := len + 1;
      if Letter(token).Some? {
        len := len + 1;
      } else if token as int < 32 {
        len := len + 5;
      }
      ptr := ptr + 1;
    }
  }

  /** A quote and part of a string have been escaped; this is left. */
  ghost predicate Escapes(all: string, done: string, left: string) {
    CString(all) && CString(left) && done + Escaped(left) == "\"" + Escaped(all)
  }

  lemma EscapesNext(all: string, done: string, left: string)
    requires Escapes(all, done, left) && left != ""
    ensures Escapes(all, done + EscapeChar(left[0]), left[1..])
  {
    assert done + EscapeChar(left[0]) + Escaped(left[1..]) == done + Escaped(left);
  }

  /** Prints a string into a new buffer: the length found in the first pass is exactly what the second
      pass writes, quotes and final zero included. */
  method PrintString(str: string) returns (out: array<char>)
    requires CString(str)
    ensures fresh(out) && out[..] == Quoted(str) + ['\0']
  {
    var len := EscapedLength(str);
    out := new char[len + 3];
    out[0] := '\"';
    var ptr: nat, ptr2: nat := 0, 1;
    while At(str, ptr) != '\0'
      invariant ptr <= |str| && 1 <= ptr2 && ptr2 + |Escaped(str[ptr..])| == len + 1
      invariant Escapes(str, out[..ptr2], str[ptr..])
      decreases |str| - ptr
    {
      assert str[ptr..][1..] == str[ptr + 1..];
      ghost var before := out[..ptr2];
      EscapesNext(str, before, str[ptr..]);
      ptr2 := EscapeInto(out, ptr2, str[ptr]);
      ptr := ptr + 1;
    }
    assert out[..ptr2] + "" == out[..ptr2];
    out[ptr2] := '\"';
    out[ptr2 + 1] := '\0';
    assert out[..] == out[..ptr2] + ['\"', '\0'];
  }

  /** Writes one escaped character; the formatted write of a code also puts a zero behind it. */
  method EscapeInto(out: array<char>, at: nat, c: char) returns (next: nat)
    requires 0 < c as int < 256 && at + |EscapeChar(c)| < out.Length
    modifies out
    ensures next == at + |EscapeChar(c)| && out[..next] == old(out[..at]) + EscapeChar(c)
  {
    if c as int > 31 && c != '\"' && c != '\\' {
      out[at] := c;
      return at + 1;
    }
    out[at] := '\\';
    if Letter(c).Some? {
      out[at + 1] := Letter(c).value;
      return at + 2;
    }
    out[at + 1] := 'u';
    out[at + 2], out[at + 3] := '0', '0';
    out[at + 4], out[at + 5] := HexDigit(c as int / 16), HexDigit(c as int % 16);
    out[at + 6] := '\0';
    return at + 6;
  }
}
