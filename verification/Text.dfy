/** The string operations the annotation readers use, on sequences of characters. */
module Text {

  /** Whitespace as strings.TrimSpace takes it. */
  predicate IsSpace(c: char) {
    || c in {' ', '\t', '\n', '\r', 11 as char, 12 as char, 0x85 as char, 0xA0 as char}
    || c in {0x1680 as char, 0x2028 as char, 0x2029 as char, 0x202F as char, 0x205F as char, 0x3000 as char}
    || 0x2000 as char <= c <= 0x200A as char
  }

  /** s without the whitespace around it. */
  function Trim(s: string): (t: string)
    ensures t == [] || (!IsSpace(t[0]) && !IsSpace(t[|t| - 1]))
    ensures s == [] || IsSpace(s[0]) || IsSpace(s[|s| - 1]) || t == s
  {
    if s == [] then []
    else if IsSpace(s[0]) then Trim(s[1..])
    else if IsSpace(s[|s| - 1]) then Trim(s[..|s| - 1])
    else s
  }

  predicate IsBlank(s: string) {
    forall c :: c in s ==> IsSpace(c)
  }

  /** What's between blanks is left, whatever blanks are within it. */
  lemma {:induction false} TrimStrips(before: string, t: string, after: string)
    requires IsBlank(before) && IsBlank(after) && (t == [] || (!IsSpace(t[0]) && !IsSpace(t[|t| - 1])))
    ensures Trim(before + t + after) == t
    decreases |before| + |after|
  {
    var s := before + t + after;
    if before != [] {
      assert s[0] == before[0] && s[1..] == before[1..] + t + after;
      TrimStrips(before[1..], t, after);
    } else if after != [] {
      if t == [] {
        assert s == after && s[1..] == [] + t + after[1..];
        TrimStrips([], t, after[1..]);
      } else {
        assert s[0] == t[0] && s[|s| - 1] == after[|after| - 1];
        assert s[..|s| - 1] == before + t + after[..|after| - 1];
        TrimStrips(before, t, after[..|after| - 1]);
      }
    } else {
      assert s == t;
    }
  }

  /** The pieces of s between separators, at least one. */
  function Split(s: string, sep: char): (parts: seq<string>)
    ensures parts != []
  {
    if s == [] then [[]]
    else if s[0] == sep then [[]] + Split(s[1..], sep)
    else
      var rest := Split(s[1..], sep);
      [[s[0]] + rest[0]] + rest[1..]
  }

  /** The parts with a separator between each and the next. */
  function Join(parts: seq<string>, sep: char): string {
    if |parts| == 0 then []
    else if |parts| == 1 then parts[0]
    else parts[0] + [sep] + Join(parts[1..], sep)
  }

  function LowerChar(c: char): char {
    if 'A' <= c <= 'Z' then (c as int - 'A' as int + 'a' as int) as char else c
  }

  function Lower(s: string): (t: string)
    ensures |t| == |s|
  {
    seq(|s|, i requires 0 <= i < |s| => LowerChar(s[i]))
  }

  /** A part without separators, followed by one, is split off whole. */
  lemma {:induction false} SplitAfter(part: string, sep: char, rest: string)
    requires sep !in part
    ensures Split(part + [sep] + rest, sep) == [part] + Split(rest, sep)
  {
    var s := part + [sep] + rest;
    if part == [] {
      assert s[1..] == rest;
    } else {
      SplitAfter(part[1..], sep, rest);
      assert s[1..] == part[1..] + [sep] + rest;
      assert [part[0]] + part[1..] == part;
    }
  }

  lemma {:induction false} SplitWhole(part: string, sep: char)
    requires sep !in part
    ensures Split(part, sep) == [part]
  {
    if part != [] {
      SplitWhole(part[1..], sep);
      assert [part[0]] + part[1..] == part;
    }
  }

  /** Splitting undoes joining, for parts without separators. */
  lemma {:induction false} SplitJoin(parts: seq<string>, sep: char)
    requires parts != []
    requires forall i :: 0 <= i < |parts| ==> sep !in parts[i]
    ensures Split(Join(parts, sep), sep) == parts
  {
    if |parts| == 1 {
      SplitWhole(parts[0], sep);
    } else {
      SplitJoin(parts[1..], sep);
      SplitAfter(parts[0], sep, Join(parts[1..], sep));
      assert [parts[0]] + parts[1..] == parts;
    }
  }
}
