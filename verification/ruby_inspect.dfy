/** Ruby's `Array#to_s` (an alias of `inspect`) on an array of strings, e.g.
    `["99203_2.16.840.1.113883.6.12", "1_2"]`. Each element is written in
    double quotes with `"` and `\` escaped by a backslash, and elements are
    separated by `", "`. The rendering is prefix-free: a decoder reads the
    array back off the front of any string that starts with it. */
module RubyInspect {
  import opened Wrappers

  /** `String#inspect` without its surrounding quotes. */
  function Escape(s: string): string {
    if |s| == 0 then ""
    else (if s[0] == '"' || s[0] == '\\' then ['\\', s[0]] else [s[0]]) + Escape(s[1..])
  }

  /** `String#inspect`. */
  function Quote(s: string): string {
    "\"" + Escape(s) + "\""
  }

  /** The `, "…"` items after the first element. */
  function Tail(l: seq<string>): string {
    if |l| == 0 then "" else ", " + Quote(l[0]) + Tail(l[1..])
  }

  /** `Array#to_s` of an array of strings. */
  function Inspect(l: seq<string>): string {
    "[" + (if |l| == 0 then "" else Quote(l[0]) + Tail(l[1..])) + "]"
  }

  /** Reads an escaped string body up to its closing quote and returns the
      string and what follows the quote. */
  function ReadQuoted(s: string): (r: Option<(string, string)>)
    ensures r.Some? ==> |r.value.1| < |s|
    decreases |s|
  {
    if |s| == 0 then None
    else if s[0] == '"' then Some(("", s[1..]))
    else if s[0] == '\\' then
      if |s| < 2 then None
      else match ReadQuoted(s[2..])
        case None => None
        case Some(p) => Some(([s[1]] + p.0, p.1))
    else match ReadQuoted(s[1..])
      case None => None
      case Some(p) => Some(([s[0]] + p.0, p.1))
  }

  /** Reads `, "…"` items up to the closing bracket. */
  function ReadTail(s: string): (r: Option<(seq<string>, string)>)
    ensures r.Some? ==> |r.value.1| < |s|
    decreases |s|
  {
    if |s| >= 1 && s[0] == ']' then Some(([], s[1..]))
    else if |s| >= 3 && s[..3] == ", \"" then
      match ReadQuoted(s[3..])
      case None => None
      case Some(q) =>
        match ReadTail(q.1)
        case None => None
        case Some(t) => Some(([q.0] + t.0, t.1))
    else None
  }

  /** Reads an inspected array of strings off the front of `s`. */
  function ReadArray(s: string): Option<(seq<string>, string)> {
    if |s| >= 2 && s[..2] == "[]" then Some(([], s[2..]))
    else if |s| >= 2 && s[..2] == "[\"" then
      match ReadQuoted(s[2..])
      case None => None
      case Some(q) =>
        match ReadTail(q.1)
        case None => None
        case Some(t) => Some(([q.0] + t.0, t.1))
    else None
  }

  lemma {:induction false} ReadQuotedEscape(x: string, rest: string)
    ensures ReadQuoted(Escape(x) + "\"" + rest) == Some((x, rest))
    decreases |x|
  {
    var s := Escape(x) + "\"" + rest;
    if |x| == 0 {
      assert s == "\"" + rest;
    } else {
      ReadQuotedEscape(x[1..], rest);
      var c := x[0];
      assert x == [c] + x[1..];
      if c == '"' || c == '\\' {
        assert s == ['\\', c] + (Escape(x[1..]) + "\"" + rest);
        assert s[2..] == Escape(x[1..]) + "\"" + rest;
      } else {
        assert s == [c] + (Escape(x[1..]) + "\"" + rest);
        assert s[1..] == Escape(x[1..]) + "\"" + rest;
      }
    }
  }

  lemma {:induction false} ReadTailOfTail(l: seq<string>, rest: string)
    ensures ReadTail(Tail(l) + "]" + rest) == Some((l, rest))
    decreases |l|
  {
    var s := Tail(l) + "]" + rest;
    if |l| == 0 {
      assert s == "]" + rest;
    } else {
      var inner := Tail(l[1..]) + "]" + rest;
      assert s == ", \"" + (Escape(l[0]) + "\"" + inner);
      assert s[..3] == ", \"";
      assert s[3..] == Escape(l[0]) + "\"" + inner;
      ReadQuotedEscape(l[0], inner);
      ReadTailOfTail(l[1..], rest);
      assert l == [l[0]] + l[1..];
    }
  }

  /** Decoding what `Inspect` wrote, followed by anything, gives back the
      array and the remainder. */
  lemma ReadArrayInspect(l: seq<string>, rest: string)
    ensures ReadArray(Inspect(l) + rest) == Some((l, rest))
  {
    var s := Inspect(l) + rest;
    if |l| == 0 {
      assert s == "[]" + rest;
      assert s[..2] == "[]";
    } else {
      var inner := Tail(l[1..]) + "]" + rest;
      assert s == "[\"" + (Escape(l[0]) + "\"" + inner);
      assert s[..2] == "[\"";
      assert s[2..] == Escape(l[0]) + "\"" + inner;
      ReadQuotedEscape(l[0], inner);
      ReadTailOfTail(l[1..], rest);
      assert l == [l[0]] + l[1..];
    }
  }

  /** An inspected array followed by one suffix equals another inspected
      array followed by another suffix only when arrays and suffixes agree. */
  lemma InspectPrefixFree(a: seq<string>, r1: string, b: seq<string>, r2: string)
    ensures Inspect(a) + r1 == Inspect(b) + r2 <==> a == b && r1 == r2
  {
    if Inspect(a) + r1 == Inspect(b) + r2 {
      ReadArrayInspect(a, r1);
      ReadArrayInspect(b, r2);
    }
  }
}
