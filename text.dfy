/** Character classes and the string primitives Python's str methods
    provide to the modelled code: lower(), strip(), filtering, joining
    and splitting. */
module Text {

  /** Python's str.isspace(): the characters whose bidirectional class is
      WS, B or S, or whose category is Zs. */
  predicate IsSpace(c: char) {
    var n := c as int;
    n == 0x20 || 0x09 <= n <= 0x0d || 0x1c <= n <= 0x1f ||
    n == 0x85 || n == 0xa0 || n == 0x1680 || 0x2000 <= n <= 0x200a ||
    n == 0x2028 || n == 0x2029 || n == 0x202f || n == 0x205f || n == 0x3000
  }

  predicate IsAsciiUpper(c: char) {
    'A' <= c <= 'Z'
  }

  predicate IsAsciiAlnum(c: char) {
    'a' <= c <= 'z' || 'A' <= c <= 'Z' || '0' <= c <= '9'
  }

  /** ASCII lower-casing of one character. */
  function LowerChar(c: char): (r: char)
    ensures !IsAsciiUpper(c) ==> r == c
    ensures IsAsciiUpper(c) ==> 'a' <= r <= 'z'
  {
    if IsAsciiUpper(c) then (c as int + 32) as char else c
  }

  /** str.lower(), restricted to ASCII letters. */
  function Lower(s: string): (r: string)
    ensures |r| == |s|
    ensures forall i :: 0 <= i < |s| ==> r[i] == LowerChar(s[i])
  {
    if s == [] then [] else [LowerChar(s[0])] + Lower(s[1..])
  }

  lemma {:induction false} LowerAppend(a: string, b: string)
    ensures Lower(a + b) == Lower(a) + Lower(b)
  {
    var l := Lower(a + b);
    var r := Lower(a) + Lower(b);
    forall i | 0 <= i < |l| ensures l[i] == r[i] {
      if i < |a| {
        assert (a + b)[i] == a[i];
      } else {
        assert (a + b)[i] == b[i - |a|];
      }
    }
    assert l == r;
  }

  /** Drops the longest prefix whose characters satisfy `drop`. */
  function DropLeading(s: string, drop: char -> bool): (r: string)
    ensures |r| <= |s|
    ensures s != [] && drop(s[0]) ==> |r| < |s|
    ensures r == [] || !drop(r[0])
    decreases |s|
  {
    if s != [] && drop(s[0]) then DropLeading(s[1..], drop) else s
  }

  /** What DropLeading removed: a prefix of dropped characters. */
  lemma {:induction false} DropLeadingSplit(s: string, drop: char -> bool)
    ensures var r := DropLeading(s, drop);
            && s == s[..|s| - |r|] + r
            && forall i :: 0 <= i < |s| - |r| ==> drop(s[i])
    decreases |s|
  {
    if s != [] && drop(s[0]) {
      DropLeadingSplit(s[1..], drop);
    }
  }

  /** Drops the longest suffix whose characters satisfy `drop`. */
  function DropTrailing(s: string, drop: char -> bool): (r: string)
    ensures |r| <= |s|
    ensures r == [] || !drop(r[|r| - 1])
    decreases |s|
  {
    if s != [] && drop(s[|s| - 1]) then DropTrailing(s[..|s| - 1], drop) else s
  }

  /** What DropTrailing removed: a suffix of dropped characters. */
  lemma {:induction false} DropTrailingSplit(s: string, drop: char -> bool)
    ensures var r := DropTrailing(s, drop);
            && s == r + s[|r|..]
            && forall i :: |r| <= i < |s| ==> drop(s[i])
    decreases |s|
  {
    if s != [] && drop(s[|s| - 1]) {
      DropTrailingSplit(s[..|s| - 1], drop);
    }
  }

  /** The length of the longest prefix whose characters satisfy `keep`. */
  function PrefixLength(s: string, keep: char -> bool): (k: nat)
    ensures k <= |s|
    ensures forall i :: 0 <= i < k ==> keep(s[i])
    ensures k == |s| || !keep(s[k])
  {
    if s != [] && keep(s[0]) then 1 + PrefixLength(s[1..], keep) else 0
  }

  /** str.strip() with no argument. */
  function Strip(s: string): string {
    DropTrailing(DropLeading(s, IsSpace), IsSpace)
  }

  /** The result of `strip()` neither starts nor ends with whitespace. */
  lemma StripTrims(s: string)
    ensures var r := Strip(s); r == [] || (!IsSpace(r[0]) && !IsSpace(r[|r| - 1]))
  {
    var t := DropLeading(s, IsSpace);
    var r := DropTrailing(t, IsSpace);
    DropTrailingSplit(t, IsSpace);
    if r != [] {
      assert t == r + t[|r|..];
      assert r[0] == t[0];
    }
  }

  /** The characters of `s` that satisfy `p`, in order. */
  function Keep(s: string, p: char -> bool): string
  {
    if s == [] then [] else (if p(s[0]) then [s[0]] else []) + Keep(s[1..], p)
  }

  lemma {:induction false} KeepAppend(a: string, b: string, p: char -> bool)
    ensures Keep(a + b, p) == Keep(a, p) + Keep(b, p)
  {
    if a == [] {
      assert a + b == b;
    } else {
      assert (a + b)[1..] == a[1..] + b;
      KeepAppend(a[1..], b, p);
    }
  }

  lemma {:induction false} KeepAll(s: string, p: char -> bool)
    requires forall i :: 0 <= i < |s| ==> p(s[i])
    ensures Keep(s, p) == s
  {
    if s != [] {
      KeepAll(s[1..], p);
    }
  }

  lemma {:induction false} KeepNone(s: string, p: char -> bool)
    requires forall i :: 0 <= i < |s| ==> !p(s[i])
    ensures Keep(s, p) == []
  {
    if s != [] {
      KeepNone(s[1..], p);
    }
  }

  /** `sep.join(parts)` for a one-character separator. */
  function Join(sep: char, parts: seq<string>): string {
    if parts == [] then ""
    else if |parts| == 1 then parts[0]
    else parts[0] + [sep] + Join(sep, parts[1..])
  }

  /** `s.split(sep)`: the pieces between occurrences of `sep`; there is
      always one piece more than there are separators. */
  function Split(sep: char, s: string): (pieces: seq<string>)
    ensures |pieces| >= 1
    decreases |s|
  {
    var k := PrefixLength(s, c => c != sep);
    if k == |s| then [s] else [s[..k]] + Split(sep, s[k + 1..])
  }

  /** Splitting undoes joining when no part contains the separator. */
  lemma {:induction false} SplitJoin(sep: char, parts: seq<string>)
    requires parts != []
    requires forall i :: 0 <= i < |parts| ==> sep !in parts[i]
    ensures Split(sep, Join(sep, parts)) == parts
  {
    var p := parts[0];
    assert forall i :: 0 <= i < |p| ==> p[i] != sep by {
      forall i | 0 <= i < |p| ensures p[i] != sep {
        assert p[i] in parts[0];
      }
    }
    if |parts| == 1 {
      assert PrefixLength(p, c => c != sep) == |p|;
    } else {
      var rest := Join(sep, parts[1..]);
      var s := p + [sep] + rest;
      var k := PrefixLength(s, c => c != sep);
      assert s[|p|] == sep;
      assert forall i :: 0 <= i < |p| ==> s[i] == p[i];
      assert k == |p|;
      assert s[..k] == p;
      assert s[k + 1..] == rest;
      SplitJoin(sep, parts[1..]);
    }
  }
}
