/** The string primitives the source leans on: `includes`, `startsWith`,
    `Array.prototype.join`, `String.prototype.split` on one character,
    a global one-character `replace`, `trim`, and the decimal rendering of a
    non-negative integer in a template literal. */
module Strings {

  /** `p` is a prefix of `s` (`s.startsWith(p)`). */
  predicate IsPrefix(p: string, s: string) {
    |p| <= |s| && s[..|p|] == p
  }

  /** `s.includes(sub)`. */
  predicate Contains(s: string, sub: string)
    decreases |s|
  {
    IsPrefix(sub, s) || (|s| > 0 && Contains(s[1..], sub))
  }

  /** Two strings that differ at an index both have differ, and neither is a
      prefix of the other. */
  lemma DifferAt(a: string, b: string, k: nat)
    requires k < |a| && k < |b| && a[k] != b[k]
    ensures a != b && !IsPrefix(a, b) && !IsPrefix(b, a)
  {
    assert |a| <= |b| ==> b[..|a|][k] == b[k];
    assert |b| <= |a| ==> a[..|b|][k] == a[k];
  }

  lemma PrefixOfConcat(p: string, t: string)
    ensures IsPrefix(p, p + t)
  {
    assert (p + t)[..|p|] == p;
  }

  /** Where the three parts of `d + j + l` sit. */
  lemma ThreeParts(d: string, j: string, l: string)
    ensures var p := d + j + l;
      && IsPrefix(d, p) && |d| + |j| <= |p| && p[|d|..|d| + |j|] == j
      && |l| <= |p| && p[|p| - |l|..] == l
  {
    var p := d + j + l;
    assert p[..|d|] == d;
    assert p[|d|..|d| + |j|] == j;
    assert p[|p| - |l|..] == l;
  }

  /** A join opens with its first part. */
  lemma JoinStartsWithFirst(parts: seq<string>, sep: string)
    requires |parts| > 0
    ensures IsPrefix(parts[0], Join(parts, sep))
  {
    if |parts| > 1 {
      assert Join(parts, sep) == parts[0] + (sep + Join(parts[1..], sep));
      PrefixOfConcat(parts[0], sep + Join(parts[1..], sep));
    } else {
      PrefixOfConcat(parts[0], "");
      assert parts[0] + "" == parts[0];
    }
  }

  lemma ConcatAssoc(a: string, b: string, c: string)
    ensures a + b + c == a + (b + c)
  {
  }

  lemma Regroup(a: string, b: string, c: string, d: string, e: string)
    ensures a + b + c + d + e == a + b + (c + d + e)
  {
  }

  /** A string framed by the same prefix and suffix determines the framed part. */
  lemma FrameCancel(x: string, m1: string, m2: string, y: string)
    ensures x + m1 + y == x + m2 + y <==> m1 == m2
  {
    if x + m1 + y == x + m2 + y {
      assert |m1| == |m2|;
      assert (x + m1 + y)[|x|..|x| + |m1|] == m1;
      assert (x + m2 + y)[|x|..|x| + |m2|] == m2;
    }
  }

  /** The text before the first occurrence of a separator is determined, and
      so is the text after it. */
  lemma SeparatorCancel(a: string, x: string, c: string, y: string, sep: char)
    requires sep !in a && sep !in c
    requires a + [sep] + x == c + [sep] + y
    ensures a == c && x == y
  {
    var l, r := a + [sep] + x, c + [sep] + y;
    assert l[|a|] == sep && r[|c|] == sep;
    assert a == l[..|a|] && c == r[..|c|];
    assert x == l[|a| + 1..] && y == r[|c| + 1..];
  }

  /** After a common prefix, a field free of the separator is determined by
      the string, and so is the rest starting at the separator. */
  lemma FieldCancel(p: string, a1: string, t1: string, a2: string, t2: string, sep: char)
    requires sep !in a1 && sep !in a2
    requires |t1| > 0 && t1[0] == sep && |t2| > 0 && t2[0] == sep
    requires p + a1 + t1 == p + a2 + t2
    ensures a1 == a2 && t1 == t2
  {
    var l, r := p + a1 + t1, p + a2 + t2;
    assert l[|p|..] == a1 + t1 && r[|p|..] == a2 + t2;
    assert a1 + t1 == a1 + [sep] + t1[1..];
    assert a2 + t2 == a2 + [sep] + t2[1..];
    SeparatorCancel(a1, t1[1..], a2, t2[1..], sep);
  }

  // ---------------------------------------------------------------------
  // join / split

  /** `parts.join(sep)`: the empty array joins to the empty string. */
  function Join(parts: seq<string>, sep: string): string
    decreases |parts|
  {
    if |parts| == 0 then ""
    else if |parts| == 1 then parts[0]
    else parts[0] + sep + Join(parts[1..], sep)
  }

  /** `s.split(c)` for a one-character separator: always at least one piece. */
  function Split(s: string, c: char): (r: seq<string>)
    ensures |r| >= 1
    decreases |s|
  {
    if |s| == 0 then [""]
    else if s[0] == c then [""] + Split(s[1..], c)
    else
      var rest := Split(s[1..], c);
      [[s[0]] + rest[0]] + rest[1..]
  }

  /** A piece without the separator glues onto the first piece of what follows. */
  lemma {:induction false} SplitGlue(x: string, t: string, c: char)
    requires c !in x
    ensures Split(x + t, c) == [x + Split(t, c)[0]] + Split(t, c)[1..]
    decreases |x|
  {
    if |x| > 0 {
      assert (x + t)[0] == x[0];
      assert (x + t)[1..] == x[1..] + t;
      SplitGlue(x[1..], t, c);
      assert [x[0]] + (x[1..] + Split(t, c)[0]) == x + Split(t, c)[0];
    } else {
      var r := Split(t, c);
      assert x + t == t;
      assert x + r[0] == r[0];
      assert [r[0]] + r[1..] == r;
    }
  }

  /** Splitting undoes joining when no part contains the separator. */
  lemma {:induction false} SplitJoin(parts: seq<string>, c: char)
    requires |parts| >= 1
    requires forall i :: 0 <= i < |parts| ==> c !in parts[i]
    ensures Split(Join(parts, [c]), c) == parts
    decreases |parts|
  {
    if |parts| == 1 {
      SplitGlue(parts[0], "", c);
      assert parts[0] + "" == parts[0];
    } else {
      var t := Join(parts[1..], [c]);
      SplitJoin(parts[1..], c);
      assert parts[0] + [c] + t == parts[0] + ([c] + t);
      SplitGlue(parts[0], [c] + t, c);
      assert ([c] + t)[0] == c && ([c] + t)[1..] == t;
      assert Split([c] + t, c) == [""] + parts[1..];
      assert parts[0] + "" == parts[0];
      assert [parts[0]] + parts[1..] == parts;
    }
  }

  // ---------------------------------------------------------------------
  // global replacement of one character

  /** `s.replace(/c/g, rep)`. */
  function ReplaceChar(s: string, c: char, rep: string): string
    decreases |s|
  {
    if |s| == 0 then ""
    else (if s[0] == c then rep else [s[0]]) + ReplaceChar(s[1..], c, rep)
  }

  lemma {:induction false} ReplaceCharConcat(a: string, b: string, c: char, rep: string)
    ensures ReplaceChar(a + b, c, rep) == ReplaceChar(a, c, rep) + ReplaceChar(b, c, rep)
    decreases |a|
  {
    if |a| == 0 {
      assert a + b == b;
    } else {
      assert (a + b)[0] == a[0];
      assert (a + b)[1..] == a[1..] + b;
      ReplaceCharConcat(a[1..], b, c, rep);
    }
  }

  lemma ReplaceCharSingle(x: char, c: char, rep: string)
    ensures ReplaceChar([x], c, rep) == if x == c then rep else [x]
  {
    assert [x][1..] == "";
  }

  /** Replacing a character that does not occur changes nothing. */
  lemma {:induction false} ReplaceCharAbsent(s: string, c: char, rep: string)
    requires c !in s
    ensures ReplaceChar(s, c, rep) == s
    decreases |s|
  {
    if |s| > 0 {
      assert c !in s[1..];
      ReplaceCharAbsent(s[1..], c, rep);
      assert [s[0]] + s[1..] == s;
    }
  }

  // ---------------------------------------------------------------------
  // trim

  /** The ECMAScript WhiteSpace and LineTerminator code points, which
      `String.prototype.trim` removes at both ends. */
  predicate IsWhitespace(c: char) {
    || c == '\t' || c == '\n' || c == '\U{000B}' || c == '\U{000C}' || c == '\r'
    || c == ' ' || c == '\U{00A0}' || c == '\U{1680}'
    || ('\U{2000}' <= c <= '\U{200A}')
    || c == '\U{2028}' || c == '\U{2029}' || c == '\U{202F}' || c == '\U{205F}'
    || c == '\U{3000}' || c == '\U{FEFF}'
  }

  /** The suffix left after dropping leading whitespace. */
  function TrimStart(s: string): (r: string)
    ensures |r| <= |s| && r == s[|s| - |r|..]
    ensures forall k :: 0 <= k < |s| - |r| ==> IsWhitespace(s[k])
    ensures |r| > 0 ==> !IsWhitespace(r[0])
    decreases |s|
  {
    if |s| > 0 && IsWhitespace(s[0]) then TrimStart(s[1..]) else s
  }

  /** The prefix left after dropping trailing whitespace. */
  function TrimEnd(s: string): (r: string)
    ensures |r| <= |s| && r == s[..|r|]
    ensures forall k :: |r| <= k < |s| ==> IsWhitespace(s[k])
    ensures |r| > 0 ==> !IsWhitespace(r[|r| - 1])
    decreases |s|
  {
    if |s| > 0 && IsWhitespace(s[|s| - 1]) then TrimEnd(s[..|s| - 1]) else s
  }

  /** `r` is the slice of `s` starting at `i`, and everything of `s` outside
      that slice is whitespace. */
  predicate TrimmedSliceAt(s: string, r: string, i: nat) {
    && i + |r| <= |s| && r == s[i..i + |r|]
    && (forall k :: 0 <= k < i ==> IsWhitespace(s[k]))
    && (forall k :: i + |r| <= k < |s| ==> IsWhitespace(s[k]))
  }

  /** `s.trim()`: a contiguous slice of `s` with only whitespace cut away on
      either side, and no whitespace left at either end. */
  function Trim(s: string): (r: string)
    ensures exists i: nat :: TrimmedSliceAt(s, r, i)
    ensures |r| > 0 ==> !IsWhitespace(r[0]) && !IsWhitespace(r[|r| - 1])
  {
    var t := TrimStart(s);
    var r := TrimEnd(t);
    var i := |s| - |t|;
    assert r == s[i..i + |r|];
    assert forall k :: i + |r| <= k < |s| ==> s[k] == t[k - i];
    assert TrimmedSliceAt(s, r, i);
    r
  }

  lemma TrimIdempotent(s: string)
    ensures Trim(Trim(s)) == Trim(s)
  {
    var r := Trim(s);
    if |r| > 0 {
      assert TrimStart(r) == r;
      assert TrimEnd(r) == r;
    }
  }

  // ---------------------------------------------------------------------
  // decimal rendering

  predicate AllDigits(s: string) {
    forall i :: 0 <= i < |s| ==> '0' <= s[i] <= '9'
  }

  /** Reads a string of decimal digits back as a number. */
  function DecimalValue(s: string): nat
    requires AllDigits(s)
    decreases |s|
  {
    if |s| == 0 then 0
    else DecimalValue(s[..|s| - 1]) * 10 + (s[|s| - 1] as int - '0' as int)
  }

  function DigitChar(d: nat): (c: char)
    requires d < 10
    ensures '0' <= c <= '9' && c as int - '0' as int == d
  {
    ('0' as int + d) as char
  }

  /** `${n}` for a non-negative integer: shortest decimal digits, no leading
      zero, reading back as `n`. */
  function NatToString(n: nat): (r: string)
    ensures |r| >= 1 && AllDigits(r) && DecimalValue(r) == n
    ensures |r| > 1 ==> r[0] != '0'
    decreases n
  {
    if n < 10 then [DigitChar(n)]
    else
      var h := NatToString(n / 10);
      var r := h + [DigitChar(n % 10)];
      assert r[..|r| - 1] == h;
      r
  }
}
