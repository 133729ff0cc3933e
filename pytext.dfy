/** The handful of Python 3 string primitives the ping tool's report handling
    is built from: `str.split(sep)`, whitespace `str.split()`, `sep.join(...)`,
    `int(...)` on decimal text, `"%i" % n`, `str.startswith` and clamped
    slicing. Each is written out as the Python runtime behaves, together with
    the laws the rest of the model leans on (split and join are inverse,
    `int` undoes `%i`). */
module PyText {

  datatype Option<+T> = None | Some(value: T)

  /** `c.isspace()`: the characters Python 3 treats as whitespace, which is
      what `str.split()` with no argument splits on. */
  predicate IsSpace(c: char)
  {
    || c == ' '
    || '\t' <= c <= '\r'
    || '\U{1C}' <= c <= '\U{1F}'
    || c == '\U{85}' || c == '\U{A0}' || c == '\U{1680}'
    || '\U{2000}' <= c <= '\U{200A}'
    || c == '\U{2028}' || c == '\U{2029}' || c == '\U{202F}'
    || c == '\U{205F}' || c == '\U{3000}'
  }

  predicate IsDigit(c: char)
  {
    '0' <= c <= '9'
  }

  predicate AllDigits(s: string)
  {
    forall k :: 0 <= k < |s| ==> IsDigit(s[k])
  }

  /** A non-empty run of non-whitespace characters: what `str.split()` yields. */
  predicate IsWord(w: string)
  {
    |w| > 0 && forall k :: 0 <= k < |w| ==> !IsSpace(w[k])
  }

  /** Two words written together form one word. */
  lemma WordConcat(a: string, b: string)
    requires IsWord(a) && IsWord(b)
    ensures IsWord(a + b)
  {
    forall k | 0 <= k < |a + b| ensures !IsSpace((a + b)[k]) {
      if k >= |a| {
        assert (a + b)[k] == b[k - |a|];
      }
    }
  }

  /** `s.startswith(p)` */
  predicate StartsWith(s: string, p: string)
  {
    |p| <= |s| && s[..|p|] == p
  }

  predicate EndsWith(s: string, p: string)
  {
    |p| <= |s| && s[|s| - |p|..] == p
  }

  /** `s[i:j]` for non-negative bounds: Python clamps both bounds to the
      length instead of failing. */
  function Slice(s: string, i: nat, j: nat): (r: string)
    ensures |r| <= |s|
    ensures j <= |s| && i <= j ==> r == s[i..j]
    ensures |s| < j ==> |r| < j - i || r == []
  {
    var lo := if i < |s| then i else |s|;
    var hi := if j < |s| then j else |s|;
    if lo <= hi then s[lo..hi] else []
  }

  /** `s[:-k]` for k >= 1: everything but the last k characters, or the
      empty string when s is shorter than k. */
  function DropLast(s: string, k: nat): (r: string)
    requires k >= 1
    ensures |s| >= k ==> r + s[|s| - k..] == s
    ensures |s| >= k ==> |r| == |s| - k
    ensures |s| < k ==> r == []
  {
    if |s| >= k then s[..|s| - k] else []
  }

  // ---------------------------------------------------------------------
  // s.split(c) for a one-character separator, and sep.join(parts)

  /** Position of the first occurrence of c in s. */
  function IndexOf(s: string, c: char): (k: nat)
    requires c in s
    ensures k < |s| && s[k] == c && c !in s[..k]
  {
    if s[0] == c then 0 else 1 + IndexOf(s[1..], c)
  }

  /** `s.split(c)`: the pieces between occurrences of c, empty pieces kept,
      so that a string without c gives the one-element list [s]. */
  function SplitOn(s: string, c: char): (parts: seq<string>)
    ensures |parts| >= 1
    ensures forall k :: 0 <= k < |parts| ==> c !in parts[k]
    decreases |s|
  {
    if c !in s then [s]
    else
      var k := IndexOf(s, c);
      [s[..k]] + SplitOn(s[k + 1..], c)
  }

  /** `sep.join(parts)` */
  function Join(sep: string, parts: seq<string>): string
  {
    if |parts| == 0 then []
    else if |parts| == 1 then parts[0]
    else parts[0] + sep + Join(sep, parts[1..])
  }

  lemma JoinCons(sep: string, p: string, rest: seq<string>)
    requires |rest| > 0
    ensures Join(sep, [p] + rest) == p + sep + Join(sep, rest)
  {
    assert ([p] + rest)[1..] == rest;
  }

  lemma JoinTwo(sep: string, parts: seq<string>)
    requires |parts| > 2
    ensures Join(sep, parts) == (parts[0] + sep + parts[1]) + (sep + Join(sep, parts[2..]))
  {
    assert parts[1..][1..] == parts[2..];
  }

  lemma ConcatAssoc(a: string, b: string, c: string)
    ensures (a + b) + c == a + (b + c)
  {
  }

  lemma ConcatCongruence(a: string, b: string, rest: string)
    requires a == b
    ensures a + rest == b + rest
  {
  }

  lemma StartsWithPrefix(p: string, rest: string)
    ensures StartsWith(p + rest, p)
  {
    assert (p + rest)[..|p|] == p;
  }

  /** A character in neither the separator nor any part is not in the join. */
  lemma {:induction false} JoinAvoids(sep: string, parts: seq<string>, c: char)
    requires c !in sep
    requires forall k :: 0 <= k < |parts| ==> c !in parts[k]
    ensures c !in Join(sep, parts)
  {
    if |parts| > 1 {
      JoinAvoids(sep, parts[1..], c);
    }
  }

  lemma AvoidsConcat(a: string, b: string, c: char)
    requires c !in a && c !in b
    ensures c !in a + b
  {
  }

  /** Number of occurrences of c in s. */
  function Occurrences(s: string, c: char): nat
  {
    multiset(s)[c]
  }

  /** Joining the pieces of a split with the same separator gives back the
      original string. */
  lemma {:induction false} JoinSplit(s: string, c: char)
    ensures Join([c], SplitOn(s, c)) == s
    decreases |s|
  {
    if c in s {
      var k := IndexOf(s, c);
      var rest := s[k + 1..];
      var tail := SplitOn(rest, c);
      assert SplitOn(s, c) == [s[..k]] + tail;
      JoinCons([c], s[..k], tail);
      JoinSplit(rest, c);
      assert s == s[..k] + [c] + rest;
    } else {
      assert SplitOn(s, c) == [s];
    }
  }

  /** Splitting a join gives back the parts, provided no part holds the
      separator (there is at least one part: `"".split(c)` is `[""]`). */
  lemma {:induction false} SplitJoin(parts: seq<string>, c: char)
    requires |parts| >= 1
    requires forall k :: 0 <= k < |parts| ==> c !in parts[k]
    ensures SplitOn(Join([c], parts), c) == parts
  {
    if |parts| > 1 {
      var rest := Join([c], parts[1..]);
      var s := parts[0] + [c] + rest;
      assert c in s by { assert s[|parts[0]|] == c; }
      IndexOfAfter(parts[0], c, rest);
      assert s[..|parts[0]|] == parts[0];
      assert s[|parts[0]| + 1..] == rest;
      SplitJoin(parts[1..], c);
    }
  }

  /** Two pieces around one separator split back into the two. */
  lemma SplitTwo(x: string, y: string, c: char)
    requires c !in x && c !in y
    ensures SplitOn(x + [c] + y, c) == [x, y]
  {
    SplitJoin([x, y], c);
  }

  /** The first separator of p + [c] + rest is the one after p. */
  lemma IndexOfAfter(p: string, c: char, rest: string)
    requires c !in p
    ensures c in p + [c] + rest && IndexOf(p + [c] + rest, c) == |p|
  {
    var s := p + [c] + rest;
    assert s[|p|] == c;
  }

  /** A split yields one more piece than there are separators. */
  lemma {:induction false} SplitCount(s: string, c: char)
    ensures |SplitOn(s, c)| == Occurrences(s, c) + 1
    decreases |s|
  {
    if c !in s {
      assert multiset(s)[c] == 0;
    } else {
      var k := IndexOf(s, c);
      SplitCount(s[k + 1..], c);
      assert s == s[..k] + [c] + s[k + 1..];
      assert multiset(s) == multiset(s[..k]) + multiset{c} + multiset(s[k + 1..]);
      assert multiset(s[..k])[c] == 0;
    }
  }

  // ---------------------------------------------------------------------
  // s.split() with no argument

  /** Length of the run of non-whitespace characters at the start of s. */
  function WordLen(s: string): (n: nat)
    ensures n <= |s|
    ensures forall k :: 0 <= k < n ==> !IsSpace(s[k])
    ensures n < |s| ==> IsSpace(s[n])
  {
    if s == [] || IsSpace(s[0]) then 0 else 1 + WordLen(s[1..])
  }

  /** `s.split()`: the maximal runs of non-whitespace characters, in order;
      leading, trailing and repeated whitespace produce no empty fields. */
  function Fields(s: string): (r: seq<string>)
    ensures forall k :: 0 <= k < |r| ==> IsWord(r[k])
    decreases |s|
  {
    if s == [] then []
    else if IsSpace(s[0]) then Fields(s[1..])
    else
      var n := WordLen(s);
      [s[..n]] + Fields(s[n..])
  }

  /** A word followed by whitespace (or by nothing) is the first field. */
  lemma FieldsWord(w: string, rest: string)
    requires IsWord(w)
    requires rest == [] || IsSpace(rest[0])
    ensures Fields(w + rest) == [w] + Fields(rest)
  {
    var s := w + rest;
    assert WordLen(s) == |w|;
    assert s[..|w|] == w && s[|w|..] == rest;
  }

  /** Words joined by single spaces split back into the same words: the
      whitespace split undoes `" ".join`. */
  lemma {:induction false} FieldsUnwords(ws: seq<string>)
    requires forall k :: 0 <= k < |ws| ==> IsWord(ws[k])
    ensures Fields(Join(" ", ws)) == ws
  {
    if |ws| == 1 {
      FieldsWord(ws[0], []);
      assert ws[0] + [] == ws[0];
    } else if |ws| > 1 {
      var tail := Join(" ", ws[1..]);
      ConcatAssoc(ws[0], " ", tail);
      FieldsWord(ws[0], " " + tail);
      FieldsSkipSpace(tail);
      FieldsUnwords(ws[1..]);
      assert ws == [ws[0]] + ws[1..];
    }
  }

  /** A leading space yields no field. */
  lemma FieldsSkipSpace(s: string)
    ensures Fields(" " + s) == Fields(s)
  {
    assert (" " + s)[1..] == s;
  }

  // ---------------------------------------------------------------------
  // "%i" % n and int(s)

  function DigitChar(d: nat): (c: char)
    requires d < 10
    ensures IsDigit(c)
  {
    ('0' as int + d) as char
  }

  /** `"%i" % n` for a non-negative n: decimal digits, no leading zero. */
  function NatToString(n: nat): (r: string)
    ensures |r| > 0 && AllDigits(r)
    ensures |r| > 1 ==> r[0] != '0'
    ensures |r| == 1 <==> n < 10
  {
    if n < 10 then [DigitChar(n)]
    else NatToString(n / 10) + [DigitChar(n % 10)]
  }

  /** The number a string of decimal digits denotes. */
  function DigitsValue(s: string): nat
    requires AllDigits(s)
  {
    if s == [] then 0
    else 10 * DigitsValue(s[..|s| - 1]) + (s[|s| - 1] as int - '0' as int)
  }

  /** `int(s)` restricted to plain decimal text: the value of a non-empty
      digit string, and None where Python raises ValueError. */
  function ParseNat(s: string): (r: Option<nat>)
    ensures r.Some? <==> |s| > 0 && AllDigits(s)
  {
    if |s| > 0 && AllDigits(s) then Some(DigitsValue(s)) else None
  }

  /** `int` undoes `%i`. */
  lemma {:induction false} ParseNatToString(n: nat)
    ensures ParseNat(NatToString(n)) == Some(n)
  {
    DigitsOfNat(n);
  }

  lemma {:induction false} DigitsOfNat(n: nat)
    ensures DigitsValue(NatToString(n)) == n
  {
    if n >= 10 {
      var s := NatToString(n);
      assert s[..|s| - 1] == NatToString(n / 10);
      DigitsOfNat(n / 10);
    }
  }
}
