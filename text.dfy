/** The java.lang.String operations the services use, character by character.
    Case mapping covers ASCII letters only (see README, "Left out"). */
module Text {

  function Lower(c: char): char {
    if 'A' <= c <= 'Z' then (c as int + 32) as char else c
  }

  function Upper(c: char): char {
    if 'a' <= c <= 'z' then (c as int - 32) as char else c
  }

  /** String.toLowerCase */
  function ToLower(s: string): (r: string)
    ensures |r| == |s|
    ensures forall i :: 0 <= i < |s| ==> r[i] == Lower(s[i])
  {
    seq(|s|, i requires 0 <= i < |s| => Lower(s[i]))
  }

  /** String.toUpperCase */
  function ToUpper(s: string): (r: string)
    ensures |r| == |s|
    ensures forall i :: 0 <= i < |s| ==> r[i] == Upper(s[i])
  {
    seq(|s|, i requires 0 <= i < |s| => Upper(s[i]))
  }

  /** String.equalsIgnoreCase */
  predicate EqualsIgnoreCase(a: string, b: string) {
    |a| == |b| && forall i :: 0 <= i < |a| ==> Lower(a[i]) == Lower(b[i])
  }

  /** t occurs in s starting at position i. */
  predicate OccursAt(s: string, t: string, i: int) {
    0 <= i && i + |t| <= |s| && s[i..i + |t|] == t
  }

  /** String.contains */
  predicate Contains(s: string, t: string) {
    exists i | 0 <= i <= |s| - |t| :: OccursAt(s, t, i)
  }

  /** An occurrence of an occurrence is an occurrence. */
  lemma ContainsTrans(s: string, t: string, u: string)
    requires Contains(s, t) && Contains(t, u)
    ensures Contains(s, u)
  {
    var i :| 0 <= i <= |s| - |t| && OccursAt(s, t, i);
    var j :| 0 <= j <= |t| - |u| && OccursAt(t, u, j);
    forall k | 0 <= k < |u| ensures s[i + j + k] == u[k] {
      assert s[i..i + |t|][j + k] == s[i + j + k];
      assert t[j..j + |u|][k] == t[j + k];
    }
    assert s[i + j..i + j + |u|] == u;
    assert OccursAt(s, u, i + j);
  }

  /** String.startsWith */
  predicate StartsWith(s: string, p: string) {
    |p| <= |s| && s[..|p|] == p
  }

  /** String.endsWith */
  predicate EndsWith(s: string, p: string) {
    |p| <= |s| && s[|s| - |p|..] == p
  }

  /** Appending keeps a prefix. */
  lemma StartsWithAppend(s: string, p: string, t: string)
    requires StartsWith(s, p)
    ensures StartsWith(s + t, p)
  {
    assert (s + t)[..|p|] == s[..|p|];
  }

  /** A string ends with what was appended last. */
  lemma EndsWithAppended(s: string, t: string)
    ensures EndsWith(s + t, t)
  {
    assert (s + t)[|s + t| - |t|..] == t;
  }

  /** Replacement of one character by another everywhere (String.replace(char, char),
      or replaceAll with a one-character pattern that is not a regex metacharacter). */
  function ReplaceChar(s: string, c: char, d: char): (r: string)
    ensures |r| == |s|
    ensures forall i :: 0 <= i < |s| ==> r[i] == if s[i] == c then d else s[i]
  {
    seq(|s|, i requires 0 <= i < |s| => if s[i] == c then d else s[i])
  }

  /** Every character replaced by a string: the common shape of replace passes. */
  function Expand(s: string, f: char -> string): string {
    if s == [] then [] else f(s[0]) + Expand(s[1..], f)
  }

  lemma {:induction false} ExpandAppend(a: string, b: string, f: char -> string)
    ensures Expand(a + b, f) == Expand(a, f) + Expand(b, f)
  {
    if a != [] {
      assert (a + b)[1..] == a[1..] + b;
      ExpandAppend(a[1..], b, f);
    } else {
      assert a + b == b;
    }
  }

  lemma {:induction false} ExpandPointwise(s: string, f: char -> string, g: char -> string)
    requires forall c :: f(c) == g(c)
    ensures Expand(s, f) == Expand(s, g)
  {
    if s != [] {
      ExpandPointwise(s[1..], f, g);
    }
  }

  /** Two passes are one pass whose character images are expanded again. */
  lemma {:induction false} ExpandCompose(s: string, f: char -> string, g: char -> string)
    ensures Expand(Expand(s, f), g) == Expand(s, c => Expand(f(c), g))
  {
    if s != [] {
      calc {
        Expand(Expand(s, f), g);
        Expand(f(s[0]) + Expand(s[1..], f), g);
        { ExpandAppend(f(s[0]), Expand(s[1..], f), g); }
        Expand(f(s[0]), g) + Expand(Expand(s[1..], f), g);
        { ExpandCompose(s[1..], f, g); }
        Expand(f(s[0]), g) + Expand(s[1..], c => Expand(f(c), g));
      }
    }
  }

  lemma ExpandSingle(c: char, f: char -> string)
    ensures Expand([c], f) == f(c)
  {
    assert [c][1..] == [];
  }

  /** A pass that maps each character of s to itself leaves s unchanged. */
  lemma {:induction false} ExpandIdentity(s: string, f: char -> string)
    requires forall i :: 0 <= i < |s| ==> f(s[i]) == [s[i]]
    ensures Expand(s, f) == s
  {
    if s != [] {
      ExpandIdentity(s[1..], f);
    }
  }

  /** A character that no image contains is absent from the result. */
  lemma {:induction false} ExpandAvoids(s: string, f: char -> string, x: char)
    requires forall c :: x !in f(c)
    ensures x !in Expand(s, f)
  {
    if s != [] {
      ExpandAvoids(s[1..], f, x);
    }
  }

  /** A replace pass after a pass whose images never contain the target (except
      the target's own image, which is the target itself) merges into it. */
  lemma ReplaceStep(s: string, f: char -> string, g: char -> string, t: char, rep: string)
    requires f(t) == [t]
    requires forall c :: c != t ==> t !in f(c)
    requires forall c :: g(c) == if c == t then rep else f(c)
    ensures Replace(Expand(s, f), t, rep) == Expand(s, g)
  {
    var r := x => if x == t then rep else [x];
    ExpandCompose(s, f, r);
    forall c
      ensures Expand(f(c), r) == if c == t then rep else f(c)
    {
      if c == t {
        ExpandSingle(t, r);
      } else {
        ExpandIdentity(f(c), r);
      }
    }
    ExpandPointwise(s, c => Expand(f(c), r), g);
  }

  /** String.replace(CharSequence, CharSequence) with a one-character target. */
  function Replace(s: string, c: char, rep: string): string {
    Expand(s, x => if x == c then rep else [x])
  }

  /** String.replace(target, "") with a longer target: every non-overlapping
      occurrence, scanned from the left, is removed. */
  function RemoveAll(s: string, target: string): string
    requires target != []
    decreases |s|
  {
    if s == [] then []
    else if StartsWith(s, target) then RemoveAll(s[|target|..], target)
    else [s[0]] + RemoveAll(s[1..], target)
  }

  /** String.trim: strips leading and trailing characters at or below U+0020. */
  function Trim(s: string): (r: string)
    ensures |r| <= |s|
    ensures r == [] || (r[0] > ' ' && r[|r| - 1] > ' ')
  {
    TrimEndPrefix(TrimStart(s));
    TrimEnd(TrimStart(s))
  }

  /** The trimmed text is a piece of the original. */
  lemma TrimOccurs(s: string)
    ensures exists i :: OccursAt(s, Trim(s), i)
  {
    var t := TrimStart(s);
    var r := TrimEnd(t);
    TrimStartSuffix(s);
    TrimEndPrefix(t);
    assert r == Trim(s);
    assert s[|s| - |t|..|s| - |t| + |r|] == r by {
      assert t[..|r|] == s[|s| - |t|..][..|r|];
      assert s[|s| - |t|..][..|r|] == s[|s| - |t|..|s| - |t| + |r|];
    }
    assert OccursAt(s, r, |s| - |t|);
  }

  /** The leading characters at or below U+0020 removed. */
  function TrimStart(s: string): (r: string)
    ensures |r| <= |s|
    ensures r == [] || r[0] > ' '
  {
    if s != [] && s[0] <= ' ' then TrimStart(s[1..]) else s
  }

  /** What TrimStart removes is a run of blanks at the front. */
  lemma {:induction false} TrimStartSuffix(s: string)
    ensures TrimStart(s) == s[|s| - |TrimStart(s)|..]
    ensures forall i :: 0 <= i < |s| - |TrimStart(s)| ==> s[i] <= ' '
  {
    if s != [] && s[0] <= ' ' {
      TrimStartSuffix(s[1..]);
    }
  }

  /** The trailing characters at or below U+0020 removed. */
  function TrimEnd(s: string): (r: string)
    ensures |r| <= |s|
    ensures r == [] || r[|r| - 1] > ' '
  {
    if s != [] && s[|s| - 1] <= ' ' then TrimEnd(s[..|s| - 1]) else s
  }

  /** What TrimEnd removes is a run of blanks at the back. */
  lemma {:induction false} TrimEndPrefix(s: string)
    ensures TrimEnd(s) == s[..|TrimEnd(s)|]
    ensures forall i :: |TrimEnd(s)| <= i < |s| ==> s[i] <= ' '
  {
    if s != [] && s[|s| - 1] <= ' ' {
      TrimEndPrefix(s[..|s| - 1]);
    }
  }

  /** String.indexOf(char): the first position of c, or -1. */
  function IndexOf(s: string, c: char): (i: int)
    ensures -1 <= i < |s|
    ensures i == -1 <==> c !in s
    ensures 0 <= i ==> s[i] == c && c !in s[..i]
  {
    if s == [] then -1
    else if s[0] == c then 0
    else
      var j := IndexOf(s[1..], c);
      if j == -1 then -1 else j + 1
  }

  /** String.lastIndexOf(char): the last position of c, or -1. */
  function LastIndexOf(s: string, c: char): (i: int)
    ensures -1 <= i < |s|
    ensures i == -1 <==> c !in s
    ensures 0 <= i ==> s[i] == c && c !in s[i + 1..]
  {
    if s == [] then -1
    else if s[|s| - 1] == c then |s| - 1
    else
      var init := s[..|s| - 1];
      var j := LastIndexOf(init, c);
      assert s == init + [s[|s| - 1]];
      assert j >= 0 ==> s[j + 1..] == init[j + 1..] + [s[|s| - 1]];
      j
  }

  /** The part of a path after its last '/', or the whole path when it has none. */
  function Basename(s: string): (r: string)
    ensures '/' !in r
    ensures EndsWith(s, r)
  {
    if '/' in s then s[LastIndexOf(s, '/') + 1..] else s
  }

  predicate IsAsciiLetterOrDigit(c: char) {
    'a' <= c <= 'z' || 'A' <= c <= 'Z' || '0' <= c <= '9'
  }

  /** String.replaceAll("[^...]", "_"): every character that is not allowed
      becomes an underscore. */
  function Sanitize(s: string, allowed: char -> bool): (r: string)
    ensures |r| == |s|
    ensures forall i :: 0 <= i < |s| ==> r[i] == if allowed(s[i]) then s[i] else '_'
  {
    seq(|s|, i requires 0 <= i < |s| => if allowed(s[i]) then s[i] else '_')
  }

  /** Collectors.joining(sep) */
  function Join(parts: seq<string>, sep: string): string {
    if parts == [] then []
    else if |parts| == 1 then parts[0]
    else parts[0] + sep + Join(parts[1..], sep)
  }

  function DigitChar(d: nat): char
    requires d < 10
  {
    ('0' as int + d) as char
  }

  function NatToString(n: nat): (r: string)
    ensures |r| > 0
    decreases n
  {
    if n < 10 then [DigitChar(n)] else NatToString(n / 10) + [DigitChar(n % 10)]
  }

  /** Integer.toString / Long.toString */
  function IntToString(i: int): string {
    if i < 0 then "-" + NatToString(-i) else NatToString(i)
  }
}
