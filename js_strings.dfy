/** The JavaScript string primitives the packager relies on, stated over
    Dafny strings: indexOf, replace with a string pattern (first occurrence
    only), replace with a global literal pattern, split(sep)[0], trim,
    toLowerCase on ASCII letters, and Array.prototype.join. */
module JsStrings {
  import opened Blobs

  /** `pat` occurs in `s` starting at index `i`. */
  predicate OccursAt(s: string, pat: string, i: nat) {
    i + |pat| <= |s| && s[i..i + |pat|] == pat
  }

  predicate Contains(s: string, pat: string) {
    exists i: nat :: i <= |s| && OccursAt(s, pat, i)
  }

  /** The first index at or after `from` where `pat` occurs. */
  function IndexFrom(s: string, pat: string, from: nat): (r: Option<nat>)
    decreases |s| - from
    ensures r.Some? ==> from <= r.value && OccursAt(s, pat, r.value)
    ensures r.Some? ==> forall j: nat :: from <= j < r.value ==> !OccursAt(s, pat, j)
    ensures r.None? ==> forall j: nat :: from <= j ==> !OccursAt(s, pat, j)
  {
    if from + |pat| > |s| then None
    else if s[from..from + |pat|] == pat then Some(from)
    else IndexFrom(s, pat, from + 1)
  }

  /** String.prototype.indexOf: the first occurrence, if any. */
  function IndexOf(s: string, pat: string): (r: Option<nat>)
    ensures r.Some? ==> OccursAt(s, pat, r.value)
    ensures r.Some? ==> forall j: nat :: j < r.value ==> !OccursAt(s, pat, j)
    ensures r.None? <==> !Contains(s, pat)
  {
    IndexFrom(s, pat, 0)
  }

  /** `i` is the first index where `pat` occurs in `s`. */
  predicate FirstOccurrence(s: string, pat: string, i: nat) {
    OccursAt(s, pat, i) && forall j: nat :: j < i ==> !OccursAt(s, pat, j)
  }

  /** `s.replace(pat, rep)` with a string pattern: only the first
      occurrence is replaced, and `rep` is inserted literally. */
  function ReplaceFirst(s: string, pat: string, rep: string): string
  {
    match IndexOf(s, pat)
    case None => s
    case Some(i) => s[..i] + rep + s[i + |pat|..]
  }

  /** Without an occurrence nothing changes; otherwise the first
      occurrence, and only it, is replaced. */
  lemma ReplaceFirstSpec(s: string, pat: string, rep: string)
    ensures !Contains(s, pat) ==> ReplaceFirst(s, pat, rep) == s
    ensures Contains(s, pat) ==>
      exists i: nat :: i <= |s| && FirstOccurrence(s, pat, i) && ReplaceFirst(s, pat, rep) == s[..i] + rep + s[i + |pat|..]
  {
    if Contains(s, pat) {
      var i := IndexOf(s, pat).value;
      assert FirstOccurrence(s, pat, i);
    }
  }

  /** A string that starts with `pat` has it replaced at the front. */
  lemma ReplaceFirstAtFront(s: string, pat: string, rep: string)
    requires pat <= s
    ensures ReplaceFirst(s, pat, rep) == rep + s[|pat|..]
  {
    assert OccursAt(s, pat, 0);
  }

  /** Replacement happens at the first occurrence. */
  lemma ReplaceFirstAt(s: string, pat: string, rep: string, i: nat)
    requires FirstOccurrence(s, pat, i)
    ensures ReplaceFirst(s, pat, rep) == s[..i] + rep + s[i + |pat|..]
  {
    assert i <= |s| && Contains(s, pat);
  }

  /** A pattern without the separator, absent from `a`, is first found
      right after the separator that follows `a`. */
  lemma FirstOccurrenceAfter(a: string, sep: char, pat: string, b: string)
    requires pat != [] && sep !in pat
    requires !Contains(a, pat)
    ensures FirstOccurrence(a + [sep] + pat + b, pat, |a| + 1)
  {
    var s := a + [sep] + pat + b;
    assert s[|a| + 1..|a| + 1 + |pat|] == pat;
    forall j: nat | j < |a| + 1
      ensures !OccursAt(s, pat, j)
    {
      if j + |pat| <= |a| {
        assert !OccursAt(a, pat, j);
        assert s[j..j + |pat|] == a[j..j + |pat|];
      } else if j + |pat| <= |s| {
        var k := |a| - j;
        assert s[j..j + |pat|][k] == sep;
        assert pat[k] != sep;
      }
    }
  }

  /** Replacing a pattern first found right after a separator. */
  lemma ReplaceFirstAfter(a: string, sep: char, pat: string, rep: string, b: string)
    requires pat != [] && sep !in pat
    requires !Contains(a, pat)
    ensures ReplaceFirst(a + [sep] + pat + b, pat, rep) == a + [sep] + rep + b
  {
    var s := a + [sep] + pat + b;
    FirstOccurrenceAfter(a, sep, pat, b);
    ReplaceFirstAt(s, pat, rep, |a| + 1);
    assert s[..|a| + 1] == a + [sep];
    assert s[|a| + 1 + |pat|..] == b;
  }

  /** `s.replace(/pat/g, rep)` for a literal, non-empty pattern: matches
      are found from left to right, without overlap. */
  function ReplaceAll(s: string, pat: string, rep: string): string
    requires pat != []
    decreases |s|
  {
    if |s| < |pat| then s
    else if OccursAt(s, pat, 0) then rep + ReplaceAll(s[|pat|..], pat, rep)
    else [s[0]] + ReplaceAll(s[1..], pat, rep)
  }

  /** A string without the pattern is left exactly as it was. */
  lemma {:induction false} ReplaceAllAbsent(s: string, pat: string, rep: string)
    requires pat != []
    requires !Contains(s, pat)
    ensures ReplaceAll(s, pat, rep) == s
  {
    if |s| >= |pat| {
      assert !OccursAt(s, pat, 0);
      forall i: nat | OccursAt(s[1..], pat, i)
        ensures false
      {
        assert s[1..][i..i + |pat|] == s[i + 1..i + 1 + |pat|];
        assert OccursAt(s, pat, i + 1);
      }
      ReplaceAllAbsent(s[1..], pat, rep);
    }
  }

  /** The first occurrence is replaced and the text before it is kept:
      together with ReplaceAllAbsent this fixes the whole output, one
      occurrence after the other. */
  lemma {:induction false} ReplaceAllFirst(s: string, pat: string, rep: string, i: nat)
    requires pat != [] && FirstOccurrence(s, pat, i)
    ensures ReplaceAll(s, pat, rep) == s[..i] + rep + ReplaceAll(s[i + |pat|..], pat, rep)
    decreases i
  {
    if i == 0 {
      ReplaceAllAtFront(s, pat, rep);
    } else {
      FirstOccurrenceShift(s, pat, i);
      ReplaceAllSkip(s, pat, rep);
      ReplaceAllFirst(s[1..], pat, rep, i - 1);
      Reassembled(s, pat, rep, i, ReplaceAll(s[1..], pat, rep));
    }
  }

  /** A match at the front is replaced. */
  lemma ReplaceAllAtFront(s: string, pat: string, rep: string)
    requires pat != [] && OccursAt(s, pat, 0)
    ensures ReplaceAll(s, pat, rep) == s[..0] + rep + ReplaceAll(s[|pat|..], pat, rep)
  {
  }

  /** Without a match at the front the first character is kept. */
  lemma ReplaceAllSkip(s: string, pat: string, rep: string)
    requires pat != [] && |s| >= |pat| && !OccursAt(s, pat, 0)
    ensures ReplaceAll(s, pat, rep) == [s[0]] + ReplaceAll(s[1..], pat, rep)
  {
  }

  /** Putting the first character back in front of the rest. */
  lemma Reassembled(s: string, pat: string, rep: string, i: nat, rest: string)
    requires pat != [] && 0 < i && i + |pat| <= |s|
    requires rest == s[1..][..i - 1] + rep + ReplaceAll(s[1..][i - 1 + |pat|..], pat, rep)
    ensures [s[0]] + rest == s[..i] + rep + ReplaceAll(s[i + |pat|..], pat, rep)
  {
    assert s[1..][i - 1 + |pat|..] == s[i + |pat|..];
    assert [s[0]] + s[1..][..i - 1] == s[..i];
    ConsAssoc(s[0], s[1..][..i - 1], rep, ReplaceAll(s[i + |pat|..], pat, rep));
  }

  lemma ConsAssoc(c: char, a: string, b: string, x: string)
    ensures [c] + (a + b + x) == [c] + a + b + x
  {
  }

  /** Dropping the first character moves a later first occurrence one
      place to the left. */
  lemma FirstOccurrenceShift(s: string, pat: string, i: nat)
    requires i > 0 && FirstOccurrence(s, pat, i)
    ensures FirstOccurrence(s[1..], pat, i - 1)
  {
    var t := s[1..];
    assert t[i - 1..i - 1 + |pat|] == s[i..i + |pat|];
    forall j: nat | j < i - 1
      ensures !OccursAt(t, pat, j)
    {
      assert !OccursAt(s, pat, j + 1);
      if j + |pat| <= |t| {
        assert t[j..j + |pat|] == s[j + 1..j + 1 + |pat|];
      }
    }
  }

  /** Replacing with a text that starts like the pattern: a prefix free
      of the pattern's first character, seen in the output, was already
      in the input. */
  lemma {:induction false} ReplaceAllKeepsPrefix(t: string, pat: string, rep: string, w: string)
    requires pat != [] && rep != [] && rep[0] == pat[0]
    ensures w != [] && pat[0] !in w && w <= ReplaceAll(t, pat, rep) ==> w <= t
    decreases |t|
  {
    var r := ReplaceAll(t, pat, rep);
    if |t| < |pat| {
    } else if t[..|pat|] == pat {
      assert r == rep + ReplaceAll(t[|pat|..], pat, rep);
      assert r[0] == pat[0];
    } else {
      assert r == [t[0]] + ReplaceAll(t[1..], pat, rep);
      if w != [] && pat[0] !in w && w <= r {
        assert w[0] == t[0];
        if |w| > 1 {
          ReplaceAllKeepsPrefix(t[1..], pat, rep, w[1..]);
          assert pat[0] !in w[1..];
          assert w[1..] <= ReplaceAll(t[1..], pat, rep);
          assert w == [w[0]] + w[1..];
        }
      }
    }
  }

  /** The conditions under which a replacement cannot recreate the
      pattern: the pattern's first character occurs nowhere else in the
      pattern or the replacement, and the replacement does not begin with
      the pattern. */
  predicate SafeReplacement(pat: string, rep: string) {
    |pat| >= 2 && pat[0] !in pat[1..]
    && |rep| >= |pat| && rep[0] == pat[0] && pat[0] !in rep[1..] && rep[..|pat|] != pat
  }

  /** Global replacement removes every occurrence of the pattern. */
  lemma {:induction false} ReplaceAllRemoves(s: string, pat: string, rep: string)
    requires SafeReplacement(pat, rep)
    ensures !Contains(ReplaceAll(s, pat, rep), pat)
    decreases |s|
  {
    var r := ReplaceAll(s, pat, rep);
    if |s| < |pat| {
      assert r == s;
      assert forall j: nat :: j <= |r| ==> !OccursAt(r, pat, j);
    } else if s[..|pat|] == pat {
      ReplaceAllRemoves(s[|pat|..], pat, rep);
      NoneAfterReplacement(rep, ReplaceAll(s[|pat|..], pat, rep), pat);
    } else {
      ReplaceAllRemoves(s[1..], pat, rep);
      ReplaceAllKeepsPrefix(s[1..], pat, rep, pat[1..]);
      NoneAfterChar(s, ReplaceAll(s[1..], pat, rep), pat);
    }
  }

  lemma NoneAfterReplacement(rep: string, rest: string, pat: string)
    requires SafeReplacement(pat, rep) && !Contains(rest, pat)
    ensures !Contains(rep + rest, pat)
  {
    var r := rep + rest;
    forall j: nat | j <= |r|
      ensures !OccursAt(r, pat, j)
    {
      if j >= |rep| {
        assert !OccursAt(rest, pat, j - |rep|);
        if j + |pat| <= |r| {
          assert r[j..j + |pat|] == rest[j - |rep|..j - |rep| + |pat|];
        }
      } else if j == 0 {
        assert r[..|pat|] == rep[..|pat|];
      } else if j + |pat| <= |r| {
        assert r[j] == rep[j] && rep[j] in rep[1..];
        assert r[j..j + |pat|][0] == r[j];
      }
    }
  }

  lemma NoneAfterChar(s: string, rest: string, pat: string)
    requires |pat| >= 2 && pat[0] !in pat[1..] && |s| >= |pat| && s[..|pat|] != pat
    requires !Contains(rest, pat)
    requires pat[1..] <= rest ==> pat[1..] <= s[1..]
    ensures !Contains([s[0]] + rest, pat)
  {
    var r := [s[0]] + rest;
    forall j: nat | j <= |r|
      ensures !OccursAt(r, pat, j)
    {
      if j >= 1 {
        assert !OccursAt(rest, pat, j - 1);
        if j + |pat| <= |r| {
          assert r[j..j + |pat|] == rest[j - 1..j - 1 + |pat|];
        }
      } else if j + |pat| <= |r| && r[0] == pat[0] {
        assert s[..|pat|] == [s[0]] + s[1..][..|pat| - 1];
        assert !(pat[1..] <= s[1..]);
        assert !(pat[1..] <= rest);
        assert r[..|pat|] == [s[0]] + rest[..|pat| - 1];
      }
    }
  }

  /** `s.split(sep)[0]`: the longest prefix of `s` free of `sep`. */
  function FirstSegment(s: string, sep: char): (r: string)
    ensures r <= s
    ensures sep !in r
    ensures r == s || s[|r|] == sep
  {
    if s == [] || s[0] == sep then [] else [s[0]] + FirstSegment(s[1..], sep)
  }

  /** The first segment ends at the first separator. */
  lemma {:induction false} FirstSegmentUpTo(a: string, sep: char, b: string)
    requires sep !in a
    ensures FirstSegment(a + [sep] + b, sep) == a
  {
    if a != [] {
      assert (a + [sep] + b)[1..] == a[1..] + [sep] + b;
      FirstSegmentUpTo(a[1..], sep, b);
    }
  }

  /** Splitting a string that has no separator gives the string back. */
  lemma {:induction false} FirstSegmentNoSeparator(s: string, sep: char)
    requires sep !in s
    ensures FirstSegment(s, sep) == s
  {
    if s != [] {
      assert sep !in s[1..];
      FirstSegmentNoSeparator(s[1..], sep);
    }
  }

  /** The characters String.prototype.trim removes: ECMAScript WhiteSpace
      and LineTerminator code points. */
  predicate IsJsWhitespace(c: char) {
    c == '\t' || c == '\n' || c == '\U{000B}' || c == '\U{000C}' || c == '\r' || c == ' '
    || c == '\U{00A0}' || c == '\U{1680}' || ('\U{2000}' <= c <= '\U{200A}')
    || c == '\U{2028}' || c == '\U{2029}' || c == '\U{202F}' || c == '\U{205F}'
    || c == '\U{3000}' || c == '\U{FEFF}'
  }

  /** Leading whitespace removed. */
  function TrimStart(s: string): (r: string)
    ensures |r| <= |s| && r == s[|s| - |r|..]
    ensures forall i :: 0 <= i < |s| - |r| ==> IsJsWhitespace(s[i])
    ensures r != [] ==> !IsJsWhitespace(r[0])
  {
    if s != [] && IsJsWhitespace(s[0]) then TrimStart(s[1..]) else s
  }

  /** Trailing whitespace removed. */
  function TrimEnd(s: string): (r: string)
    ensures |r| <= |s| && r == s[..|r|]
    ensures forall i :: |r| <= i < |s| ==> IsJsWhitespace(s[i])
    ensures r != [] ==> !IsJsWhitespace(r[|r| - 1])
  {
    if s != [] && IsJsWhitespace(s[|s| - 1]) then TrimEnd(s[..|s| - 1]) else s
  }

  /** String.prototype.trim. */
  function Trim(s: string): (r: string)
    ensures r != [] ==> !IsJsWhitespace(r[0]) && !IsJsWhitespace(r[|r| - 1])
    ensures r == [] ==> forall i :: 0 <= i < |s| ==> IsJsWhitespace(s[i])
    ensures s == [] || (!IsJsWhitespace(s[0]) && !IsJsWhitespace(s[|s| - 1])) ==> r == s
  {
    TrimFacts(s, TrimStart(s), TrimEnd(TrimStart(s)));
    TrimEnd(TrimStart(s))
  }

  lemma TrimFacts(s: string, t: string, r: string)
    requires t == TrimStart(s) && r == TrimEnd(t)
    ensures r != [] ==> !IsJsWhitespace(r[0]) && !IsJsWhitespace(r[|r| - 1])
    ensures r == [] ==> forall i :: 0 <= i < |s| ==> IsJsWhitespace(s[i])
    ensures s == [] || (!IsJsWhitespace(s[0]) && !IsJsWhitespace(s[|s| - 1])) ==> r == s
  {
    var k := |s| - |t|;
    if r != [] {
      assert r[0] == t[0];
    } else {
      forall i | 0 <= i < |s|
        ensures IsJsWhitespace(s[i])
      {
        if i >= k {
          assert s[i] == t[i - k];
        }
      }
    }
    if s != [] && !IsJsWhitespace(s[0]) && !IsJsWhitespace(s[|s| - 1]) {
      assert t == s;
    }
  }

  /** What trim removed is whitespace, at the two ends only. */
  lemma TrimSplit(s: string) returns (k: nat)
    ensures k + |Trim(s)| <= |s|
    ensures Trim(s) == s[k..k + |Trim(s)|]
    ensures forall i :: 0 <= i < k ==> IsJsWhitespace(s[i])
    ensures forall i :: k + |Trim(s)| <= i < |s| ==> IsJsWhitespace(s[i])
  {
    var t := TrimStart(s);
    k := |s| - |t|;
    TrimEndInside(s, k, t);
  }

  /** Trailing whitespace of a suffix `t` of `s` is trailing whitespace
      of `s`. */
  lemma TrimEndInside(s: string, k: nat, t: string)
    requires k <= |s| && t == s[k..]
    ensures k + |TrimEnd(t)| <= |s|
    ensures TrimEnd(t) == s[k..k + |TrimEnd(t)|]
    ensures forall i :: k + |TrimEnd(t)| <= i < |s| ==> IsJsWhitespace(s[i])
  {
    var r := TrimEnd(t);
    assert r == t[..|r|];
    assert s[k..][..|r|] == s[k..k + |r|];
    forall i | k + |r| <= i < |s|
      ensures IsJsWhitespace(s[i])
    {
      assert s[i] == t[i - k];
    }
  }

  predicate IsAsciiUpper(c: char) { 'A' <= c <= 'Z' }
  predicate IsAsciiLower(c: char) { 'a' <= c <= 'z' }

  /** toLowerCase on one character, for the characters the packager ever
      lower-cases (ASCII letters, `-` and space). */
  function LowerAscii(c: char): char {
    if IsAsciiUpper(c) then (c as int + 32) as char else c
  }

  /** `s.toLowerCase()` on ASCII: no upper-case letter is left, every
      upper-case letter becomes the same lower-case letter, and every
      other character stays where it was. */
  function ToLowerAscii(s: string): (r: string)
    ensures |r| == |s|
    ensures forall i :: 0 <= i < |r| ==> !IsAsciiUpper(r[i])
    ensures forall i :: 0 <= i < |s| && !IsAsciiUpper(s[i]) ==> r[i] == s[i]
    ensures forall i :: 0 <= i < |s| && IsAsciiUpper(s[i]) ==>
      IsAsciiLower(r[i]) && r[i] as int - 'a' as int == s[i] as int - 'A' as int
  {
    seq(|s|, i requires 0 <= i < |s| => LowerAscii(s[i]))
  }

  /** Lower-casing twice is lower-casing once. */
  lemma ToLowerAsciiIdempotent(s: string)
    ensures ToLowerAscii(ToLowerAscii(s)) == ToLowerAscii(s)
  {
  }

  /** `s.replace(/c/g, d)` for single characters: every `c` becomes `d`,
      so none is left when the two differ, and nothing else changes. */
  function ReplaceChar(s: string, c: char, d: char): (r: string)
    ensures |r| == |s|
    ensures c != d ==> c !in r
    ensures forall i :: 0 <= i < |s| && s[i] != c ==> r[i] == s[i]
    ensures forall i :: 0 <= i < |s| && s[i] == c ==> r[i] == d
  {
    seq(|s|, i requires 0 <= i < |s| => if s[i] == c then d else s[i])
  }

  /** `parts.join(sep)`. */
  function Join(parts: seq<string>, sep: string): string
  {
    if |parts| == 0 then ""
    else if |parts| == 1 then parts[0]
    else parts[0] + sep + Join(parts[1..], sep)
  }

  lemma JoinTwo(a: string, b: string, sep: string)
    ensures Join([a, b], sep) == a + sep + b
  {
    assert [a, b][1..] == [b];
  }

  lemma JoinThree(a: string, b: string, c: string, sep: string)
    ensures Join([a, b, c], sep) == a + sep + b + sep + c
  {
    assert [a, b, c][1..] == [b, c];
    JoinTwo(b, c, sep);
  }
}
