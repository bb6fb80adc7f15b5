/**
  The string primitives the bootstrap module relies on, with Python's
  semantics: `str.strip()` with no argument, `str.split(sep)` with a
  one-character separator, and the substring test `pat in s`.
  Strings are sequences of characters; nothing is normalised or case-folded.
 */
module Text {

  /** Exactly the characters for which Python's `str.isspace()` holds:
      the ASCII controls TAB, LF, VT, FF, CR, the separators 0x1C-0x1F,
      SPACE, NEL, NO-BREAK SPACE and the Unicode space separators. */
  predicate IsWhitespace(c: char) {
    || c == ' ' || c == '\t' || c == '\n' || c == '\r'
    || c == '\U{0B}' || c == '\U{0C}'
    || ('\U{1C}' <= c <= '\U{1F}')
    || c == '\U{85}' || c == '\U{A0}' || c == '\U{1680}'
    || ('\U{2000}' <= c <= '\U{200A}')
    || c == '\U{2028}' || c == '\U{2029}' || c == '\U{202F}'
    || c == '\U{205F}' || c == '\U{3000}'
  }

  predicate AllWhitespace(s: string) {
    forall i :: 0 <= i < |s| ==> IsWhitespace(s[i])
  }

  /** A string with no whitespace at either end (the empty string included). */
  predicate IsStripped(s: string) {
    |s| == 0 || (!IsWhitespace(s[0]) && !IsWhitespace(s[|s| - 1]))
  }

  /** The length of the longest all-whitespace prefix: what `s.lstrip()`
      removes. */
  function LeadingSpace(s: string): (n: nat)
    ensures n <= |s|
    ensures AllWhitespace(s[..n])
    ensures n == |s| || !IsWhitespace(s[n])
  {
    if |s| > 0 && IsWhitespace(s[0]) then
      var n := 1 + LeadingSpace(s[1..]);
      assert forall i :: 1 <= i < n ==> s[..n][i] == s[1..][..n - 1][i - 1];
      n
    else
      0
  }

  /** Where the longest all-whitespace suffix starts: what `s.rstrip()`
      removes is `s[m..]`. */
  function TrailingSpaceStart(s: string): (m: nat)
    ensures m <= |s|
    ensures AllWhitespace(s[m..])
    ensures m == 0 || !IsWhitespace(s[m - 1])
  {
    if |s| > 0 && IsWhitespace(s[|s| - 1]) then
      var m := TrailingSpaceStart(s[..|s| - 1]);
      assert forall i :: m <= i < |s| - 1 ==> s[i] == s[..|s| - 1][i];
      m
    else
      |s|
  }

  /** The whitespace prefix is determined by its two defining properties. */
  lemma {:induction false} LeadingSpaceUnique(s: string, n: nat)
    requires n <= |s| && AllWhitespace(s[..n])
    requires n == |s| || !IsWhitespace(s[n])
    ensures LeadingSpace(s) == n
    decreases n
  {
    if n > 0 {
      assert s[..n][0] == s[0];
      assert s[1..][..n - 1] == s[..n][1..];
      LeadingSpaceUnique(s[1..], n - 1);
    }
  }

  /** The whitespace suffix is determined by its two defining properties. */
  lemma {:induction false} TrailingSpaceStartUnique(s: string, m: nat)
    requires m <= |s| && AllWhitespace(s[m..])
    requires m == 0 || !IsWhitespace(s[m - 1])
    ensures TrailingSpaceStart(s) == m
    decreases |s|
  {
    if m < |s| {
      var t := s[..|s| - 1];
      assert s[m..][|s| - 1 - m] == s[|s| - 1];
      assert t[m..] == s[m..][..|s| - 1 - m];
      TrailingSpaceStartUnique(t, m);
    }
  }

  /** Python's `s.strip()`: the text between the whitespace prefix and the
      whitespace suffix, empty when `s` is all whitespace. */
  function Strip(s: string): (r: string)
    ensures IsStripped(r)
    ensures |r| <= |s|
    ensures |r| == 0 <==> AllWhitespace(s)
  {
    var i, j := LeadingSpace(s), TrailingSpaceStart(s);
    if i < j then
      assert !IsWhitespace(s[i]) && !IsWhitespace(s[j - 1]);
      assert s[i..j][0] == s[i] && s[i..j][j - i - 1] == s[j - 1];
      assert !AllWhitespace(s);
      s[i..j]
    else
      NoCoreMeansSpace(s);
      []
  }

  lemma NoCoreMeansSpace(s: string)
    requires LeadingSpace(s) >= TrailingSpaceStart(s)
    ensures AllWhitespace(s)
  {
    var i, j := LeadingSpace(s), TrailingSpaceStart(s);
    assert s[..i] == s;
  }

  /** `s` is its leading whitespace, then `Strip(s)`, then trailing whitespace. */
  lemma StripIsInfix(s: string)
    ensures LeadingSpace(s) + |Strip(s)| <= |s|
    ensures s[LeadingSpace(s)..LeadingSpace(s) + |Strip(s)|] == Strip(s)
    ensures AllWhitespace(s[..LeadingSpace(s)])
    ensures AllWhitespace(s[LeadingSpace(s) + |Strip(s)|..])
  {
    if LeadingSpace(s) >= TrailingSpaceStart(s) {
      BlankStripIsInfix(s);
    }
  }

  lemma BlankStripIsInfix(s: string)
    requires LeadingSpace(s) >= TrailingSpaceStart(s)
    ensures LeadingSpace(s) == |s| && Strip(s) == []
  {
    NoCoreMeansSpace(s);
    assert s[..|s|] == s;
    LeadingSpaceUnique(s, |s|);
  }

  /** `Strip` is characterised independently of how it scans: whenever a
      string is a stripped core padded on both sides with whitespace, that
      core is what `Strip` returns. */
  lemma StripOfPadded(a: string, m: string, b: string)
    requires AllWhitespace(a) && AllWhitespace(b) && IsStripped(m)
    ensures Strip(a + m + b) == m
  {
    var s := a + m + b;
    if |m| > 0 {
      assert s[..|a|] == a && s[|a|] == m[0];
      LeadingSpaceUnique(s, |a|);
      assert s[|a| + |m|..] == b && s[|a| + |m| - 1] == m[|m| - 1];
      TrailingSpaceStartUnique(s, |a| + |m|);
      assert s[|a|..|a| + |m|] == m;
    } else {
      assert forall k :: 0 <= k < |s| ==> s[k] == if k < |a| then a[k] else b[k - |a|];
      assert AllWhitespace(s);
    }
  }

  /** Every character of `Strip(s)` is a character of `s`. */
  lemma StripChars(s: string, c: char)
    requires c in Strip(s)
    ensures c in s
  {
    StripIsInfix(s);
    var i := LeadingSpace(s);
    var k :| 0 <= k < |Strip(s)| && Strip(s)[k] == c;
    assert s[i..i + |Strip(s)|][k] == c;
  }

  /** A string with no whitespace at its ends is its own strip. */
  lemma StripOfStripped(m: string)
    requires IsStripped(m)
    ensures Strip(m) == m
  {
    StripOfPadded([], m, []);
    assert [] + m + [] == m;
  }

  lemma StripIdempotent(s: string)
    ensures Strip(Strip(s)) == Strip(s)
  {
    StripOfStripped(Strip(s));
  }

  /** Python's `sep.join(pieces)`, used as the inverse of `Split`. */
  function Join(pieces: seq<string>, sep: char): string
  {
    if |pieces| == 0 then []
    else if |pieces| == 1 then pieces[0]
    else pieces[0] + [sep] + Join(pieces[1..], sep)
  }

  /** The number of occurrences of `c` in `s`. */
  function Count(s: string, c: char): nat
  {
    if |s| == 0 then 0 else (if s[0] == c then 1 else 0) + Count(s[1..], c)
  }

  /** Python's `s.split(sep)` for a single-character separator: always at
      least one piece, one more piece than there are separators, no piece
      containing the separator, and joining the pieces gives `s` back. */
  function Split(s: string, sep: char): (r: seq<string>)
    ensures |r| == Count(s, sep) + 1
    ensures forall k :: 0 <= k < |r| ==> sep !in r[k]
    ensures Join(r, sep) == s
  {
    if |s| == 0 then [[]]
    else
      var rest := Split(s[1..], sep);
      if s[0] == sep then
        assert s == [] + [sep] + Join(rest, sep);
        [[]] + rest
      else
        ExtendFirstPiece(s[0], rest, sep);
        assert s == [s[0]] + s[1..];
        [[s[0]] + rest[0]] + rest[1..]
  }

  /** Prepending a non-separator character to a joined text extends its
      first piece. */
  lemma ExtendFirstPiece(c: char, rest: seq<string>, sep: char)
    requires c != sep && |rest| >= 1
    requires forall k :: 0 <= k < |rest| ==> sep !in rest[k]
    ensures var r := [[c] + rest[0]] + rest[1..];
      && |r| == |rest|
      && (forall k :: 0 <= k < |r| ==> sep !in r[k])
      && Join(r, sep) == [c] + Join(rest, sep)
  {
    var r := [[c] + rest[0]] + rest[1..];
    assert r[1..] == rest[1..];
    forall k | 0 <= k < |r|
      ensures sep !in r[k]
    {
      if k > 0 {
        assert r[k] == rest[k];
      }
    }
    if |rest| > 1 {
      assert Join(r, sep) == [c] + rest[0] + [sep] + Join(rest[1..], sep);
    }
  }

  /** The converse round trip: splitting a join of separator-free pieces
      gives back exactly those pieces. */
  lemma {:induction false} SplitJoin(pieces: seq<string>, sep: char)
    requires |pieces| >= 1
    requires forall k :: 0 <= k < |pieces| ==> sep !in pieces[k]
    ensures Split(Join(pieces, sep), sep) == pieces
    decreases |pieces|
  {
    if |pieces| == 1 {
      SplitNoSeparator(pieces[0], sep);
    } else {
      SplitJoin(pieces[1..], sep);
      SplitAtFirst(pieces[0], Join(pieces[1..], sep), sep);
      assert pieces == [pieces[0]] + pieces[1..];
    }
  }

  lemma {:induction false} SplitNoSeparator(p: string, sep: char)
    requires sep !in p
    ensures Split(p, sep) == [p]
    decreases |p|
  {
    if |p| > 0 {
      SplitNoSeparator(p[1..], sep);
      assert p == [p[0]] + p[1..];
    }
  }

  lemma {:induction false} SplitAtFirst(p: string, t: string, sep: char)
    requires sep !in p
    ensures Split(p + [sep] + t, sep) == [p] + Split(t, sep)
    decreases |p|
  {
    var s := p + [sep] + t;
    if |p| == 0 {
      assert s[0] == sep && s[1..] == t;
    } else {
      assert s[1..] == p[1..] + [sep] + t;
      SplitAtFirst(p[1..], t, sep);
      assert p == [p[0]] + p[1..];
    }
  }

  /** Every character of a join is a separator or a character of some piece. */
  lemma {:induction false} JoinChars(pieces: seq<string>, sep: char, i: nat)
    requires i < |Join(pieces, sep)|
    ensures Join(pieces, sep)[i] == sep
         || exists k :: 0 <= k < |pieces| && Join(pieces, sep)[i] in pieces[k]
    decreases |pieces|
  {
    if |pieces| == 1 {
      assert Join(pieces, sep)[i] in pieces[0];
    } else {
      var tail := Join(pieces[1..], sep);
      assert Join(pieces, sep) == pieces[0] + [sep] + tail;
      if i < |pieces[0]| {
        assert Join(pieces, sep)[i] in pieces[0];
      } else if i > |pieces[0]| {
        var j := i - |pieces[0]| - 1;
        assert Join(pieces, sep)[i] == tail[j];
        JoinChars(pieces[1..], sep, j);
        if tail[j] != sep {
          var k :| 0 <= k < |pieces[1..]| && tail[j] in pieces[1..][k];
          assert tail[j] in pieces[k + 1];
        }
      }
    }
  }

  /** Every character of a piece of `Split(s, sep)` is a character of `s`. */
  lemma SplitChars(s: string, sep: char, k: nat, c: char)
    requires k < |Split(s, sep)| && c in Split(s, sep)[k]
    ensures c in s
  {
    var r := Split(s, sep);
    JoinPieceChars(r, sep, k, c);
  }

  lemma {:induction false} JoinPieceChars(pieces: seq<string>, sep: char, k: nat, c: char)
    requires k < |pieces| && c in pieces[k]
    ensures c in Join(pieces, sep)
    decreases |pieces|
  {
    if |pieces| > 1 {
      assert Join(pieces, sep) == pieces[0] + ([sep] + Join(pieces[1..], sep));
      if k > 0 {
        JoinPieceChars(pieces[1..], sep, k - 1, c);
      }
    }
  }

  /** `pat` occurs in `s` starting at index `i`. */
  predicate OccursAt(s: string, pat: string, i: int) {
    0 <= i && i + |pat| <= |s| && s[i..i + |pat|] == pat
  }

  /** Python's `pat in s`: true exactly when `pat` occurs somewhere in `s`. */
  function Contains(s: string, pat: string): (b: bool)
    ensures b <==> exists i :: OccursAt(s, pat, i)
    decreases |s|
  {
    if |s| < |pat| then
      assert forall i :: !OccursAt(s, pat, i);
      false
    else if s[..|pat|] == pat then
      assert OccursAt(s, pat, 0);
      true
    else
      var b := Contains(s[1..], pat);
      ContainsStep(s, pat, b);
      b
  }

  lemma ContainsStep(s: string, pat: string, b: bool)
    requires |s| >= |pat| && s[..|pat|] != pat
    requires b <==> exists i :: OccursAt(s[1..], pat, i)
    ensures b <==> exists i :: OccursAt(s, pat, i)
  {
    if b {
      var i :| OccursAt(s[1..], pat, i);
      assert s[i + 1..i + 1 + |pat|] == s[1..][i..i + |pat|];
      assert OccursAt(s, pat, i + 1);
    } else {
      forall i | OccursAt(s, pat, i)
        ensures false
      {
        if i > 0 {
          assert s[i..i + |pat|] == s[1..][i - 1..i - 1 + |pat|];
          assert OccursAt(s[1..], pat, i - 1);
        }
      }
    }
  }
}
