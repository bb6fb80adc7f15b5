/**
  The Socket.IO CORS allow-list computed from the `CORS_ORIGINS` setting:
  the whole value, stripped, equal to "*" allows every origin; any other
  value is split on commas, each piece stripped, and the empty pieces
  dropped, keeping order and duplicates.
 */
module Cors {
  import opened Text

  /** The `cors_allowed_origins` argument: the string "*" (every origin
      allowed) or an explicit list of origins. */
  datatype CorsAllow = Wildcard | Origins(origins: seq<string>)

  /** What every entry of an explicit list looks like. */
  predicate IsOriginEntry(o: string) {
    |o| > 0 && IsStripped(o) && ',' !in o
  }

  /** The list comprehension `[f(o) for o in pieces if f(o)]`, written as
      the appends it performs, one piece at a time. The allow-list uses it
      with `f` the strip operation. */
  function KeepNonEmpty(f: string -> string, pieces: seq<string>): (r: seq<string>)
    ensures |r| <= |pieces|
    ensures forall k :: 0 <= k < |r| ==> |r[k]| > 0
  {
    if |pieces| == 0 then []
    else
      var kept := KeepNonEmpty(f, pieces[..|pieces| - 1]);
      var o := f(pieces[|pieces| - 1]);
      if |o| > 0 then kept + [o] else kept
  }

  /** The positions of the pieces that `f` maps to a non-empty string, in
      increasing order. */
  function KeptIndices(f: string -> string, pieces: seq<string>): (ix: seq<int>)
    ensures forall j :: 0 <= j < |ix| ==> 0 <= ix[j] < |pieces|
    ensures forall j, j' :: 0 <= j < j' < |ix| ==> ix[j] < ix[j']
    ensures forall k :: 0 <= k < |pieces| ==> (k in ix <==> |f(pieces[k])| > 0)
  {
    if |pieces| == 0 then []
    else
      var n := |pieces| - 1;
      var ix := KeptIndices(f, pieces[..n]);
      assert forall k :: 0 <= k < n ==> pieces[..n][k] == pieces[k];
      if |f(pieces[n])| > 0 then ix + [n] else ix
  }

  /** The comprehension keeps, in order, `f` of exactly the pieces listed
      by `KeptIndices`: nothing is reordered, merged or deduplicated. */
  lemma {:induction false} KeepNonEmptySelects(f: string -> string, pieces: seq<string>)
    ensures |KeepNonEmpty(f, pieces)| == |KeptIndices(f, pieces)|
    ensures forall j :: 0 <= j < |KeptIndices(f, pieces)| ==>
      KeepNonEmpty(f, pieces)[j] == f(pieces[KeptIndices(f, pieces)[j]])
    decreases |pieces|
  {
    if |pieces| > 0 {
      var n := |pieces| - 1;
      KeepNonEmptySelects(f, pieces[..n]);
      var o := f(pieces[n]);
      var extra := if |o| > 0 then [o] else [];
      var extraIx := if |o| > 0 then [n] else [];
      assert KeepNonEmpty(f, pieces) == KeepNonEmpty(f, pieces[..n]) + extra;
      assert KeptIndices(f, pieces) == KeptIndices(f, pieces[..n]) + extraIx;
      SelectsStep(f, pieces, KeepNonEmpty(f, pieces[..n]), KeptIndices(f, pieces[..n]), extra, extraIx);
    }
  }

  /** One append step of `KeepNonEmptySelects`, stated over plain sequences. */
  lemma SelectsStep(f: string -> string, pieces: seq<string>, c: seq<string>, ix: seq<int>,
                    extra: seq<string>, extraIx: seq<int>)
    requires |pieces| > 0
    requires |c| == |ix|
    requires forall j :: 0 <= j < |ix| ==> 0 <= ix[j] < |pieces| - 1
    requires forall j :: 0 <= j < |ix| ==> c[j] == f(pieces[..|pieces| - 1][ix[j]])
    requires (extra == [] && extraIx == [])
          || (extra == [f(pieces[|pieces| - 1])] && extraIx == [|pieces| - 1])
    ensures |c + extra| == |ix + extraIx|
    ensures forall j :: 0 <= j < |ix + extraIx| ==> (c + extra)[j] == f(pieces[(ix + extraIx)[j]])
  {
    forall j | 0 <= j < |ix + extraIx|
      ensures (c + extra)[j] == f(pieces[(ix + extraIx)[j]])
    {
      if j < |ix| {
        assert pieces[..|pieces| - 1][ix[j]] == pieces[ix[j]];
      }
    }
  }

  /** The pieces kept from a split value are those that are not all
      whitespace. */
  lemma KeptIndicesOfStrip(pieces: seq<string>, k: int)
    requires 0 <= k < |pieces|
    ensures k in KeptIndices(Strip, pieces) <==> !AllWhitespace(pieces[k])
  {
  }

  /** Stripping never introduces a character, so comma-free pieces give
      comma-free entries. */
  lemma CleanPiecesEntries(pieces: seq<string>)
    requires forall k :: 0 <= k < |pieces| ==> ',' !in pieces[k]
    ensures forall j :: 0 <= j < |KeepNonEmpty(Strip, pieces)| ==>
      IsOriginEntry(KeepNonEmpty(Strip, pieces)[j])
  {
    var r, ix := KeepNonEmpty(Strip, pieces), KeptIndices(Strip, pieces);
    KeepNonEmptySelects(Strip, pieces);
    forall j | 0 <= j < |r|
      ensures IsOriginEntry(r[j])
    {
      var p := pieces[ix[j]];
      assert r[j] == Strip(p);
      if ',' in Strip(p) {
        StripChars(p, ',');
      }
    }
  }

  /** The expression `'*' if s.strip() == '*' else [...]` applied to the
      value of `CORS_ORIGINS`. */
  function ParseCorsOrigins(raw: string): (r: CorsAllow)
    ensures r.Wildcard? <==> Strip(raw) == "*"
    ensures r.Origins? ==> forall k :: 0 <= k < |r.origins| ==> IsOriginEntry(r.origins[k])
  {
    if Strip(raw) == "*" then Wildcard
    else
      CleanPiecesEntries(Split(raw, ','));
      Origins(KeepNonEmpty(Strip, Split(raw, ',')))
  }

  /** A non-wildcard value yields the stripped non-empty comma-separated
      pieces of the input, in input order, duplicates included: entry `j`
      is the stripped form of the `j`-th piece that is not all whitespace. */
  lemma CorsOriginsAreKeptPieces(raw: string)
    requires Strip(raw) != "*"
    ensures ParseCorsOrigins(raw).Origins?
    ensures var pieces := Split(raw, ',');
            var ix := KeptIndices(Strip, pieces);
            && |ParseCorsOrigins(raw).origins| == |ix|
            && (forall j :: 0 <= j < |ix| ==> ParseCorsOrigins(raw).origins[j] == Strip(pieces[ix[j]]))
            && (forall k :: 0 <= k < |pieces| ==> (k in ix <==> !AllWhitespace(pieces[k])))
  {
    KeepNonEmptySelects(Strip, Split(raw, ','));
  }

  /** Any amount of whitespace around a single "*" still means every origin. */
  lemma PaddedStarIsWildcard(a: string, b: string)
    requires AllWhitespace(a) && AllWhitespace(b)
    ensures ParseCorsOrigins(a + "*" + b) == Wildcard
  {
    StripOfPadded(a, "*", b);
  }

  /** A value made only of whitespace and commas gives the empty list. */
  lemma BlankGivesNoOrigins(raw: string)
    requires forall i :: 0 <= i < |raw| ==> IsWhitespace(raw[i]) || raw[i] == ','
    ensures ParseCorsOrigins(raw) == Origins([])
  {
    if Strip(raw) == "*" {
      StripChars(raw, '*');
    }
    var pieces := Split(raw, ',');
    KeepNonEmptySelects(Strip, pieces);
    var ix := KeptIndices(Strip, pieces);
    if |ix| > 0 {
      var k := ix[0];
      assert !AllWhitespace(pieces[k]);
      var i :| 0 <= i < |pieces[k]| && !IsWhitespace(pieces[k][i]);
      SplitChars(raw, ',', k, pieces[k][i]);
    }
  }

  /** A character other than whitespace or a comma always yields a
      non-empty allow-list or the wildcard. */
  lemma NonBlankGivesSomething(raw: string, i: int)
    requires 0 <= i < |raw| && !IsWhitespace(raw[i]) && raw[i] != ','
    ensures ParseCorsOrigins(raw) != Origins([])
  {
    if Strip(raw) != "*" {
      var pieces := Split(raw, ',');
      JoinChars(pieces, ',', i);
      var k :| 0 <= k < |pieces| && raw[i] in pieces[k];
      var m :| 0 <= m < |pieces[k]| && pieces[k][m] == raw[i];
      assert !IsWhitespace(pieces[k][m]);
      assert k in KeptIndices(Strip, pieces);
      KeepNonEmptySelects(Strip, pieces);
      assert |ParseCorsOrigins(raw).origins| > 0;
    }
  }

  /** The list is empty exactly when the value consists of whitespace and
      commas only (the empty string included); such a value never means
      "every origin". */
  lemma CorsEmptyExactlyWhenBlank(raw: string)
    ensures ParseCorsOrigins(raw) == Origins([])
        <==> forall i :: 0 <= i < |raw| ==> IsWhitespace(raw[i]) || raw[i] == ','
  {
    if forall i :: 0 <= i < |raw| ==> IsWhitespace(raw[i]) || raw[i] == ',' {
      BlankGivesNoOrigins(raw);
    } else {
      var i :| 0 <= i < |raw| && !IsWhitespace(raw[i]) && raw[i] != ',';
      NonBlankGivesSomething(raw, i);
    }
  }

  lemma {:induction false} KeepNonEmptyOfEntries(os: seq<string>)
    requires forall k :: 0 <= k < |os| ==> IsOriginEntry(os[k])
    ensures KeepNonEmpty(Strip, os) == os
    decreases |os|
  {
    if |os| > 0 {
      var n := |os| - 1;
      KeepNonEmptyOfEntries(os[..n]);
      StripOfStripped(os[n]);
      assert os == os[..n] + [os[n]];
    }
  }

  lemma {:induction false} JoinOfEntriesIsStripped(os: seq<string>)
    requires |os| > 0
    requires forall k :: 0 <= k < |os| ==> IsOriginEntry(os[k])
    ensures |Join(os, ',')| > 0 && IsStripped(Join(os, ','))
    decreases |os|
  {
    if |os| > 1 {
      JoinOfEntriesIsStripped(os[1..]);
      var rest := Join(os[1..], ',');
      assert IsOriginEntry(os[0]);
      assert Join(os, ',') == os[0] + [','] + rest;
      assert Join(os, ',')[0] == os[0][0];
      assert Join(os, ',')[|Join(os, ',')| - 1] == rest[|rest| - 1];
    } else {
      assert IsOriginEntry(os[0]);
    }
  }

  /** Round trip: writing a list of well-formed origins as a
      comma-separated value and parsing it gives the same list back, unless
      the list is the single entry "*", which reads as the wildcard. */
  lemma CorsJoinRoundTrip(os: seq<string>)
    requires forall k :: 0 <= k < |os| ==> IsOriginEntry(os[k])
    requires os != ["*"]
    ensures ParseCorsOrigins(Join(os, ',')) == Origins(os)
  {
    if |os| == 0 {
      EmptyValueGivesNoOrigins();
    } else {
      JoinedEntriesNotWildcard(os);
      ParseOfJoin(os);
      KeepNonEmptyOfEntries(os);
    }
  }

  lemma EmptyValueGivesNoOrigins()
    ensures ParseCorsOrigins([]) == Origins([])
  {
    assert Split([], ',') == [[]];
    assert KeepNonEmpty(Strip, [[]]) == KeepNonEmpty(Strip, [[]][..0]);
  }

  lemma JoinedEntriesNotWildcard(os: seq<string>)
    requires |os| > 0
    requires forall k :: 0 <= k < |os| ==> IsOriginEntry(os[k])
    requires os != ["*"]
    ensures Strip(Join(os, ',')) != "*"
  {
    var raw := Join(os, ',');
    JoinOfEntriesIsStripped(os);
    StripOfStripped(raw);
    if |os| == 1 {
      assert os == [os[0]];
    } else {
      assert raw == os[0] + [','] + Join(os[1..], ',');
    }
  }

  /** Duplicates are kept: the same origin listed twice appears twice. */
  lemma CorsKeepsDuplicates(o: string)
    requires IsOriginEntry(o)
    ensures ParseCorsOrigins(o + "," + o) == Origins([o, o])
  {
    assert Join([o, o], ',') == o + "," + o;
    CorsJoinRoundTrip([o, o]);
  }

  /** A trailing comma turns any single entry into a one-entry list; in
      particular "*," is the list holding "*", not the wildcard. */
  lemma TrailingCommaForcesList(o: string)
    requires IsOriginEntry(o)
    ensures ParseCorsOrigins(o + ",") == Origins([o])
  {
    var raw := o + ",";
    assert raw == Join([o, ""], ',');
    assert raw[0] == o[0] && raw[|raw| - 1] == ',';
    StripOfStripped(raw);
    StripOfStripped(o);
    ParseOfJoin([o, ""]);
    assert [o, ""][..1] == [o] && [o][..0] == [];
    assert KeepNonEmpty(Strip, [o]) == [o];
  }

  /** A value written as comma-free pieces joined by commas, and not the
      wildcard, keeps the stripped non-empty pieces. */
  lemma ParseOfJoin(pieces: seq<string>)
    requires |pieces| >= 1
    requires forall k :: 0 <= k < |pieces| ==> ',' !in pieces[k]
    requires Strip(Join(pieces, ',')) != "*"
    ensures ParseCorsOrigins(Join(pieces, ',')) == Origins(KeepNonEmpty(Strip, pieces))
  {
    SplitJoin(pieces, ',');
  }

  lemma KeepThree(p0: string, p1: string, p2: string)
    requires |Strip(p0)| > 0 && |Strip(p1)| > 0 && |Strip(p2)| == 0
    ensures KeepNonEmpty(Strip, [p0, p1, p2]) == [Strip(p0), Strip(p1)]
  {
    var ps := [p0, p1, p2];
    assert ps[..2] == [p0, p1] && [p0, p1][..1] == [p0] && [p0][..0] == [];
    assert KeepNonEmpty(Strip, [p0]) == [Strip(p0)];
    assert KeepNonEmpty(Strip, [p0, p1]) == [Strip(p0), Strip(p1)];
  }

  lemma TrailingCommaPieces(a: string, b: string)
    ensures a + ", " + b + "," == Join([a, " " + b, ""], ',')
  {
    var pieces := [a, " " + b, ""];
    assert pieces[1..] == [" " + b, ""] && [" " + b, ""][1..] == [""];
    assert Join([" " + b, ""], ',') == " " + b + [','] + Join([""], ',');
    assert Join(pieces, ',') == a + [','] + Join([" " + b, ""], ',');
  }

  lemma TrailingCommaStrips(a: string, b: string)
    requires IsOriginEntry(a) && IsOriginEntry(b)
    ensures Strip(a) == a && Strip(" " + b) == b
    ensures Strip(a + ", " + b + ",") == a + ", " + b + ","
  {
    var raw := a + ", " + b + ",";
    assert raw[0] == a[0] && raw[|raw| - 1] == ',';
    StripOfStripped(raw);
    StripOfStripped(a);
    StripOfPadded(" ", b, []);
    assert " " + b + [] == " " + b;
  }

  /** Two origins separated by ", " and followed by a trailing comma give
      exactly those two origins: the space is stripped and the empty last
      piece discarded ("https://a.com, https://b.com," is one instance). */
  lemma TrailingCommaDropped(a: string, b: string)
    requires IsOriginEntry(a) && IsOriginEntry(b)
    ensures ParseCorsOrigins(a + ", " + b + ",") == Origins([a, b])
  {
    var pieces := [a, " " + b, ""];
    TrailingCommaPieces(a, b);
    TrailingCommaStrips(a, b);
    assert forall k :: 0 <= k < |pieces| ==> ',' !in pieces[k];
    ParseOfJoin(pieces);
    KeepThree(a, " " + b, "");
  }
}
