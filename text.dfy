/**
 * Text primitives the importer relies on: JavaScript's `String.prototype.trim`,
 * the global `\s+` removal applied to ruby readings, and the reading split on
 * the separators `、` and `,`.
 */
module Text {

  /** The characters that `trim()` and the regular-expression class `\s` treat as white
      space in JavaScript: the WhiteSpace and LineTerminator code points of ECMAScript. */
  predicate IsWhitespace(c: char) {
    || c == ' ' || c == '\t' || c == '\n' || c == '\r'
    || c == '\U{000B}' || c == '\U{000C}' || c == '\U{00A0}' || c == '\U{1680}'
    || ('\U{2000}' <= c <= '\U{200A}')
    || c == '\U{2028}' || c == '\U{2029}' || c == '\U{202F}' || c == '\U{205F}'
    || c == '\U{3000}' || c == '\U{FEFF}'
  }

  /** A string with no white space at either end: what `trim()` returns. */
  predicate IsTrimmed(s: string) {
    s == [] || (!IsWhitespace(s[0]) && !IsWhitespace(s[|s| - 1]))
  }

  predicate IsBlank(s: string) {
    forall i :: 0 <= i < |s| ==> IsWhitespace(s[i])
  }

  /** Drops leading white space; the result is the suffix that starts at the first
      non-white-space character. */
  function TrimStart(s: string): (r: string)
    ensures |r| <= |s| && r == s[|s| - |r|..]
    ensures forall i :: 0 <= i < |s| - |r| ==> IsWhitespace(s[i])
    ensures r == [] || !IsWhitespace(r[0])
  {
    if s != [] && IsWhitespace(s[0]) then
      var r := TrimStart(s[1..]);
      assert s[1..][|s| - 1 - |r|..] == s[|s| - |r|..];
      assert forall i :: 0 < i < |s| - |r| ==> s[i] == s[1..][i - 1];
      r
    else s
  }

  /** Drops trailing white space; the result is the prefix that ends at the last
      non-white-space character. */
  function TrimEnd(s: string): (r: string)
    ensures |r| <= |s| && r == s[..|r|]
    ensures forall i :: |r| <= i < |s| ==> IsWhitespace(s[i])
    ensures r == [] || !IsWhitespace(r[|r| - 1])
  {
    if s != [] && IsWhitespace(s[|s| - 1]) then TrimEnd(s[..|s| - 1]) else s
  }

  /** JavaScript's `s.trim()`: the input with its leading and trailing white space
      removed and nothing else. */
  function Trim(s: string): (r: string)
    ensures IsTrimmed(r)
    ensures forall c :: c in r ==> c in s
    ensures r == [] <==> IsBlank(s)
  {
    var t := TrimStart(s);
    var r := TrimEnd(t);
    assert forall c :: c in r ==> c in t;
    assert r != [] ==> !IsWhitespace(r[0]) by {
      if r != [] { assert r[0] == t[0]; }
    }
    assert r == [] ==> IsBlank(s) by {
      if r == [] { assert t == []; }
    }
    assert IsBlank(s) ==> r == [] by {
      if t != [] {
        assert t[0] == s[|s| - |t|];
        assert !IsBlank(s);
      }
    }
    r
  }

  /** `trim()` removes white space at the two ends and nothing else: its result is a
      contiguous slice of the input with only white space before and after it. Together
      with `IsTrimmed` of the result, that slice is the longest one. */
  lemma TrimRemovesOnlyEnds(s: string)
    ensures exists i, j :: 0 <= i <= j <= |s| && Trim(s) == s[i..j] &&
                           IsBlank(s[..i]) && IsBlank(s[j..])
  {
    var t := TrimStart(s);
    var r := TrimEnd(t);
    assert Trim(s) == r;
    var i, j := TrimSlice(s, t, r);
  }

  /** The two cuts of `TrimEnd(TrimStart(s))`, as positions in `s`: `t` is a suffix of
      `s` after white space, and `r` a prefix of `t` before white space. */
  lemma TrimSlice(s: string, t: string, r: string) returns (i: nat, j: nat)
    requires |t| <= |s| && t == s[|s| - |t|..]
    requires forall k :: 0 <= k < |s| - |t| ==> IsWhitespace(s[k])
    requires |r| <= |t| && r == t[..|r|]
    requires forall k :: |r| <= k < |t| ==> IsWhitespace(t[k])
    ensures i <= j <= |s| && r == s[i..j] && IsBlank(s[..i]) && IsBlank(s[j..])
  {
    i := |s| - |t|;
    j := i + |r|;
    BlankPrefix(s, i);
    BlankSuffixOf(s, t, r);
    SliceOfSuffix(s, t, r);
  }

  lemma SliceOfSuffix(s: string, t: string, r: string)
    requires |t| <= |s| && t == s[|s| - |t|..]
    requires |r| <= |t| && r == t[..|r|]
    ensures r == s[|s| - |t|..|s| - |t| + |r|]
  {
  }

  lemma BlankPrefix(s: string, i: nat)
    requires i <= |s|
    requires forall k :: 0 <= k < i ==> IsWhitespace(s[k])
    ensures IsBlank(s[..i])
  {
  }

  lemma BlankSuffixOf(s: string, t: string, r: string)
    requires |t| <= |s| && t == s[|s| - |t|..]
    requires |r| <= |t| && r == t[..|r|]
    requires forall k :: |r| <= k < |t| ==> IsWhitespace(t[k])
    ensures IsBlank(s[|s| - |t| + |r|..])
  {
    var u := s[|s| - |t| + |r|..];
    forall k | 0 <= k < |u| ensures IsWhitespace(u[k]) {
      assert u[k] == t[|r| + k];
    }
  }

  /** Trimming a string that is already trimmed changes nothing; in particular
      `trim()` is idempotent. */
  lemma {:induction false} TrimOfTrimmed(s: string)
    requires IsTrimmed(s)
    ensures Trim(s) == s
  {
    assert TrimStart(s) == s;
    assert TrimEnd(s) == s;
  }

  lemma TrimIdempotent(s: string)
    ensures Trim(Trim(s)) == Trim(s)
  {
    TrimOfTrimmed(Trim(s));
  }

  /** `s.replace(/\s+/g, "")`: every white-space character removed. */
  function RemoveWhitespace(s: string): (r: string)
    ensures forall i :: 0 <= i < |r| ==> !IsWhitespace(r[i])
  {
    if s == [] then []
    else if IsWhitespace(s[0]) then RemoveWhitespace(s[1..])
    else [s[0]] + RemoveWhitespace(s[1..])
  }

  /** Only white space goes: every other character of `s` stays, and nothing new
      appears. */
  lemma {:induction false} RemoveKeepsOthers(s: string)
    ensures forall c :: c in RemoveWhitespace(s) <==> c in s && !IsWhitespace(c)
  {
    if s != [] {
      RemoveKeepsOthers(s[1..]);
      assert s == [s[0]] + s[1..];
    }
  }

  /** Each other character survives as many times as it occurs in `s`. */
  lemma {:induction false} RemoveKeepsCounts(s: string)
    ensures forall c :: multiset(RemoveWhitespace(s))[c] == if IsWhitespace(c) then 0 else multiset(s)[c]
  {
    if s != [] {
      RemoveKeepsCounts(s[1..]);
      assert s == [s[0]] + s[1..];
      assert multiset(s) == multiset{s[0]} + multiset(s[1..]);
      if !IsWhitespace(s[0]) {
        assert multiset([s[0]] + RemoveWhitespace(s[1..])) == multiset{s[0]} + multiset(RemoveWhitespace(s[1..]));
      }
    }
  }

  /** Removing white space after trimming is the same as removing it from the raw
      text: the `trim()` before `replace(/\s+/g, "")` has no effect of its own. */
  lemma {:induction false} RemoveAfterTrim(s: string)
    ensures RemoveWhitespace(Trim(s)) == RemoveWhitespace(s)
  {
    var t := TrimStart(s);
    RemoveDropsBlankPrefix(s, |s| - |t|);
    RemoveDropsBlankSuffix(t, |TrimEnd(t)|);
  }

  lemma {:induction false} RemoveDropsBlankPrefix(s: string, k: nat)
    requires k <= |s|
    requires forall i :: 0 <= i < k ==> IsWhitespace(s[i])
    ensures RemoveWhitespace(s[k..]) == RemoveWhitespace(s)
  {
    if k > 0 {
      assert s[1..][k - 1..] == s[k..];
      RemoveDropsBlankPrefix(s[1..], k - 1);
    }
  }

  lemma {:induction false} RemoveConcat(a: string, b: string)
    ensures RemoveWhitespace(a + b) == RemoveWhitespace(a) + RemoveWhitespace(b)
  {
    if a != [] {
      assert (a + b)[1..] == a[1..] + b;
      RemoveConcat(a[1..], b);
    } else {
      assert a + b == b;
    }
  }

  lemma {:induction false} RemoveBlank(s: string)
    requires IsBlank(s)
    ensures RemoveWhitespace(s) == []
  {
    if s != [] { RemoveBlank(s[1..]); }
  }

  lemma RemoveDropsBlankSuffix(s: string, k: nat)
    requires k <= |s|
    requires forall i :: k <= i < |s| ==> IsWhitespace(s[i])
    ensures RemoveWhitespace(s[..k]) == RemoveWhitespace(s)
  {
    assert s == s[..k] + s[k..];
    RemoveConcat(s[..k], s[k..]);
    RemoveBlank(s[k..]);
  }

  /** The two characters of the class `[、,]` that readings are split on. */
  predicate IsSeparator(c: char) {
    c == '、' || c == ','
  }

  predicate HasSeparator(s: string) {
    exists i :: 0 <= i < |s| && IsSeparator(s[i])
  }

  /** `s` with every separator written as an ASCII comma. */
  function Normalized(s: string): (r: string)
    ensures |r| == |s|
    ensures forall i :: 0 <= i < |s| ==> r[i] == if IsSeparator(s[i]) then ',' else s[i]
  {
    if s == [] then [] else [if IsSeparator(s[0]) then ',' else s[0]] + Normalized(s[1..])
  }

  /** The pieces joined back together with an ASCII comma between neighbours. */
  function JoinWithComma(parts: seq<string>): string {
    if parts == [] then []
    else if |parts| == 1 then parts[0]
    else parts[0] + [','] + JoinWithComma(parts[1..])
  }

  lemma HasSeparatorCons(c: char, t: string)
    ensures HasSeparator([c] + t) <==> IsSeparator(c) || HasSeparator(t)
  {
    if HasSeparator(t) {
      var i :| 0 <= i < |t| && IsSeparator(t[i]);
      assert ([c] + t)[i + 1] == t[i];
    }
    if HasSeparator([c] + t) && !IsSeparator(c) {
      var i :| 0 <= i < |[c] + t| && IsSeparator(([c] + t)[i]);
      assert ([c] + t)[0] == c;
      assert i > 0;
      assert t[i - 1] == ([c] + t)[i];
    }
  }

  /** `s.split(/[、,]/)`: the maximal separator-free pieces, empty pieces included. */
  function Pieces(s: string): (r: seq<string>)
    ensures |r| >= 1
  {
    if s == [] then [[]]
    else
      var rest := Pieces(s[1..]);
      if IsSeparator(s[0]) then [[]] + rest
      else [[s[0]] + rest[0]] + rest[1..]
  }

  /** No piece contains a separator. */
  lemma {:induction false} PiecesSeparatorFree(s: string)
    ensures forall k :: 0 <= k < |Pieces(s)| ==> !HasSeparator(Pieces(s)[k])
  {
    if s != [] {
      var rest := Pieces(s[1..]);
      PiecesSeparatorFree(s[1..]);
      assert s == [s[0]] + s[1..];
      if !IsSeparator(s[0]) {
        HasSeparatorCons(s[0], rest[0]);
      }
    }
  }

  /** Joining the pieces with commas gives back the text with its separators normalised:
      the split loses nothing but the choice of separator. */
  lemma {:induction false} PiecesJoin(s: string)
    ensures JoinWithComma(Pieces(s)) == Normalized(s)
  {
    if s != [] {
      var rest := Pieces(s[1..]);
      PiecesJoin(s[1..]);
      assert Normalized(s) == [if IsSeparator(s[0]) then ',' else s[0]] + Normalized(s[1..]);
      if IsSeparator(s[0]) {
        JoinAfterEmpty(rest);
      } else {
        JoinExtendFirst(s[0], rest);
      }
    }
  }

  lemma JoinAfterEmpty(rest: seq<string>)
    requires |rest| >= 1
    ensures JoinWithComma([[]] + rest) == [','] + JoinWithComma(rest)
  {
    assert ([[]] + rest)[1..] == rest;
  }

  lemma JoinExtendFirst(c: char, rest: seq<string>)
    requires |rest| >= 1
    ensures JoinWithComma([[c] + rest[0]] + rest[1..]) == [c] + JoinWithComma(rest)
  {
    if |rest| > 1 {
      var tail := JoinWithComma(rest[1..]);
      JoinCons([c] + rest[0], rest[1..]);
      JoinCons(rest[0], rest[1..]);
      assert [rest[0]] + rest[1..] == rest;
      StringAssoc([c], rest[0], tail);
    }
  }

  lemma JoinCons(x: string, ys: seq<string>)
    requires |ys| >= 1
    ensures JoinWithComma([x] + ys) == x + [','] + JoinWithComma(ys)
  {
    assert ([x] + ys)[1..] == ys;
  }

  lemma StringAssoc(a: string, b: string, tail: string)
    ensures (a + b) + [','] + tail == a + (b + [','] + tail)
  {
  }

  /** Text without a separator is one piece, itself. */
  lemma {:induction false} PiecesWithoutSeparator(s: string)
    requires !HasSeparator(s)
    ensures Pieces(s) == [s]
  {
    if s != [] {
      assert s == [s[0]] + s[1..];
      HasSeparatorCons(s[0], s[1..]);
      PiecesWithoutSeparator(s[1..]);
    }
  }

  /** There is one piece more than there are separators. */
  lemma {:induction false} PiecesCount(s: string)
    ensures |Pieces(s)| == SeparatorCount(s) + 1
  {
    if s != [] { PiecesCount(s[1..]); }
  }

  function SeparatorCount(s: string): nat {
    if s == [] then 0 else (if IsSeparator(s[0]) then 1 else 0) + SeparatorCount(s[1..])
  }

  /** Every piece trimmed, in order. */
  function TrimAll(parts: seq<string>): (r: seq<string>)
    ensures |r| == |parts|
    ensures forall k :: 0 <= k < |r| ==> r[k] == Trim(parts[k])
  {
    if parts == [] then [] else [Trim(parts[0])] + TrimAll(parts[1..])
  }

  /** `filter((reading) => reading !== "")`. */
  function DropEmpty(parts: seq<string>): (r: seq<string>)
    ensures |r| <= |parts|
    ensures forall k :: 0 <= k < |r| ==> r[k] != []
    ensures forall x :: x in r <==> x in parts && x != []
  {
    if parts == [] then []
    else if parts[0] == [] then DropEmpty(parts[1..])
    else [parts[0]] + DropEmpty(parts[1..])
  }

  /** Each non-empty entry survives as many times as it occurs in `parts`. */
  lemma {:induction false} DropEmptyKeepsCounts(parts: seq<string>)
    ensures forall x :: multiset(DropEmpty(parts))[x] == if x == [] then 0 else multiset(parts)[x]
  {
    if parts != [] {
      DropEmptyKeepsCounts(parts[1..]);
      assert parts == [parts[0]] + parts[1..];
      assert multiset(parts) == multiset{parts[0]} + multiset(parts[1..]);
      if parts[0] != [] {
        assert multiset([parts[0]] + DropEmpty(parts[1..])) == multiset{parts[0]} + multiset(DropEmpty(parts[1..]));
      }
    }
  }

  /** A well-formed reading token: non-empty, trimmed, separator-free. */
  predicate IsToken(t: string) {
    t != [] && IsTrimmed(t) && !HasSeparator(t)
  }

  lemma TrimKeepsNoSeparator(s: string)
    requires !HasSeparator(s)
    ensures !HasSeparator(Trim(s))
  {
    var t := Trim(s);
    forall i | 0 <= i < |t| ensures !IsSeparator(t[i]) {
      assert t[i] in t;
    }
  }

  /** The split-trim-filter pipeline yields only tokens, and every piece that is not
      blank shows up, trimmed. */
  lemma SplitPipeline(text: string)
    ensures forall k :: 0 <= k < |DropEmpty(TrimAll(Pieces(text)))| ==> IsToken(DropEmpty(TrimAll(Pieces(text)))[k])
    ensures forall p :: p in Pieces(text) && !IsBlank(p) ==> Trim(p) in DropEmpty(TrimAll(Pieces(text)))
  {
    var ps := Pieces(text);
    PiecesSeparatorFree(text);
    TrimAllTokensOrEmpty(ps);
    DropEmptyKeepsTokens(TrimAll(ps));
    TrimAllCovers(ps);
  }

  lemma TrimAllTokensOrEmpty(ps: seq<string>)
    requires forall k :: 0 <= k < |ps| ==> !HasSeparator(ps[k])
    ensures forall k :: 0 <= k < |TrimAll(ps)| ==> TrimAll(ps)[k] == [] || IsToken(TrimAll(ps)[k])
  {
    forall k | 0 <= k < |ps| ensures TrimAll(ps)[k] == [] || IsToken(TrimAll(ps)[k]) {
      TrimKeepsNoSeparator(ps[k]);
    }
  }

  lemma DropEmptyKeepsTokens(ts: seq<string>)
    requires forall k :: 0 <= k < |ts| ==> ts[k] == [] || IsToken(ts[k])
    ensures forall k :: 0 <= k < |DropEmpty(ts)| ==> IsToken(DropEmpty(ts)[k])
  {
    var r := DropEmpty(ts);
    forall k | 0 <= k < |r| ensures IsToken(r[k]) {
      assert r[k] in ts;
    }
  }

  lemma TrimAllCovers(ps: seq<string>)
    ensures forall p :: p in ps && !IsBlank(p) ==> Trim(p) in DropEmpty(TrimAll(ps))
  {
    var ts := TrimAll(ps);
    forall p | p in ps && !IsBlank(p) ensures Trim(p) in DropEmpty(ts) {
      var j :| 0 <= j < |ps| && ps[j] == p;
      assert ts[j] == Trim(p);
    }
  }

  /** The reading split applied to columns 1 to 3 of a record row: with a separator,
      split, trim each piece and drop the empty ones; without one, the trimmed text
      alone, or nothing when it is blank. */
  function SplitReadings(text: string): (r: seq<string>)
    ensures |r| <= SeparatorCount(text) + 1
  {
    PiecesCount(text);
    if HasSeparator(text) then DropEmpty(TrimAll(Pieces(text)))
    else if Trim(text) != [] then [Trim(text)] else []
  }

  /** Only tokens come out of the split, and every non-blank piece of the text is
      among them, trimmed. */
  lemma SplitReadingsTokens(text: string)
    ensures forall k :: 0 <= k < |SplitReadings(text)| ==> IsToken(SplitReadings(text)[k])
    ensures forall p :: p in Pieces(text) && !IsBlank(p) ==> Trim(p) in SplitReadings(text)
  {
    SplitIsUniform(text);
    SplitPipeline(text);
  }

  /** Text without a separator gives nothing when it is blank and its trimmed self
      otherwise. */
  lemma SplitWithoutSeparator(text: string)
    requires !HasSeparator(text)
    ensures SplitReadings(text) == if IsBlank(text) then [] else [Trim(text)]
  {
  }

  /** The branch for text without a separator is not a special case: the general
      split-trim-filter pipeline gives the same readings for every text. */
  lemma SplitIsUniform(text: string)
    ensures SplitReadings(text) == DropEmpty(TrimAll(Pieces(text)))
  {
    if !HasSeparator(text) {
      PiecesWithoutSeparator(text);
      assert TrimAll([text]) == [Trim(text)];
      assert DropEmpty([Trim(text)]) == if Trim(text) != [] then [Trim(text)] else [];
    }
  }

  /** `filter((item) => item && item.trim() !== "")`: the entries that are not blank,
      kept untrimmed and in order. An entry trims to `""` exactly when it is all white
      space (`Trim`'s contract), which is the test written here. */
  function NonBlank(xs: seq<string>): (r: seq<string>)
    ensures |r| <= |xs|
  {
    if xs == [] then []
    else if IsBlank(xs[0]) then NonBlank(xs[1..])
    else [xs[0]] + NonBlank(xs[1..])
  }

  /** The filter keeps exactly the entries that are not all white space, which by
      `Trim`'s contract are the entries that do not trim to `""`. */
  lemma {:induction false} NonBlankFilters(xs: seq<string>)
    ensures forall x :: x in NonBlank(xs) <==> x in xs && !IsBlank(x)
  {
    if xs != [] {
      var rest := NonBlank(xs[1..]);
      NonBlankFilters(xs[1..]);
      assert xs == [xs[0]] + xs[1..];
      if !IsBlank(xs[0]) {
        assert NonBlank(xs) == [xs[0]] + rest;
      }
    }
  }

  /** Readings produced by the split are never blank, so filtering blanks keeps them all. */
  lemma {:induction false} NonBlankOfTokens(xs: seq<string>)
    requires forall k :: 0 <= k < |xs| ==> IsToken(xs[k])
    ensures NonBlank(xs) == xs
  {
    if xs != [] {
      assert !IsWhitespace(xs[0][0]);
      NonBlankOfTokens(xs[1..]);
      assert [xs[0]] + xs[1..] == xs;
    }
  }

  lemma SplitReadingsNonBlank(text: string)
    ensures NonBlank(SplitReadings(text)) == SplitReadings(text)
  {
    SplitReadingsTokens(text);
    NonBlankOfTokens(SplitReadings(text));
  }
}
