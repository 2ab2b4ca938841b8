/**
 * The parts of Python's `str` that the bot relies on: whitespace, `strip`,
 * `startswith`/`endswith`, `find`, `replace`, `split` and `join`, on Dafny strings.
 */
module Text {
  import opened Wrappers

  /** The characters Python's `str.isspace()` accepts; `str.strip()` and the regex class `\s` use the same set. */
  predicate IsSpace(c: char) {
    || c == ' ' || ('\t' <= c <= '\r') || ('\U{1C}' <= c <= '\U{1F}')
    || c == '\U{85}' || c == '\U{A0}' || c == '\U{1680}' || ('\U{2000}' <= c <= '\U{200A}')
    || c == '\U{2028}' || c == '\U{2029}' || c == '\U{202F}' || c == '\U{205F}' || c == '\U{3000}'
  }

  /** The characters a strip removes: whitespace (`strip()`) or one given character (`strip(c)`). */
  datatype Strippable = Whitespace | Only(c: char)

  predicate Drops(t: Strippable, c: char) {
    match t
    case Whitespace => IsSpace(c)
    case Only(x) => c == x
  }

  /** `s` without the leading characters that `t` removes. */
  function TrimStart(s: string, t: Strippable): (r: string)
    ensures |r| <= |s|
  {
    if s != [] && Drops(t, s[0]) then TrimStart(s[1..], t) else s
  }

  /** `TrimStart` removes a prefix of characters that `t` drops, and stops at one it keeps. */
  lemma {:induction false} TrimStartShape(s: string, t: Strippable)
    ensures var r := TrimStart(s, t);
      && r == s[|s| - |r|..]
      && (r == [] || !Drops(t, r[0]))
      && forall i :: 0 <= i < |s| - |r| ==> Drops(t, s[i])
  {
    if s != [] && Drops(t, s[0]) {
      TrimStartShape(s[1..], t);
    }
  }

  /** `s` without the trailing characters that `t` removes. */
  function TrimEnd(s: string, t: Strippable): (r: string)
    ensures |r| <= |s|
  {
    if s != [] && Drops(t, s[|s| - 1]) then TrimEnd(s[..|s| - 1], t) else s
  }

  /** `TrimEnd` removes a suffix of characters that `t` drops, and stops at one it keeps. */
  lemma {:induction false} TrimEndShape(s: string, t: Strippable)
    ensures var r := TrimEnd(s, t);
      && r == s[..|r|]
      && (r == [] || !Drops(t, r[|r| - 1]))
      && forall i :: |r| <= i < |s| ==> Drops(t, s[i])
  {
    if s != [] && Drops(t, s[|s| - 1]) {
      TrimEndShape(s[..|s| - 1], t);
    }
  }

  /** Python's `s.strip()`: the whitespace at both ends removed. */
  function Strip(s: string): (r: string)
    ensures |r| <= |s|
  {
    TrimEnd(TrimStart(s, Whitespace), Whitespace)
  }

  /** Python's `s.strip(c)` for a one-character argument. */
  function StripChar(s: string, c: char): (r: string)
    ensures |r| <= |s|
    ensures r == [] || (r[0] != c && r[|r| - 1] != c)
  {
    var a := TrimStart(s, Only(c));
    TrimStartShape(s, Only(c));
    TrimEndShape(a, Only(c));
    TrimEnd(a, Only(c))
  }

  /** A string that neither starts nor ends with whitespace is its own `strip()`. */
  lemma StripUnchanged(s: string)
    requires s == [] || (!IsSpace(s[0]) && !IsSpace(s[|s| - 1]))
    ensures Strip(s) == s
  {
    assert TrimStart(s, Whitespace) == s;
    assert TrimEnd(s, Whitespace) == s;
  }

  /** Whitespace in front is all that `TrimStart` removes before a text. */
  lemma {:induction false} TrimStartPadding(ws: string, x: string)
    requires forall k :: 0 <= k < |ws| ==> IsSpace(ws[k])
    ensures TrimStart(ws + x, Whitespace) == TrimStart(x, Whitespace)
    decreases |ws|
  {
    if ws == [] {
      assert ws + x == x;
    } else {
      assert (ws + x)[0] == ws[0];
      assert (ws + x)[1..] == ws[1..] + x;
      TrimStartPadding(ws[1..], x);
    }
  }

  /** Whitespace behind is all that `TrimEnd` removes after a text. */
  lemma {:induction false} TrimEndPadding(x: string, ws: string)
    requires forall k :: 0 <= k < |ws| ==> IsSpace(ws[k])
    ensures TrimEnd(x + ws, Whitespace) == TrimEnd(x, Whitespace)
    decreases |ws|
  {
    if ws == [] {
      assert x + ws == x;
    } else {
      var front := ws[..|ws| - 1];
      assert (x + ws)[|x + ws| - 1] == ws[|ws| - 1];
      assert (x + ws)[..|x + ws| - 1] == x + front;
      TrimEndPadding(x, front);
    }
  }

  /** `strip()` of a text padded with whitespace on both sides is the text, when it neither starts nor ends with whitespace. */
  lemma StripPadded(ws1: string, core: string, ws2: string)
    requires forall k :: 0 <= k < |ws1| ==> IsSpace(ws1[k])
    requires forall k :: 0 <= k < |ws2| ==> IsSpace(ws2[k])
    requires core != [] && !IsSpace(core[0]) && !IsSpace(core[|core| - 1])
    ensures Strip(ws1 + core + ws2) == core
  {
    assert ws1 + core + ws2 == ws1 + (core + ws2);
    TrimStartPadding(ws1, core + ws2);
    assert (core + ws2)[0] == core[0];
    assert TrimStart(core + ws2, Whitespace) == core + ws2;
    TrimEndPadding(core, ws2);
    assert TrimEnd(core, Whitespace) == core;
  }

  /** `strip()` leaves no whitespace at either end, so stripping twice changes nothing. */
  lemma StripIdempotent(s: string)
    ensures var r := Strip(s); r == [] || (!IsSpace(r[0]) && !IsSpace(r[|r| - 1]))
    ensures Strip(Strip(s)) == Strip(s)
  {
    var a := TrimStart(s, Whitespace);
    var r := TrimEnd(a, Whitespace);
    TrimStartShape(s, Whitespace);
    TrimEndShape(a, Whitespace);
    if r != [] {
      assert r[0] == a[0];
    }
    StripUnchanged(r);
  }

  predicate StartsWith(s: string, prefix: string) {
    |prefix| <= |s| && s[..|prefix|] == prefix
  }

  predicate EndsWith(s: string, suffix: string) {
    |suffix| <= |s| && s[|s| - |suffix|..] == suffix
  }

  /** `pat` occurs in `s` starting at index `i`. */
  predicate OccursAt(s: string, pat: string, i: nat) {
    i + |pat| <= |s| && s[i..i + |pat|] == pat
  }

  /** Python's `s.find(pat, from)`: the first index at or after `from` where `pat` occurs. */
  function FindFrom(s: string, pat: string, from: nat): (r: Option<nat>)
    ensures r.Some? ==> from <= r.value && OccursAt(s, pat, r.value)
    ensures r.Some? ==> forall j :: from <= j < r.value ==> !OccursAt(s, pat, j)
    ensures r.None? ==> forall j :: from <= j ==> !OccursAt(s, pat, j)
    decreases |s| + 1 - from
  {
    if from + |pat| > |s| then None
    else if OccursAt(s, pat, from) then Some(from)
    else FindFrom(s, pat, from + 1)
  }

  /** Python's `s.find(pat)`, with None for -1. */
  function Find(s: string, pat: string): (r: Option<nat>)
    ensures r.Some? ==> OccursAt(s, pat, r.value) && forall j :: 0 <= j < r.value ==> !OccursAt(s, pat, j)
    ensures r.None? ==> forall j :: !OccursAt(s, pat, j)
  {
    FindFrom(s, pat, 0)
  }

  /** Python's `s.replace(pat, rep, 1)`. */
  function ReplaceFirst(s: string, pat: string, rep: string): (r: string)
    ensures StartsWith(s, pat) ==> r == rep + s[|pat|..]
    ensures (forall j :: !OccursAt(s, pat, j)) ==> r == s
  {
    match Find(s, pat)
    case None => s
    case Some(i) =>
      assert StartsWith(s, pat) ==> OccursAt(s, pat, 0);
      s[..i] + rep + s[i + |pat|..]
  }

  /** Python's `s.replace(pat, rep)`: every occurrence, scanning left to right without overlap. */
  function ReplaceAll(s: string, pat: string, rep: string): (r: string)
    requires |pat| > 0
    ensures |rep| <= |pat| ==> |r| <= |s|
    ensures forall i :: 0 <= i < |r| ==> r[i] in s || r[i] in rep
    decreases |s|
  {
    if StartsWith(s, pat) then rep + ReplaceAll(s[|pat|..], pat, rep)
    else if s == [] then []
    else [s[0]] + ReplaceAll(s[1..], pat, rep)
  }

  /** A string in which `pat` never occurs is left as it is by `replace`. */
  lemma {:induction false} ReplaceAllAbsent(s: string, pat: string, rep: string)
    requires |pat| > 0
    requires forall j :: !OccursAt(s, pat, j)
    ensures ReplaceAll(s, pat, rep) == s
  {
    if s != [] {
      assert !StartsWith(s, pat) by { assert !OccursAt(s, pat, 0); }
      forall j: nat ensures !OccursAt(s[1..], pat, j) {
        assert !OccursAt(s, pat, j + 1);
        if j + |pat| <= |s| - 1 {
          assert s[1..][j..j + |pat|] == s[j + 1..j + 1 + |pat|];
        }
      }
      ReplaceAllAbsent(s[1..], pat, rep);
    }
  }

  /** Python's `s.split(sep)` for a non-empty separator. */
  function Split(s: string, sep: string): (parts: seq<string>)
    requires |sep| > 0
    ensures |parts| >= 1
    decreases |s|
  {
    match Find(s, sep)
    case None => [s]
    case Some(i) => [s[..i]] + Split(s[i + |sep|..], sep)
  }

  /** Python's `sep.join(parts)`. */
  function Join(parts: seq<string>, sep: string): (r: string)
    ensures |parts| > 0 ==> StartsWith(r, parts[0]) && EndsWith(r, parts[|parts| - 1])
  {
    if |parts| == 0 then ""
    else if |parts| == 1 then parts[0]
    else parts[0] + sep + Join(parts[1..], sep)
  }

  /** Joining the pieces of a split with the same separator gives back the original string. */
  lemma {:induction false} JoinSplit(s: string, sep: string)
    requires |sep| > 0
    ensures Join(Split(s, sep), sep) == s
    decreases |s|
  {
    var f := Find(s, sep);
    if f.Some? {
      var i := f.value;
      var rest := s[i + |sep|..];
      JoinSplit(rest, sep);
      var tail := Split(rest, sep);
      JoinCons(s[..i], tail, sep);
      Around(s, i, sep);
    }
  }

  /** A string is the text before an occurrence, the occurrence, and the text after it. */
  lemma Around(s: string, i: nat, sep: string)
    requires OccursAt(s, sep, i)
    ensures s == s[..i] + sep + s[i + |sep|..]
  {
    assert s[i..i + |sep|] == sep;
    assert s == s[..i] + s[i..i + |sep|] + s[i + |sep|..];
  }

  lemma JoinCons(head: string, tail: seq<string>, sep: string)
    requires |tail| >= 1
    ensures Join([head] + tail, sep) == head + sep + Join(tail, sep)
  {
    assert ([head] + tail)[1..] == tail;
  }

  /** With a one-character separator, an occurrence is just that character. */
  lemma OccursAtChar(s: string, c: char, j: nat)
    ensures OccursAt(s, [c], j) <==> j < |s| && s[j] == c
  {
    if j < |s| {
      assert s[j..j + 1] == [s[j]];
    }
  }

  /** Splitting on a character that no piece contains undoes `join`. */
  lemma {:induction false} SplitJoin(parts: seq<string>, c: char)
    requires |parts| >= 1
    requires forall k :: 0 <= k < |parts| ==> c !in parts[k]
    ensures Split(Join(parts, [c]), [c]) == parts
  {
    var p := parts[0];
    if |parts| == 1 {
      forall j: nat ensures !OccursAt(p, [c], j) {
        OccursAtChar(p, c, j);
      }
      assert Find(p, [c]).None?;
    } else {
      var rest := Join(parts[1..], [c]);
      var s := p + [c] + rest;
      assert Join(parts, [c]) == s;
      OccursAtChar(s, c, |p|);
      forall j: nat | j < |p| ensures !OccursAt(s, [c], j) {
        OccursAtChar(s, c, j);
        assert s[j] == p[j];
      }
      assert Find(s, [c]) == Some(|p|);
      assert s[..|p|] == p;
      assert s[|p| + 1..] == rest;
      SplitJoin(parts[1..], c);
    }
  }

  /**
   * The last piece of a split on a one-character separator is the part of `s`
   * after the last separator: a suffix of `s` without the separator, preceded
   * by the separator unless it is the whole string.
   */
  lemma {:induction false} SplitLast(s: string, c: char)
    ensures var parts := Split(s, [c]); AfterLast(s, c, parts[|parts| - 1])
    decreases |s|
  {
    match Find(s, [c])
    case None =>
      SplitLastWhole(s, c);
    case Some(i) =>
      var rest := s[i + 1..];
      SplitLast(rest, c);
      OccursAtChar(s, c, i);
      SplitFound(s, [c], i);
      var tail := Split(rest, [c]);
      LastOfCons(s[..i], tail);
      SuffixAfter(s, i, c, tail[|tail| - 1]);
  }

  /** `last` is the part of `s` after its last `c`: a suffix without `c`, preceded by `c` unless it is all of `s`. */
  predicate AfterLast(s: string, c: char, last: string) {
    && |last| <= |s| && last == s[|s| - |last|..] && c !in last
    && (|last| < |s| ==> s[|s| - |last| - 1] == c)
  }

  /** Without a separator, the only piece is the whole string. */
  lemma SplitLastWhole(s: string, c: char)
    requires Find(s, [c]).None?
    ensures var parts := Split(s, [c]); AfterLast(s, c, parts[|parts| - 1])
  {
    assert Split(s, [c]) == [s];
    forall j: nat | j < |s| ensures s[j] != c {
      OccursAtChar(s, c, j);
    }
    assert s[|s| - |s|..] == s;
  }

  /** Where the separator is first found, the split is the text before it followed by the split of the rest. */
  lemma SplitFound(s: string, sep: string, i: nat)
    requires |sep| > 0 && Find(s, sep) == Some(i)
    ensures Split(s, sep) == [s[..i]] + Split(s[i + |sep|..], sep)
  {
  }

  lemma LastOfCons(head: string, tail: seq<string>)
    requires |tail| >= 1
    ensures ([head] + tail)[|[head] + tail| - 1] == tail[|tail| - 1]
  {
  }

  /** The part after the last `c` of the text that follows a `c` at `i` is the part after the last `c` of the whole text. */
  lemma SuffixAfter(s: string, i: nat, c: char, last: string)
    requires i < |s| && s[i] == c
    requires AfterLast(s[i + 1..], c, last)
    ensures AfterLast(s, c, last)
  {
    var rest := s[i + 1..];
    assert rest[|rest| - |last|..] == s[|s| - |last|..];
    if |last| < |rest| {
      assert rest[|rest| - |last| - 1] == s[|s| - |last| - 1];
    }
  }

  /** The ASCII lower-case form of `c` (Python's `lower()` on ASCII). */
  function LowerAscii(c: char): (r: char)
    ensures 'A' <= c <= 'Z' ==> 'a' <= r <= 'z' && r as int == c as int + 32
    ensures !('A' <= c <= 'Z') ==> r == c
  {
    if 'A' <= c <= 'Z' then (c as int + 32) as char else c
  }

  /** `s` with every ASCII letter in lower case. */
  function LowerAsciiString(s: string): (r: string)
    ensures |r| == |s| && forall i :: 0 <= i < |s| ==> r[i] == LowerAscii(s[i])
  {
    if s == [] then [] else [LowerAscii(s[0])] + LowerAsciiString(s[1..])
  }
}
