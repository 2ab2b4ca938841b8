/**
 * Reading a Yandex e-mail address and app password out of a chat message.
 *
 * The regular expressions of the bot are modelled by what Python's `re`
 * engine does with each of them: a leftmost search, greedy repetition with
 * backtracking, alternatives tried in order, and case-insensitive matching of
 * the keywords for ASCII and Cyrillic letters.
 */
module Credentials {
  import opened Wrappers
  import opened Text

  predicate AsciiLetter(c: char) {
    'a' <= c <= 'z' || 'A' <= c <= 'Z'
  }

  predicate AsciiDigit(c: char) {
    '0' <= c <= '9'
  }

  /** `[a-zA-Z0-9._%+-]`: a character of the local part of an address. */
  predicate LocalChar(c: char) {
    AsciiLetter(c) || AsciiDigit(c) || c == '.' || c == '_' || c == '%' || c == '+' || c == '-'
  }

  /** `[a-zA-Z0-9.-]`: a character of the domain of an address. */
  predicate DomainChar(c: char) {
    AsciiLetter(c) || AsciiDigit(c) || c == '.' || c == '-'
  }

  /** `[a-zA-Z0-9\-_]`: a character of an app password. */
  predicate TokenChar(c: char) {
    AsciiLetter(c) || AsciiDigit(c) || c == '-' || c == '_'
  }

  /** `[:\s]`: a character that may separate a keyword from the password. */
  predicate SepChar(c: char) {
    c == ':' || IsSpace(c)
  }

  /** No character of `s` is whitespace. */
  predicate NoSpace(s: string) {
    forall i :: 0 <= i < |s| ==> !IsSpace(s[i])
  }

  /** The character classes that the patterns repeat. */
  datatype Class = Local | Domain | Letter | Sep | Token | NonSpace

  predicate In(cls: Class, c: char) {
    match cls
    case Local => LocalChar(c)
    case Domain => DomainChar(c)
    case Letter => AsciiLetter(c)
    case Sep => SepChar(c)
    case Token => TokenChar(c)
    case NonSpace => !IsSpace(c)
  }

  /** The end of the longest run of characters of class `cls` that starts at `i`. */
  function RunEnd(s: string, i: nat, cls: Class): (e: nat)
    requires i <= |s|
    ensures i <= e <= |s|
    ensures e == |s| || !In(cls, s[e])
    decreases |s| - i
  {
    if i < |s| && In(cls, s[i]) then RunEnd(s, i + 1, cls) else i
  }

  /** Every character of the run belongs to the class. */
  lemma {:induction false} RunEndAll(s: string, i: nat, cls: Class)
    requires i <= |s|
    ensures forall j :: i <= j < RunEnd(s, i, cls) ==> In(cls, s[j])
    decreases |s| - i
  {
    if i < |s| && In(cls, s[i]) {
      RunEndAll(s, i + 1, cls);
    }
  }

  /** A run of class `cls` from `i` that stops at `e` is the longest one: `RunEnd` is `e`. */
  lemma {:induction false} RunEndExact(s: string, i: nat, cls: Class, e: nat)
    requires i <= e <= |s|
    requires forall t :: i <= t < e ==> In(cls, s[t])
    requires e == |s| || !In(cls, s[e])
    ensures RunEnd(s, i, cls) == e
    decreases e - i
  {
    if i < e {
      RunEndExact(s, i + 1, cls, e);
    }
  }

  /** The longest run covers any run of the class that starts at `i`. */
  lemma {:induction false} RunEndCovers(s: string, i: nat, cls: Class, e: nat)
    requires i <= e <= |s|
    requires forall t :: i <= t < e ==> In(cls, s[t])
    ensures RunEnd(s, i, cls) >= e
    decreases e - i
  {
    if i < e {
      RunEndCovers(s, i + 1, cls, e);
    }
  }

  /** Where an address matched: the local part is `start..at`, the domain `at+1..dot`, the top-level domain `dot+1..end`. */
  datatype EmailSpan = EmailSpan(start: nat, at: nat, dot: nat, end: nat)

  /** `s[m.start..m.end]` has the shape `local@domain.tld` with a top-level domain of two letters or more. */
  predicate EmailAt(s: string, m: EmailSpan) {
    && m.start < m.at && m.at + 1 < m.dot && m.dot + 3 <= m.end <= |s|
    && (forall j :: m.start <= j < m.at ==> LocalChar(s[j]))
    && s[m.at] == '@'
    && (forall j :: m.at + 1 <= j < m.dot ==> DomainChar(s[j]))
    && s[m.dot] == '.'
    && (forall j :: m.dot < j < m.end ==> AsciiLetter(s[j]))
  }

  /**
   * The largest `q` with `lo <= q < hi` where `s[q]` is a dot followed by at
   * least two letters: the place where `[a-zA-Z0-9.-]+` gives back just
   * enough characters for `\.[a-zA-Z]{2,}` to match.
   */
  function LastDot(s: string, lo: nat, hi: nat): (q: Option<nat>)
    requires hi <= |s|
    ensures q.Some? ==> lo <= q.value < hi && s[q.value] == '.' && RunEnd(s, q.value + 1, Letter) >= q.value + 3
    decreases hi
  {
    if hi <= lo then None
    else if s[hi - 1] == '.' && RunEnd(s, hi, Letter) >= hi + 2 then Some(hi - 1)
    else LastDot(s, lo, hi - 1)
  }

  /** `s[r]` is a dot followed by at least two letters. */
  predicate DotAt(s: string, r: nat) {
    r < |s| && s[r] == '.' && RunEnd(s, r + 1, Letter) >= r + 3
  }

  /**
   * `LastDot` finds the last such dot: any dot in `lo..hi` followed by two
   * letters lies at or before the one it returns, so it returns none only
   * when there is none.
   */
  lemma {:induction false} LastDotLast(s: string, lo: nat, hi: nat, r: nat)
    requires hi <= |s| && lo <= r < hi
    requires DotAt(s, r)
    ensures LastDot(s, lo, hi).Some? && r <= LastDot(s, lo, hi).value
    decreases hi
  {
    if r < hi - 1 {
      LastDotLast(s, lo, hi - 1, r);
    }
  }

  /** A dot followed by two letters with no such dot after it in `lo..hi` is the one `LastDot` finds. */
  lemma LastDotExact(s: string, lo: nat, hi: nat, r: nat)
    requires hi <= |s| && lo <= r < hi
    requires DotAt(s, r)
    requires forall t :: r < t < hi ==> !DotAt(s, t)
    ensures LastDot(s, lo, hi) == Some(r)
  {
    LastDotLast(s, lo, hi, r);
    var q := LastDot(s, lo, hi).value;
    assert DotAt(s, q);
  }

  /** The match of `[a-zA-Z0-9._%+-]+@[a-zA-Z0-9.-]+\.[a-zA-Z]{2,}` that starts at `i`, if any. */
  function EmailMatchAt(s: string, i: nat): (m: Option<EmailSpan>)
    requires i <= |s|
    ensures m.Some? ==> m.value.start == i && EmailAt(s, m.value)
  {
    var at := RunEnd(s, i, Local);
    if at == i || at == |s| || s[at] != '@' then None
    else
      EmailDomainShape(s, i, at);
      EmailDomainFrom(s, i, at)
  }

  /** The rest of the match once the local part `s[i..at]` is followed by `@`: the domain and its top-level part. */
  function EmailDomainFrom(s: string, i: nat, at: nat): (m: Option<EmailSpan>)
    requires i < at < |s| && s[at] == '@' && RunEnd(s, i, Local) == at
    ensures m.Some? ==> m.value.start == i && m.value.at == at
  {
    var domainEnd := RunEnd(s, at + 1, Domain);
    match LastDot(s, at + 2, domainEnd)
    case None => None
    case Some(dot) => Some(EmailSpan(i, at, dot, RunEnd(s, dot + 1, Letter)))
  }

  /** What the domain stage returns has the shape of an address. */
  lemma EmailDomainShape(s: string, i: nat, at: nat)
    requires i < at < |s| && s[at] == '@' && RunEnd(s, i, Local) == at
    ensures EmailDomainFrom(s, i, at).Some? ==> EmailAt(s, EmailDomainFrom(s, i, at).value)
  {
    match LastDot(s, at + 2, RunEnd(s, at + 1, Domain))
    case None =>
    case Some(dot) =>
      RunEndAll(s, i, Local);
      RunEndAll(s, at + 1, Domain);
      RunEndAll(s, dot + 1, Letter);
  }

  /** An address-shaped text at `m.start` is matched there: the matcher misses no address. */
  lemma EmailComplete(s: string, m: EmailSpan)
    requires EmailAt(s, m)
    ensures EmailMatchAt(s, m.start).Some?
  {
    var domainEnd, dot := EmailScan(s, m);
    EmailMatchFound(s, m.start, m.at, domainEnd, dot);
  }

  /**
   * The extent of the match is the greedy one: an address-shaped span whose
   * top-level domain cannot grow by a letter and whose domain run holds no
   * later dot followed by two letters is exactly what the matcher returns.
   */
  lemma EmailMatchExact(s: string, m: EmailSpan)
    requires EmailAt(s, m)
    requires m.end == |s| || !AsciiLetter(s[m.end])
    requires forall r :: m.dot < r < RunEnd(s, m.at + 1, Domain) ==> !DotAt(s, r)
    ensures EmailMatchAt(s, m.start) == Some(m)
  {
    EmailLocalEnd(s, m);
    EmailDomainEnd(s, m);
    EmailDot(s, m);
    LastDotExact(s, m.at + 2, RunEnd(s, m.at + 1, Domain), m.dot);
    EmailTopLevelEnd(s, m);
    EmailMatchSpan(s, m);
  }

  /** A top-level domain that no letter follows is the whole run of letters after the dot. */
  lemma EmailTopLevelEnd(s: string, m: EmailSpan)
    requires EmailAt(s, m)
    requires m.end == |s| || !AsciiLetter(s[m.end])
    ensures RunEnd(s, m.dot + 1, Letter) == m.end
  {
    RunEndExact(s, m.dot + 1, Letter, m.end);
  }

  /** The span the matcher returns once its three scans are known. */
  lemma EmailMatchSpan(s: string, m: EmailSpan)
    requires m.start < m.at < |s| && s[m.at] == '@'
    requires RunEnd(s, m.start, Local) == m.at
    requires LastDot(s, m.at + 2, RunEnd(s, m.at + 1, Domain)) == Some(m.dot)
    requires RunEnd(s, m.dot + 1, Letter) == m.end
    ensures EmailMatchAt(s, m.start) == Some(m)
  {
  }

  /** What the matcher's scans find on an address-shaped text: the local part ends at the `@` and a dot lies in the domain. */
  lemma EmailScan(s: string, m: EmailSpan) returns (domainEnd: nat, dot: nat)
    requires EmailAt(s, m)
    ensures m.start < m.at < |s| && s[m.at] == '@' && RunEnd(s, m.start, Local) == m.at
    ensures domainEnd <= |s| && RunEnd(s, m.at + 1, Domain) == domainEnd
    ensures LastDot(s, m.at + 2, domainEnd) == Some(dot)
  {
    EmailLocalEnd(s, m);
    EmailDomainEnd(s, m);
    EmailDot(s, m);
    domainEnd := RunEnd(s, m.at + 1, Domain);
    LastDotLast(s, m.at + 2, domainEnd, m.dot);
    dot := LastDot(s, m.at + 2, domainEnd).value;
  }

  /** The matcher succeeds at `i` once the local part ends at an `@` and a dot follows in the domain. */
  lemma EmailMatchFound(s: string, i: nat, at: nat, domainEnd: nat, dot: nat)
    requires i < at < |s| && s[at] == '@'
    requires RunEnd(s, i, Local) == at
    requires at + 1 <= |s| && RunEnd(s, at + 1, Domain) == domainEnd
    requires domainEnd <= |s| && LastDot(s, at + 2, domainEnd) == Some(dot)
    ensures EmailMatchAt(s, i).Some?
  {
  }

  lemma EmailLocalEnd(s: string, m: EmailSpan)
    requires EmailAt(s, m)
    ensures m.start < m.at < |s| && s[m.at] == '@'
    ensures RunEnd(s, m.start, Local) == m.at
  {
    RunEndExact(s, m.start, Local, m.at);
  }

  lemma EmailDomainEnd(s: string, m: EmailSpan)
    requires EmailAt(s, m)
    ensures RunEnd(s, m.at + 1, Domain) >= m.end
  {
    forall t | m.at + 1 <= t < m.end ensures In(Domain, s[t]) {
      if m.dot < t {
        assert AsciiLetter(s[t]);
      }
    }
    RunEndCovers(s, m.at + 1, Domain, m.end);
  }

  lemma EmailDot(s: string, m: EmailSpan)
    requires EmailAt(s, m)
    ensures DotAt(s, m.dot)
  {
    RunEndCovers(s, m.dot + 1, Letter, m.end);
  }

  /** `re.search` of the address pattern from position `i` on: the leftmost match. */
  function EmailSearchFrom(s: string, i: nat): (m: Option<EmailSpan>)
    requires i <= |s|
    ensures m.Some? ==> i <= m.value.start <= |s| && EmailMatchAt(s, m.value.start) == m
    decreases |s| - i
  {
    var here := EmailMatchAt(s, i);
    if here.Some? then here
    else if i == |s| then None
    else EmailSearchFrom(s, i + 1)
  }

  /** One step of the search: a match at `i` is the result, otherwise the search goes on from `i + 1`. */
  lemma EmailSearchStep(s: string, i: nat)
    requires i <= |s|
    ensures EmailMatchAt(s, i).Some? ==> EmailSearchFrom(s, i) == EmailMatchAt(s, i)
    ensures EmailMatchAt(s, i).None? && i < |s| ==> EmailSearchFrom(s, i) == EmailSearchFrom(s, i + 1)
    ensures EmailMatchAt(s, i).None? && i == |s| ==> EmailSearchFrom(s, i).None?
  {
  }

  /**
   * The search finds the leftmost match: when position `j` from `i` on
   * matches, the search finds a match that starts at or before `j`.
   */
  lemma {:induction false} EmailSearchLeftmost(s: string, i: nat, j: nat)
    requires i <= j <= |s|
    ensures EmailMatchAt(s, j).Some? ==> EmailSearchFrom(s, i).Some? && EmailSearchFrom(s, i).value.start <= j
    decreases j - i
  {
    EmailSearchStep(s, i);
    if i < j {
      EmailSearchLeftmost(s, i + 1, j);
    }
  }

  /** Any address-shaped text in the message is found, or one that starts before it. */
  lemma EmailSearchComplete(s: string, m: EmailSpan)
    requires EmailAt(s, m)
    ensures EmailSearch(s).Some? && EmailSearch(s).value.start <= m.start
  {
    EmailComplete(s, m);
    EmailSearchLeftmost(s, 0, m.start);
  }

  function EmailSearch(s: string): (m: Option<EmailSpan>)
    ensures m.Some? ==> m.value.start <= |s| && EmailMatchAt(s, m.value.start) == m
  {
    EmailSearchFrom(s, 0)
  }

  /** The upper-case form of an ASCII or Cyrillic lower-case letter; other characters are their own. */
  function Upper(c: char): (r: char)
    ensures ('a' <= c <= 'z' || 'а' <= c <= 'я') ==> r as int == c as int - 32
  {
    if 'a' <= c <= 'z' || 'а' <= c <= 'я' then (c as int - 32) as char else c
  }

  /** `kw`, written in lower case, occurs at `i`, ignoring case. */
  predicate KeywordAt(s: string, i: nat, kw: string) {
    i + |kw| <= |s| && forall j :: 0 <= j < |kw| ==> (s[i + j] == kw[j] || s[i + j] == Upper(kw[j]))
  }

  /** What follows a keyword in a password pattern. */
  datatype Tail =
    | SepThenWord   // `[:\s]+([^\s\n]+)`
    | SepThenToken  // `[:\s]*([a-zA-Z0-9\-_]{10,})`

  /** A password pattern: alternative keywords, tried in order, and what follows them. */
  datatype Pattern = Pattern(keywords: seq<string>, tail: Tail)

  /** The three password patterns, in the order they are tried. */
  const PasswordPatterns: seq<Pattern> := [
    Pattern(["пароль", "password", "pass", "пароль приложения"], SepThenWord),
    Pattern(["\U{1F511}", "ключ"], SepThenWord),
    Pattern(["пароль"], SepThenToken)
  ]

  /** The largest `j` with `lo <= j < hi` where `s[j]` is not whitespace. */
  function LastNonSpace(s: string, lo: nat, hi: nat): (j: Option<nat>)
    requires hi <= |s|
    ensures j.Some? ==> lo <= j.value < hi && !IsSpace(s[j.value])
    decreases hi
  {
    if hi <= lo then None
    else if !IsSpace(s[hi - 1]) then Some(hi - 1)
    else LastNonSpace(s, lo, hi - 1)
  }

  /** Only whitespace follows the character found, and all of `lo..hi` is whitespace when none is found. */
  lemma {:induction false} LastNonSpaceAfter(s: string, lo: nat, hi: nat)
    requires hi <= |s|
    ensures LastNonSpace(s, lo, hi).Some? ==> forall k :: LastNonSpace(s, lo, hi).value < k < hi ==> IsSpace(s[k])
    ensures LastNonSpace(s, lo, hi).None? ==> forall k :: lo <= k < hi ==> IsSpace(s[k])
    decreases hi
  {
    if lo < hi && IsSpace(s[hi - 1]) {
      LastNonSpaceAfter(s, lo, hi - 1);
    }
  }

  /** The captured group of a tail that starts at `k`, if the tail matches there. */
  function TailGroup(s: string, k: nat, tail: Tail): (g: Option<string>)
    requires k <= |s|
    ensures g.Some? ==> g.value != []
    ensures g.Some? && tail.SepThenToken? ==> |g.value| >= 10
  {
    var sepEnd := RunEnd(s, k, Sep);
    match tail
    case SepThenWord =>
      if sepEnd == k then None
      else
        // `[:\s]+` gives back separators until `[^\s\n]+` can start
        (match LastNonSpace(s, k + 1, if sepEnd < |s| then sepEnd + 1 else |s|)
         case None => None
         case Some(j) => Some(s[j..RunEnd(s, j, NonSpace)]))
    case SepThenToken =>
      var tokenEnd := RunEnd(s, sepEnd, Token);
      if tokenEnd - sepEnd >= 10 then Some(s[sepEnd..tokenEnd])
      else None
  }

  /** The characters a group is made of. */
  predicate GroupShape(g: string, tail: Tail) {
    && NoSpace(g)
    && (tail.SepThenToken? ==> forall t :: 0 <= t < |g| ==> TokenChar(g[t]))
  }

  /** A group never contains whitespace, and a token group is made of token characters. */
  lemma TailGroupShape(s: string, k: nat, tail: Tail)
    requires k <= |s|
    ensures TailGroup(s, k, tail).Some? ==> GroupShape(TailGroup(s, k, tail).value, tail)
  {
    var sepEnd := RunEnd(s, k, Sep);
    match tail
    case SepThenWord =>
      if TailGroup(s, k, tail).Some? {
        var j := LastNonSpace(s, k + 1, if sepEnd < |s| then sepEnd + 1 else |s|).value;
        RunEndAll(s, j, NonSpace);
      }
    case SepThenToken =>
      RunEndAll(s, sepEnd, Token);
  }

  /**
   * A way for `[:\s]+([^\s\n]+)` to start at `k`: separators on `k..j`
   * (at least one) and a character that is not whitespace at `j`.
   */
  predicate WordSplit(s: string, k: nat, j: nat) {
    k < j < |s| && (forall u :: k <= u < j ==> SepChar(s[u])) && !IsSpace(s[j])
  }

  /** `LastNonSpace` finds a non-space character that only whitespace follows. */
  lemma {:induction false} LastNonSpaceExact(s: string, lo: nat, hi: nat, j: nat)
    requires hi <= |s| && lo <= j < hi && !IsSpace(s[j])
    requires forall t :: j < t < hi ==> IsSpace(s[t])
    ensures LastNonSpace(s, lo, hi) == Some(j)
    decreases hi
  {
    if j < hi - 1 {
      LastNonSpaceExact(s, lo, hi - 1, j);
    }
  }

  /**
   * The regular expression backtracks to the last split: when `j` is the
   * last way to start the word, the group is the whole run of non-space
   * characters `s[j..e]` from there.
   */
  lemma TailWordExact(s: string, k: nat, j: nat, e: nat)
    requires WordSplit(s, k, j)
    requires forall t :: j < t < |s| ==> !WordSplit(s, k, t)
    requires j < e <= |s| && (forall u :: j <= u < e ==> !IsSpace(s[u])) && (e == |s| || IsSpace(s[e]))
    ensures TailGroup(s, k, SepThenWord) == Some(s[j..e])
  {
    var sepEnd := RunEnd(s, k, Sep);
    RunEndCovers(s, k, Sep, j);
    RunEndAll(s, k, Sep);
    var hi := if sepEnd < |s| then sepEnd + 1 else |s|;
    forall t | j < t < hi ensures IsSpace(s[t]) {
      assert forall u :: k <= u < t ==> SepChar(s[u]);
      assert !WordSplit(s, k, t);
    }
    LastNonSpaceExact(s, k + 1, hi, j);
    RunEndExact(s, j, NonSpace, e);
  }

  /** `[:\s]+([^\s\n]+)` matches at `k` exactly when some split exists. */
  lemma TailWordNone(s: string, k: nat)
    requires k <= |s|
    ensures TailGroup(s, k, SepThenWord).None? <==> forall j :: k < j < |s| ==> !WordSplit(s, k, j)
  {
    var sepEnd := RunEnd(s, k, Sep);
    RunEndAll(s, k, Sep);
    var hi := if sepEnd < |s| then sepEnd + 1 else |s|;
    if TailGroup(s, k, SepThenWord).None? {
      LastNonSpaceAfter(s, k + 1, hi);
      forall j | k < j < |s| && (forall u :: k <= u < j ==> SepChar(s[u])) ensures IsSpace(s[j]) {
        RunEndCovers(s, k, Sep, j);
      }
    } else {
      var j := LastNonSpace(s, k + 1, hi).value;
      assert WordSplit(s, k, j);
    }
  }

  /**
   * `[:\s]*([a-zA-Z0-9\-_]{10,})` at `k`: the separators `s[k..j]` are
   * followed by the run of token characters `s[j..e]`, which is the group
   * when it is ten characters or more; otherwise there is no match.
   */
  lemma TailTokenExact(s: string, k: nat, j: nat, e: nat)
    requires k <= j <= e <= |s|
    requires (forall u :: k <= u < j ==> SepChar(s[u])) && (j == |s| || !SepChar(s[j]))
    requires (forall u :: j <= u < e ==> TokenChar(s[u])) && (e == |s| || !TokenChar(s[e]))
    ensures TailGroup(s, k, SepThenToken) == if e - j >= 10 then Some(s[j..e]) else None
  {
    RunEndExact(s, k, Sep, j);
    RunEndExact(s, j, Token, e);
  }

  /** Keyword `kw` occurs at `i` and the tail matches after it. */
  predicate AltMatches(s: string, i: nat, kw: string, tail: Tail)
    requires i <= |s|
  {
    KeywordAt(s, i, kw) && TailGroup(s, i + |kw|, tail).Some?
  }

  /** The position, from `from` on, of the first keyword in `kws` that occurs at `i` with the tail matching after it. */
  function FirstAlt(s: string, i: nat, kws: seq<string>, tail: Tail, from: nat): (k: Option<nat>)
    requires i <= |s| && from <= |kws|
    ensures k.Some? ==> from <= k.value < |kws| && AltMatches(s, i, kws[k.value], tail)
    decreases |kws| - from
  {
    if from == |kws| then None
    else if AltMatches(s, i, kws[from], tail) then Some(from)
    else FirstAlt(s, i, kws, tail, from + 1)
  }

  /** One step of the scan: a matching alternative at `from` is the result, otherwise the scan goes on from `from + 1`. */
  lemma FirstAltStep(s: string, i: nat, kws: seq<string>, tail: Tail, from: nat)
    requires i <= |s| && from < |kws|
    ensures AltMatches(s, i, kws[from], tail) ==> FirstAlt(s, i, kws, tail, from) == Some(from)
    ensures !AltMatches(s, i, kws[from], tail) ==> FirstAlt(s, i, kws, tail, from) == FirstAlt(s, i, kws, tail, from + 1)
  {
  }

  /** The alternatives are tried in order: the first one that matches is found. */
  lemma {:induction false} FirstAltExact(s: string, i: nat, kws: seq<string>, tail: Tail, from: nat, k: nat)
    requires i <= |s| && from <= k < |kws|
    requires AltMatches(s, i, kws[k], tail)
    requires forall t :: from <= t < k ==> !AltMatches(s, i, kws[t], tail)
    ensures FirstAlt(s, i, kws, tail, from) == Some(k)
    decreases k - from
  {
    FirstAltStep(s, i, kws, tail, from);
    if from < k {
      FirstAltExact(s, i, kws, tail, from + 1, k);
    }
  }

  /** Nothing is found exactly when no alternative from `from` on matches. */
  lemma {:induction false} FirstAltNone(s: string, i: nat, kws: seq<string>, tail: Tail, from: nat)
    requires i <= |s| && from <= |kws|
    ensures FirstAlt(s, i, kws, tail, from).None? <==> forall t :: from <= t < |kws| ==> !AltMatches(s, i, kws[t], tail)
    decreases |kws| - from
  {
    if from < |kws| {
      FirstAltStep(s, i, kws, tail, from);
      FirstAltNone(s, i, kws, tail, from + 1);
    }
  }

  /** The group captured at `i` by the first keyword in `kws` after which the tail matches. */
  function KeywordGroup(s: string, i: nat, kws: seq<string>, tail: Tail): (g: Option<string>)
    requires i <= |s|
    ensures g.Some? ==> g.value != []
    ensures g.Some? && tail.SepThenToken? ==> |g.value| >= 10
  {
    match FirstAlt(s, i, kws, tail, 0)
    case Some(k) => TailGroup(s, i + |kws[k]|, tail)
    case None => None
  }

  lemma KeywordGroupShape(s: string, i: nat, kws: seq<string>, tail: Tail)
    requires i <= |s|
    ensures KeywordGroup(s, i, kws, tail).Some? ==> GroupShape(KeywordGroup(s, i, kws, tail).value, tail)
  {
    if FirstAlt(s, i, kws, tail, 0).Some? {
      TailGroupShape(s, i + |kws[FirstAlt(s, i, kws, tail, 0).value]|, tail);
    }
  }

  /** The first alternative that matches with its tail gives the group. */
  lemma KeywordGroupFirst(s: string, i: nat, kws: seq<string>, tail: Tail, k: nat)
    requires i <= |s| && k < |kws|
    requires AltMatches(s, i, kws[k], tail)
    requires forall t :: 0 <= t < k ==> !AltMatches(s, i, kws[t], tail)
    ensures KeywordGroup(s, i, kws, tail) == TailGroup(s, i + |kws[k]|, tail)
  {
    FirstAltExact(s, i, kws, tail, 0, k);
    KeywordGroupOfAlt(s, i, kws, tail, k);
  }

  /** The group comes from the alternative the scan finds. */
  lemma KeywordGroupOfAlt(s: string, i: nat, kws: seq<string>, tail: Tail, k: nat)
    requires i <= |s| && k < |kws|
    requires FirstAlt(s, i, kws, tail, 0) == Some(k)
    ensures KeywordGroup(s, i, kws, tail) == TailGroup(s, i + |kws[k]|, tail)
  {
  }

  /** There is no group at `i` exactly when no alternative matches with its tail. */
  lemma KeywordGroupNone(s: string, i: nat, kws: seq<string>, tail: Tail)
    requires i <= |s|
    ensures KeywordGroup(s, i, kws, tail).None? <==> forall t :: 0 <= t < |kws| ==> !AltMatches(s, i, kws[t], tail)
  {
    KeywordGroupAlt(s, i, kws, tail);
    FirstAltNone(s, i, kws, tail, 0);
  }

  /** There is a group at `i` exactly when some alternative matches with its tail. */
  lemma KeywordGroupAlt(s: string, i: nat, kws: seq<string>, tail: Tail)
    requires i <= |s|
    ensures KeywordGroup(s, i, kws, tail).Some? <==> FirstAlt(s, i, kws, tail, 0).Some?
  {
  }

  /** `re.search(pattern, s, re.IGNORECASE).group(1)` from position `i` on. */
  function SearchFrom(s: string, p: Pattern, i: nat): (g: Option<string>)
    requires i <= |s|
    ensures g.Some? ==> g.value != []
    decreases |s| - i
  {
    match KeywordGroup(s, i, p.keywords, p.tail)
    case Some(g) => Some(g)
    case None => if i == |s| then None else SearchFrom(s, p, i + 1)
  }

  /** One step of the search: with no keyword group at `i`, the search goes on from `i + 1`. */
  lemma SearchStep(s: string, p: Pattern, i: nat)
    requires i <= |s|
    requires KeywordGroup(s, i, p.keywords, p.tail).None?
    ensures i == |s| ==> SearchFrom(s, p, i).None?
    ensures i < |s| ==> SearchFrom(s, p, i) == SearchFrom(s, p, i + 1)
  {
  }

  /** The search returns the group at the leftmost position where there is one. */
  lemma {:induction false} SearchFromFirst(s: string, p: Pattern, i: nat, j: nat)
    requires i <= j <= |s|
    requires forall t :: i <= t < j ==> KeywordGroup(s, t, p.keywords, p.tail).None?
    requires KeywordGroup(s, j, p.keywords, p.tail).Some?
    ensures SearchFrom(s, p, i) == KeywordGroup(s, j, p.keywords, p.tail)
    decreases j - i
  {
    if i < j {
      SearchSkip(s, p, i, j);
      SearchFromFirst(s, p, i + 1, j);
    } else {
      SearchHit(s, p, i);
    }
  }

  /** Before the first position with a group, the search moves on. */
  lemma SearchSkip(s: string, p: Pattern, i: nat, j: nat)
    requires i < j <= |s|
    requires forall t :: i <= t < j ==> KeywordGroup(s, t, p.keywords, p.tail).None?
    ensures SearchFrom(s, p, i) == SearchFrom(s, p, i + 1)
  {
    SearchStep(s, p, i);
  }

  /** A group at `i` is the result of the search from `i`. */
  lemma SearchHit(s: string, p: Pattern, i: nat)
    requires i <= |s|
    requires KeywordGroup(s, i, p.keywords, p.tail).Some?
    ensures SearchFrom(s, p, i) == KeywordGroup(s, i, p.keywords, p.tail)
  {
  }

  /** A result of the search is the group at some position from `i` on. */
  lemma {:induction false} SearchFromFound(s: string, p: Pattern, i: nat) returns (j: nat)
    requires i <= |s|
    requires SearchFrom(s, p, i).Some?
    ensures i <= j <= |s| && SearchFrom(s, p, i) == KeywordGroup(s, j, p.keywords, p.tail)
    decreases |s| - i
  {
    if KeywordGroup(s, i, p.keywords, p.tail).Some? {
      SearchHit(s, p, i);
      j := i;
    } else {
      SearchStep(s, p, i);
      j := SearchFromFound(s, p, i + 1);
    }
  }

  lemma SearchShape(s: string, p: Pattern)
    ensures Search(s, p).Some? ==> GroupShape(Search(s, p).value, p.tail)
  {
    if Search(s, p).Some? {
      var j := SearchFromFound(s, p, 0);
      KeywordGroupShape(s, j, p.keywords, p.tail);
    }
  }

  /** The search finds nothing when there is a group at no position. */
  lemma {:induction false} SearchFromNone(s: string, p: Pattern, i: nat)
    requires i <= |s|
    requires forall t :: i <= t <= |s| ==> KeywordGroup(s, t, p.keywords, p.tail).None?
    ensures SearchFrom(s, p, i).None?
    decreases |s| - i
  {
    SearchStep(s, p, i);
    if i < |s| {
      SearchFromNone(s, p, i + 1);
    }
  }

  function Search(s: string, p: Pattern): (g: Option<string>)
    ensures g.Some? ==> g.value != []
  {
    SearchFrom(s, p, 0)
  }

  /** `password.strip().strip('*').strip('`').strip('"').strip("'")`. */
  function CleanPassword(g: string): (r: string)
    ensures |r| <= |g|
    ensures r == [] || (r[0] != '\'' && r[|r| - 1] != '\'')
  {
    StripChar(StripChar(StripChar(StripChar(Strip(g), '*'), '`'), '"'), '\'')
  }

  /**
   * The password from the patterns `PasswordPatterns[from..]`: the first
   * pattern whose cleaned group has at least 8 characters gives it.
   */
  function FromPatterns(text: string, from: nat): (p: Option<string>)
    requires from <= |PasswordPatterns|
    ensures p.Some? ==> |p.value| >= 8
    decreases |PasswordPatterns| - from
  {
    if from == |PasswordPatterns| then None
    else
      match Search(text, PasswordPatterns[from])
      case Some(g) =>
        var candidate := CleanPassword(g);
        if |candidate| >= 8 then Some(candidate) else FromPatterns(text, from + 1)
      case None => FromPatterns(text, from + 1)
  }

  /** Pattern `k` finds a group that, cleaned, has at least 8 characters. */
  predicate PatternYields(text: string, k: nat)
    requires k < |PasswordPatterns|
  {
    var g := Search(text, PasswordPatterns[k]);
    g.Some? && |CleanPassword(g.value)| >= 8
  }

  /**
   * The patterns are tried in order and the first one that yields wins: a
   * group that is too short is dropped and the next pattern is tried.
   */
  lemma {:induction false} FromPatternsFirst(text: string, from: nat, k: nat)
    requires from <= k < |PasswordPatterns|
    requires PatternYields(text, k)
    requires forall t :: from <= t < k ==> !PatternYields(text, t)
    ensures FromPatterns(text, from) == Some(CleanPassword(Search(text, PasswordPatterns[k]).value))
    decreases k - from
  {
    FromPatternsStep(text, from);
    if from < k {
      FromPatternsFirst(text, from + 1, k);
    }
  }

  /** One step: pattern `from` gives the password when it yields, otherwise the next patterns are tried. */
  lemma FromPatternsStep(text: string, from: nat)
    requires from < |PasswordPatterns|
    ensures PatternYields(text, from) ==> FromPatterns(text, from) == Some(CleanPassword(Search(text, PasswordPatterns[from]).value))
    ensures !PatternYields(text, from) ==> FromPatterns(text, from) == FromPatterns(text, from + 1)
  {
  }

  /** No password comes from the patterns exactly when no pattern yields one. */
  lemma {:induction false} FromPatternsNone(text: string, from: nat)
    requires from <= |PasswordPatterns|
    ensures FromPatterns(text, from).None? <==> forall t :: from <= t < |PasswordPatterns| ==> !PatternYields(text, t)
    decreases |PasswordPatterns| - from
  {
    if from < |PasswordPatterns| {
      FromPatternsNoneStep(text, from);
      FromPatternsNone(text, from + 1);
    }
  }

  lemma FromPatternsNoneStep(text: string, from: nat)
    requires from < |PasswordPatterns|
    ensures FromPatterns(text, from).None? <==> !PatternYields(text, from) && FromPatterns(text, from + 1).None?
  {
    FromPatternsStep(text, from);
  }

  /** `re.match(r'^[a-zA-Z0-9\-_]{10,}$', s)`: `s` looks like an app password. */
  predicate AppPassword(s: string) {
    |s| >= 10 && forall i :: 0 <= i < |s| ==> TokenChar(s[i])
  }

  /** `part.strip().strip(':').strip('-').strip()`. */
  function CleanPart(part: string): (r: string)
    ensures |r| <= |part|
    ensures Strip(r) == r
  {
    var inner := StripChar(StripChar(Strip(part), ':'), '-');
    StripIdempotent(inner);
    Strip(inner)
  }

  /** The position, from `from` on, of the first piece around the address that, cleaned, looks like an app password. */
  function FirstAppPart(parts: seq<string>, from: nat): (k: Option<nat>)
    requires from <= |parts|
    ensures k.Some? ==> from <= k.value < |parts| && AppPassword(CleanPart(parts[k.value]))
    decreases |parts| - from
  {
    if from == |parts| then None
    else if AppPassword(CleanPart(parts[from])) then Some(from)
    else FirstAppPart(parts, from + 1)
  }

  /** One step of the scan: a matching piece at `from` is the result, otherwise the scan goes on from `from + 1`. */
  lemma FirstAppPartStep(parts: seq<string>, from: nat)
    requires from < |parts|
    ensures AppPassword(CleanPart(parts[from])) ==> FirstAppPart(parts, from) == Some(from)
    ensures !AppPassword(CleanPart(parts[from])) ==> FirstAppPart(parts, from) == FirstAppPart(parts, from + 1)
  {
  }

  /**
   * The scan finds the first matching piece: no piece `j` from `from` on
   * matches when it lies before the piece found, or when nothing is found.
   */
  lemma {:induction false} FirstAppPartLeftmost(parts: seq<string>, from: nat, j: nat)
    requires from <= j < |parts|
    requires FirstAppPart(parts, from).Some? ==> j < FirstAppPart(parts, from).value
    ensures !AppPassword(CleanPart(parts[j]))
    decreases j - from
  {
    if from < j {
      FirstAppPartSkip(parts, from, j);
      FirstAppPartLeftmost(parts, from + 1, j);
    } else {
      FirstAppPartStep(parts, from);
    }
  }

  /** A scan whose result lies beyond `j > from` skips the piece at `from`. */
  lemma FirstAppPartSkip(parts: seq<string>, from: nat, j: nat)
    requires from < j < |parts|
    requires FirstAppPart(parts, from).Some? ==> j < FirstAppPart(parts, from).value
    ensures FirstAppPart(parts, from + 1) == FirstAppPart(parts, from)
  {
    FirstAppPartStep(parts, from);
  }

  /** The password found among the pieces of the message around the address. */
  function FromParts(parts: seq<string>): (p: Option<string>)
    ensures p.Some? ==> AppPassword(p.value)
  {
    match FirstAppPart(parts, 0)
    case Some(k) => Some(CleanPart(parts[k]))
    case None => None
  }

  /** The text of a matched address. */
  function EmailText(text: string, m: EmailSpan): string
    requires EmailAt(text, m)
  {
    text[m.start..m.end]
  }

  /**
   * The password of a stripped message in which the address search gave `m`:
   * from the patterns, else from the pieces around the address, else the
   * whole message when there is no address and it looks like an app password.
   */
  function PasswordIn(text: string, m: Option<EmailSpan>): (p: Option<string>)
    requires m.Some? ==> EmailAt(text, m.value)
    ensures p.Some? ==> |p.value| >= 8
    ensures FromPatterns(text, 0).Some? ==> p == FromPatterns(text, 0)
    ensures FromPatterns(text, 0).None? && m.Some? ==> p == FromParts(Split(text, EmailText(text, m.value)))
    ensures FromPatterns(text, 0).None? && m.None? ==> (p.Some? <==> AppPassword(text)) && (p.Some? ==> p.value == text)
  {
    match FromPatterns(text, 0)
    case Some(p) => Some(p)
    case None =>
      if m.Some? then FromParts(Split(text, EmailText(text, m.value)))
      else if AppPassword(text) then Some(text)
      else None
  }

  /** `extract_credentials_from_text`: the address (in lower case) and the password found in a message. */
  function Extract(raw: string): (r: (Option<string>, Option<string>))
    ensures r.1.Some? ==> |r.1.value| >= 8
    ensures var text := Strip(raw); var m := EmailSearch(text);
      && (r.0.Some? <==> m.Some?)
      && (FromPatterns(text, 0).Some? ==> r.1 == FromPatterns(text, 0))
      && (FromPatterns(text, 0).None? && m.Some? ==> r.1 == FromParts(Split(text, EmailText(text, m.value))))
      && (FromPatterns(text, 0).None? && m.None? ==> (r.1.Some? <==> AppPassword(text)) && (r.1.Some? ==> r.1.value == text))
  {
    var text := Strip(raw);
    var m := EmailSearch(text);
    (if m.Some? then Some(LowerAsciiString(EmailText(text, m.value))) else None, PasswordIn(text, m))
  }

  /** `Strip` and `StripChar` only remove characters, so they keep a string free of whitespace. */
  lemma NoSpaceTrim(s: string, c: char)
    requires NoSpace(s)
    ensures NoSpace(StripChar(s, c))
  {
    var a := TrimStart(s, Only(c));
    var r := TrimEnd(a, Only(c));
    TrimStartShape(s, Only(c));
    TrimEndShape(a, Only(c));
    assert forall i :: 0 <= i < |a| ==> a[i] == s[|s| - |a| + i];
    assert forall i :: 0 <= i < |r| ==> r[i] == a[i];
  }

  lemma NoSpaceStrip(s: string)
    requires NoSpace(s)
    ensures Strip(s) == s
  {
    StripUnchanged(s);
  }

  lemma NoSpaceClean(g: string)
    requires NoSpace(g)
    ensures NoSpace(CleanPassword(g))
  {
    NoSpaceStrip(g);
    var a := StripChar(g, '*');
    NoSpaceTrim(g, '*');
    var b := StripChar(a, '`');
    NoSpaceTrim(a, '`');
    var c := StripChar(b, '"');
    NoSpaceTrim(b, '"');
    NoSpaceTrim(c, '\'');
  }

  /** A password taken from a pattern never contains whitespace. */
  lemma {:induction false} FromPatternsNoSpace(text: string, from: nat)
    requires from <= |PasswordPatterns|
    ensures FromPatterns(text, from).Some? ==> NoSpace(FromPatterns(text, from).value)
    decreases |PasswordPatterns| - from
  {
    if from < |PasswordPatterns| {
      match Search(text, PasswordPatterns[from])
      case Some(g) =>
        SearchShape(text, PasswordPatterns[from]);
        NoSpaceClean(g);
        FromPatternsNoSpace(text, from + 1);
      case None =>
        FromPatternsNoSpace(text, from + 1);
    }
  }

  /**
   * A password is at least 8 characters long and never contains whitespace;
   * an address is a well-formed match in the stripped message, in lower case.
   */
  lemma ExtractShape(raw: string)
    ensures var (email, password) := Extract(raw);
      && (password.Some? ==> |password.value| >= 8 && NoSpace(password.value))
      && (email.Some? <==> EmailSearch(Strip(raw)).Some?)
      && (email.Some? ==> var m := EmailSearch(Strip(raw)).value;
            && EmailAt(Strip(raw), m)
            && email.value == LowerAsciiString(Strip(raw)[m.start..m.end])
            && forall i :: 0 <= i < |email.value| ==> !('A' <= email.value[i] <= 'Z'))
  {
    var text := Strip(raw);
    var m := EmailSearch(text);
    PasswordInNoSpace(text, m);
    if m.Some? {
      var e := LowerAsciiString(EmailText(text, m.value));
      forall i | 0 <= i < |e| ensures !('A' <= e[i] <= 'Z') {
        assert e[i] == LowerAscii(text[m.value.start..m.value.end][i]);
      }
    }
  }

  /** A password found in a message never contains whitespace. */
  lemma PasswordInNoSpace(text: string, m: Option<EmailSpan>)
    requires m.Some? ==> EmailAt(text, m.value)
    ensures PasswordIn(text, m).Some? ==> NoSpace(PasswordIn(text, m).value)
  {
    FromPatternsNoSpace(text, 0);
    if PasswordIn(text, m).Some? && FromPatterns(text, 0).None? {
      assert AppPassword(PasswordIn(text, m).value);
    }
  }

  /** A message made only of letters, digits, `-` and `_` contains no keyword followed by a password. */
  lemma {:induction false} NoKeywordInToken(s: string, p: Pattern, i: nat)
    requires p in PasswordPatterns
    requires i <= |s|
    requires forall j :: 0 <= j < |s| ==> TokenChar(s[j])
    ensures SearchFrom(s, p, i).None?
    decreases |s| - i
  {
    NoGroupAt(s, p, i);
    SearchStep(s, p, i);
    if i < |s| {
      NoKeywordInToken(s, p, i + 1);
    }
  }

  lemma NoGroupAt(s: string, p: Pattern, i: nat)
    requires p in PasswordPatterns
    requires i <= |s|
    requires forall j :: 0 <= j < |s| ==> TokenChar(s[j])
    ensures KeywordGroup(s, i, p.keywords, p.tail).None?
  {
    forall t | 0 <= t < |p.keywords| ensures !AltMatches(s, i, p.keywords[t], p.tail) {
      NoAltInToken(s, i, p.keywords[t], p);
    }
    KeywordGroupNone(s, i, p.keywords, p.tail);
  }

  lemma NoAltInToken(s: string, i: nat, kw: string, p: Pattern)
    requires p in PasswordPatterns && kw in p.keywords
    requires i <= |s|
    requires forall j :: 0 <= j < |s| ==> TokenChar(s[j])
    ensures !AltMatches(s, i, kw, p.tail)
  {
    if kw[0] == 'p' {
      // "password" and "pass" need a separator after them, and there is none
      if KeywordAt(s, i, kw) {
        assert p.tail == SepThenWord;
        assert i + |kw| == |s| || !SepChar(s[i + |kw|]);
      }
    } else {
      // every other keyword starts with a character that is not a letter, digit, `-` or `_`
      assert !TokenChar(kw[0]) && !TokenChar(Upper(kw[0]));
      assert !KeywordAt(s, i, kw) by {
        if i < |s| {
          assert TokenChar(s[i]);
        }
      }
    }
  }

  /**
   * A message that is only an app password (after stripping) is read as that
   * password and no address; and without an address or a keyword the whole
   * message is a password only when it looks like one.
   */
  lemma BareAppPassword(raw: string)
    requires forall j :: 0 <= j < |Strip(raw)| ==> TokenChar(Strip(raw)[j])
    ensures Extract(raw) == (None, if |Strip(raw)| >= 10 then Some(Strip(raw)) else None)
  {
    var text := Strip(raw);
    assert forall k :: 0 <= k < |text| ==> text[k] != '@';
    forall j | 0 <= j <= |text|
      ensures EmailMatchAt(text, j).None?
    {
    }
    assert EmailSearch(text).None?;
    forall p | p in PasswordPatterns
      ensures Search(text, p).None?
    {
      NoKeywordInToken(text, p, 0);
    }
    var ps := PasswordPatterns;
    assert Search(text, ps[0]).None? && Search(text, ps[1]).None? && Search(text, ps[2]).None?;
    assert FromPatterns(text, 2).None?;
    assert FromPatterns(text, 0).None?;
  }

  /** The loop over the password patterns: the first one that yields a long enough password wins. */
  method PasswordFromPatterns(text: string) returns (password: Option<string>)
    ensures password == FromPatterns(text, 0)
  {
    password := None;
    var i := 0;
    while i < |PasswordPatterns| && password.None?
      invariant 0 <= i <= |PasswordPatterns|
      invariant password.None? ==> FromPatterns(text, 0) == FromPatterns(text, i)
      invariant password.Some? ==> password == FromPatterns(text, 0)
    {
      var found := Search(text, PasswordPatterns[i]);
      if found.Some? {
        var candidate := CleanPassword(found.value);
        if |candidate| >= 8 {
          password := Some(candidate);
        }
      }
      i := i + 1;
    }
  }

  /** The loop over the pieces around the address: the first one that, cleaned, looks like an app password wins. */
  method PasswordFromParts(parts: seq<string>) returns (password: Option<string>)
    ensures password == FromParts(parts)
  {
    password := None;
    var j := 0;
    while j < |parts| && password.None?
      invariant 0 <= j <= |parts|
      invariant password.None? ==> FirstAppPart(parts, 0) == FirstAppPart(parts, j)
      invariant password.Some? ==> password == FromParts(parts)
    {
      var part := CleanPart(parts[j]);
      if AppPassword(part) {
        password := Some(part);
      }
      j := j + 1;
    }
  }

  /** The credential parser of the chat handler. */
  method ExtractCredentials(raw: string) returns (email: Option<string>, password: Option<string>)
    ensures (email, password) == Extract(raw)
  {
    var text := Strip(raw);
    var emailMatch := EmailSearch(text);
    email := if emailMatch.Some? then Some(LowerAsciiString(EmailText(text, emailMatch.value))) else None;
    password := PasswordFromPatterns(text);
    assert password.Some? ==> password == PasswordIn(text, emailMatch);
    if password.None? {
      if emailMatch.Some? {
        password := PasswordFromParts(Split(text, EmailText(text, emailMatch.value)));
      } else if AppPassword(text) {
        password := Some(text);
      }
    }
  }
}
