/**
 The three regular expressions the analyzer applies to a line, each written
 as a leftmost search against a declarative description of what the pattern
 matches at one index:

   /function\s+(\w+)/               the name in a function declaration
   /console\.log\(['"](.+?)['"]\)/  the message of a console.log call
   /await\s+(\w+)\(/                the callee of an await

 `String.prototype.match` without the `g` flag reports the match at the
 smallest index where one exists; `\w+` is greedy and `.+?` is lazy (the
 shortest capture that lets the rest of the pattern match).
 */
module Patterns {
  import opened Wrappers
  import opened Text

  /** Where a match was found: it starts at `at`, `gap` characters of
      white space or of opening syntax come before the capture, and the
      capture is `len` characters long. */
  datatype Hit = Hit(at: nat, gap: nat, len: nat)

  predicate AllSpace(s: string, i: int, j: int)
    requires 0 <= i <= j <= |s|
  {
    forall k :: i <= k < j ==> IsWhiteSpace(s[k])
  }

  predicate AllWord(s: string, i: int, j: int)
    requires 0 <= i <= j <= |s|
  {
    forall k :: i <= k < j ==> IsWordChar(s[k])
  }

  predicate NoTerminator(s: string, i: int, j: int)
    requires 0 <= i <= j <= |s|
  {
    forall k :: i <= k < j ==> !IsLineTerminator(s[k])
  }

  predicate IsQuote(c: char)
  {
    c == '\'' || c == '"'
  }

  /** Length of the longest run of white space starting at `i`. */
  function SpaceRun(s: string, i: nat): (n: nat)
    requires i <= |s|
    ensures i + n <= |s| && AllSpace(s, i, i + n)
    ensures i + n == |s| || !IsWhiteSpace(s[i + n])
    decreases |s| - i
  {
    if i == |s| || !IsWhiteSpace(s[i]) then 0 else 1 + SpaceRun(s, i + 1)
  }

  /** Length of the longest run of word characters starting at `i`. */
  function WordRun(s: string, i: nat): (n: nat)
    requires i <= |s|
    ensures i + n <= |s| && AllWord(s, i, i + n)
    ensures i + n == |s| || !IsWordChar(s[i + n])
    decreases |s| - i
  {
    if i == |s| || !IsWordChar(s[i]) then 0 else 1 + WordRun(s, i + 1)
  }

  /** A run of white space that stops before a non-space is the longest one. */
  lemma SpaceRunExact(s: string, i: nat, n: nat)
    requires i + n <= |s| && AllSpace(s, i, i + n)
    requires i + n == |s| || !IsWhiteSpace(s[i + n])
    ensures SpaceRun(s, i) == n
  {
  }

  /** A run of word characters that stops before a non-word character is the
      longest one. */
  lemma WordRunExact(s: string, i: nat, n: nat)
    requires i + n <= |s| && AllWord(s, i, i + n)
    requires i + n == |s| || !IsWordChar(s[i + n])
    ensures WordRun(s, i) == n
  {
  }

  /** The substring a hit captures, `gap` characters after `offset` more
      than its start. */
  function Captured(s: string, h: Hit, offset: nat): string
    requires h.at + offset + h.gap + h.len <= |s|
  {
    s[h.at + offset + h.gap..h.at + offset + h.gap + h.len]
  }

  // ---------------------------------------------------------------------
  // /function\s+(\w+)/

  /** The match `/function\s+(\w+)/` reports at index `i`: the word
      `function`, `gap >= 1` white-space characters, and a greedy capture of
      `len >= 1` word characters. */
  predicate DeclAt(s: string, i: int, gap: int, len: int)
  {
    && OccursAt(s, "function", i)
    && 1 <= gap && 1 <= len && i + 8 + gap + len <= |s|
    && AllSpace(s, i + 8, i + 8 + gap)
    && AllWord(s, i + 8 + gap, i + 8 + gap + len)
    && (i + 8 + gap + len == |s| || !IsWordChar(s[i + 8 + gap + len]))
  }

  /** At one index the pattern has at most one match. */
  lemma DeclUnique(s: string, i: int, g1: int, n1: int, g2: int, n2: int)
    requires DeclAt(s, i, g1, n1) && DeclAt(s, i, g2, n2)
    ensures g1 == g2 && n1 == n2
  {
    SpaceRunExact(s, i + 8, g1);
    SpaceRunExact(s, i + 8, g2);
    WordRunExact(s, i + 8 + g1, n1);
    WordRunExact(s, i + 8 + g2, n2);
  }

  /** The match test `FindDecl` performs at `from`, on the longest runs. */
  predicate DeclHere(s: string, from: nat)
    requires from + 8 <= |s|
  {
    var g := SpaceRun(s, from + 8);
    OccursAt(s, "function", from) && g >= 1 && WordRun(s, from + 8 + g) >= 1
  }

  /** A match at `from` is made of the longest runs, so the test `FindDecl`
      performs there succeeds. */
  lemma DeclHereAt(s: string, from: nat, g: int, n: int)
    requires DeclAt(s, from, g, n)
    ensures from + 8 <= |s| && DeclHere(s, from)
  {
    SpaceRunExact(s, from + 8, g);
  }

  /** The leftmost match of `/function\s+(\w+)/` at or after `from`: the
      first index where the longest runs form one. */
  function FindDecl(s: string, from: nat): Option<Hit>
    requires from <= |s|
    decreases |s| - from
  {
    if from + 8 > |s| then None
    else if DeclHere(s, from) then
      var g := SpaceRun(s, from + 8);
      Some(Hit(from, g, WordRun(s, from + 8 + g)))
    else FindDecl(s, from + 1)
  }

  /** What `FindDecl` reports is a match, at or after `from`. */
  lemma {:induction false} FindDeclSound(s: string, from: nat)
    requires from <= |s|
    ensures var r := FindDecl(s, from);
      r.Some? ==> from <= r.value.at && DeclAt(s, r.value.at, r.value.gap, r.value.len)
    decreases |s| - from
  {
    if from + 8 <= |s| && !DeclHere(s, from) {
      FindDeclSound(s, from + 1);
    }
  }

  /** No match at or after `from` comes before the one `FindDecl` reports. */
  lemma {:induction false} FindDeclLeftmost(s: string, from: nat, j: int, g: int, n: int)
    requires from <= |s| && from <= j && DeclAt(s, j, g, n)
    ensures FindDecl(s, from).Some? && FindDecl(s, from).value.at <= j
    decreases |s| - from
  {
    if !DeclHere(s, from) {
      if j == from {
        DeclHereAt(s, from, g, n);
      } else {
        FindDeclLeftmost(s, from + 1, j, g, n);
      }
    }
  }

  /** `match[1]` of `line.match(/function\s+(\w+)/)`, or `None` when the
      line does not match. */
  function DeclName(line: string): Option<string>
  {
    match FindDecl(line, 0)
    case None => None
    case Some(h) =>
      FindDeclSound(line, 0);
      Some(Captured(line, h, 8))
  }

  /** The name is `None` exactly when the pattern matches nowhere; otherwise
      it is the non-empty run of word characters captured by the leftmost
      match. */
  lemma DeclNameMatches(line: string)
    ensures DeclName(line).None? <==> forall i, g, n :: !DeclAt(line, i, g, n)
    ensures DeclName(line).Some? ==>
      exists i, g :: DeclAt(line, i, g, |DeclName(line).value|)
        && DeclName(line).value == line[i + 8 + g..i + 8 + g + |DeclName(line).value|]
        && forall j, g', n' :: 0 <= j < i ==> !DeclAt(line, j, g', n')
  {
    FindDeclSound(line, 0);
    forall i, g, n | DeclAt(line, i, g, n)
      ensures FindDecl(line, 0).Some? && FindDecl(line, 0).value.at <= i
    {
      FindDeclLeftmost(line, 0, i, g, n);
    }
    if FindDecl(line, 0).Some? {
      var h := FindDecl(line, 0).value;
      var c := Captured(line, h, 8);
      assert DeclName(line) == Some(c) && |c| == h.len;
      assert forall j, g', n' :: 0 <= j < h.at ==> !DeclAt(line, j, g', n');
      assert DeclAt(line, h.at, h.gap, |c|) && c == line[h.at + 8 + h.gap..h.at + 8 + h.gap + |c|];
    }
  }

  // ---------------------------------------------------------------------
  // /console\.log\(['"](.+?)['"]\)/

  /** `/console\.log\(['"](.+?)['"]\)/` can match at index `i` with a
      capture of `len` characters: `console.log(`, a quote, `len >= 1`
      characters none of which ends a line, a quote and `)`. */
  predicate LogAt(s: string, i: int, len: int)
  {
    && OccursAt(s, "console.log(", i)
    && 1 <= len && i + 15 + len <= |s|
    && IsQuote(s[i + 12])
    && NoTerminator(s, i + 13, i + 13 + len)
    && IsQuote(s[i + 13 + len])
    && s[i + 14 + len] == ')'
  }

  /** The opening of a log call at `i`: `console.log(` and a quote. */
  predicate LogOpens(s: string, i: nat)
  {
    OccursAt(s, "console.log(", i) && i + 12 < |s| && IsQuote(s[i + 12])
  }

  /** The shortest capture of at least `len` characters that completes a
      match at `i`, given that the first `len - 1` captured characters are
      already known not to end a line. */
  function LazyLog(s: string, i: nat, len: nat): Option<nat>
    requires LogOpens(s, i)
    requires 1 <= len && i + 12 + len <= |s| && NoTerminator(s, i + 13, i + 12 + len)
    decreases |s| - len
  {
    if i + 13 + len > |s| || IsLineTerminator(s[i + 12 + len]) then None
    else if i + 15 + len <= |s| && IsQuote(s[i + 13 + len]) && s[i + 14 + len] == ')' then Some(len)
    else LazyLog(s, i, len + 1)
  }

  /** What `LazyLog` reports completes a match. */
  lemma {:induction false} LazyLogSound(s: string, i: nat, len: nat)
    requires LogOpens(s, i)
    requires 1 <= len && i + 12 + len <= |s| && NoTerminator(s, i + 13, i + 12 + len)
    ensures var r := LazyLog(s, i, len); r.Some? ==> len <= r.value && LogAt(s, i, r.value)
    decreases |s| - len
  {
    if i + 13 + len <= |s| && !IsLineTerminator(s[i + 12 + len])
      && !(i + 15 + len <= |s| && IsQuote(s[i + 13 + len]) && s[i + 14 + len] == ')')
    {
      LazyLogSound(s, i, len + 1);
    }
  }

  /** No capture of at least `len` characters that completes a match is
      shorter than the one `LazyLog` reports. */
  lemma {:induction false} LazyLogShortest(s: string, i: nat, len: nat, k: int)
    requires LogOpens(s, i)
    requires 1 <= len && i + 12 + len <= |s| && NoTerminator(s, i + 13, i + 12 + len)
    requires len <= k && LogAt(s, i, k)
    ensures LazyLog(s, i, len).Some? && LazyLog(s, i, len).value <= k
    decreases |s| - len
  {
    assert !IsLineTerminator(s[i + 12 + len]);
    if !(i + 15 + len <= |s| && IsQuote(s[i + 13 + len]) && s[i + 14 + len] == ')') {
      LazyLogShortest(s, i, len + 1, k);
    }
  }

  /** The leftmost index at or after `from` where the log pattern matches,
      with the shortest capture at that index. */
  function FindLog(s: string, from: nat): Option<Hit>
    requires from <= |s|
    decreases |s| - from
  {
    if from + 13 > |s| then None
    else
      var lazy := if LogOpens(s, from) then LazyLog(s, from, 1) else None;
      if lazy.Some? then Some(Hit(from, 1, lazy.value))
      else FindLog(s, from + 1)
  }

  /** What `FindLog` reports is a match with the shortest capture at its
      index, at or after `from`. */
  lemma {:induction false} FindLogSound(s: string, from: nat)
    requires from <= |s|
    ensures var r := FindLog(s, from);
      r.Some? ==> && from <= r.value.at && r.value.gap == 1 && LogAt(s, r.value.at, r.value.len)
                  && forall k :: LogAt(s, r.value.at, k) ==> r.value.len <= k
    decreases |s| - from
  {
    if from + 13 <= |s| {
      if LogOpens(s, from) && LazyLog(s, from, 1).Some? {
        LazyLogSound(s, from, 1);
        forall k | LogAt(s, from, k) ensures LazyLog(s, from, 1).value <= k {
          LazyLogShortest(s, from, 1, k);
        }
      } else {
        FindLogSound(s, from + 1);
      }
    }
  }

  /** No match at or after `from` comes before the one `FindLog` reports. */
  lemma {:induction false} FindLogLeftmost(s: string, from: nat, j: int, k: int)
    requires from <= |s| && from <= j && LogAt(s, j, k)
    ensures FindLog(s, from).Some? && FindLog(s, from).value.at <= j
    decreases |s| - from
  {
    if !(LogOpens(s, from) && LazyLog(s, from, 1).Some?) {
      if j == from {
        LazyLogShortest(s, from, 1, k);
      } else {
        FindLogLeftmost(s, from + 1, j, k);
      }
    }
  }

  /** `match[1]` of `line.match(/console\.log\(['"](.+?)['"]\)/)`, or
      `None`. */
  function LogMessage(line: string): Option<string>
  {
    match FindLog(line, 0)
    case None => None
    case Some(h) =>
      FindLogSound(line, 0);
      Some(Captured(line, h, 12))
  }

  /** The message is `None` exactly when the pattern matches nowhere;
      otherwise it is the shortest non-empty capture at the leftmost index
      where the pattern matches. */
  lemma LogMessageMatches(line: string)
    ensures LogMessage(line).None? <==> forall i, k :: !LogAt(line, i, k)
    ensures LogMessage(line).Some? ==>
      exists i :: LogAt(line, i, |LogMessage(line).value|)
        && LogMessage(line).value == line[i + 13..i + 13 + |LogMessage(line).value|]
        && (forall k :: LogAt(line, i, k) ==> |LogMessage(line).value| <= k)
        && forall j, k :: 0 <= j < i ==> !LogAt(line, j, k)
  {
    FindLogSound(line, 0);
    forall i, k | LogAt(line, i, k)
      ensures FindLog(line, 0).Some? && FindLog(line, 0).value.at <= i
    {
      FindLogLeftmost(line, 0, i, k);
    }
    if FindLog(line, 0).Some? {
      var h := FindLog(line, 0).value;
      var c := Captured(line, h, 12);
      assert LogMessage(line) == Some(c) && |c| == h.len;
      assert forall j, k :: 0 <= j < h.at ==> !LogAt(line, j, k);
      assert LogAt(line, h.at, |c|) && c == line[h.at + 13..h.at + 13 + |c|];
    }
  }

  // ---------------------------------------------------------------------
  // /await\s+(\w+)\(/

  /** `/await\s+(\w+)\(/` matches at index `i`: the word `await`,
      `gap >= 1` white-space characters, `len >= 1` word characters and an
      opening parenthesis. */
  predicate AwaitAt(s: string, i: int, gap: int, len: int)
  {
    && OccursAt(s, "await", i)
    && 1 <= gap && 1 <= len && i + 6 + gap + len <= |s|
    && AllSpace(s, i + 5, i + 5 + gap)
    && AllWord(s, i + 5 + gap, i + 5 + gap + len)
    && s[i + 5 + gap + len] == '('
  }

  /** At one index the pattern has at most one match. */
  lemma AwaitUnique(s: string, i: int, g1: int, n1: int, g2: int, n2: int)
    requires AwaitAt(s, i, g1, n1) && AwaitAt(s, i, g2, n2)
    ensures g1 == g2 && n1 == n2
  {
    SpaceRunExact(s, i + 5, g1);
    SpaceRunExact(s, i + 5, g2);
    WordRunExact(s, i + 5 + g1, n1);
    WordRunExact(s, i + 5 + g2, n2);
  }

  /** The match test `FindAwait` performs at `from`, on the longest runs. */
  predicate AwaitHere(s: string, from: nat)
    requires from + 5 <= |s|
  {
    var g := SpaceRun(s, from + 5);
    var n := WordRun(s, from + 5 + g);
    OccursAt(s, "await", from) && g >= 1 && n >= 1 && from + 5 + g + n < |s| && s[from + 5 + g + n] == '('
  }

  /** A match at `from` is made of the longest runs, so the test
      `FindAwait` performs there succeeds. */
  lemma AwaitHereAt(s: string, from: nat, g: int, n: int)
    requires AwaitAt(s, from, g, n)
    ensures from + 5 <= |s| && AwaitHere(s, from)
  {
    SpaceRunExact(s, from + 5, g);
    WordRunExact(s, from + 5 + g, n);
  }

  /** The leftmost match of `/await\s+(\w+)\(/` at or after `from`. */
  function FindAwait(s: string, from: nat): Option<Hit>
    requires from <= |s|
    decreases |s| - from
  {
    if from + 5 > |s| then None
    else if AwaitHere(s, from) then
      var g := SpaceRun(s, from + 5);
      Some(Hit(from, g, WordRun(s, from + 5 + g)))
    else FindAwait(s, from + 1)
  }

  /** What `FindAwait` reports is a match, at or after `from`. */
  lemma {:induction false} FindAwaitSound(s: string, from: nat)
    requires from <= |s|
    ensures var r := FindAwait(s, from);
      r.Some? ==> from <= r.value.at && AwaitAt(s, r.value.at, r.value.gap, r.value.len)
    decreases |s| - from
  {
    if from + 5 <= |s| && !AwaitHere(s, from) {
      FindAwaitSound(s, from + 1);
    }
  }

  /** No match at or after `from` comes before the one `FindAwait` reports. */
  lemma {:induction false} FindAwaitLeftmost(s: string, from: nat, j: int, g: int, n: int)
    requires from <= |s| && from <= j && AwaitAt(s, j, g, n)
    ensures FindAwait(s, from).Some? && FindAwait(s, from).value.at <= j
    decreases |s| - from
  {
    if !AwaitHere(s, from) {
      if j == from {
        AwaitHereAt(s, from, g, n);
      } else {
        FindAwaitLeftmost(s, from + 1, j, g, n);
      }
    }
  }

  /** `match[1]` of `line.match(/await\s+(\w+)\(/)`, or `None`. */
  function AwaitCallee(line: string): Option<string>
  {
    match FindAwait(line, 0)
    case None => None
    case Some(h) =>
      FindAwaitSound(line, 0);
      Some(Captured(line, h, 5))
  }

  /** The callee is `None` exactly when the pattern matches nowhere;
      otherwise it is the run of word characters captured by the leftmost
      match. */
  lemma AwaitCalleeMatches(line: string)
    ensures AwaitCallee(line).None? <==> forall i, g, n :: !AwaitAt(line, i, g, n)
    ensures AwaitCallee(line).Some? ==>
      exists i, g :: AwaitAt(line, i, g, |AwaitCallee(line).value|)
        && AwaitCallee(line).value == line[i + 5 + g..i + 5 + g + |AwaitCallee(line).value|]
        && forall j, g', n' :: 0 <= j < i ==> !AwaitAt(line, j, g', n')
  {
    FindAwaitSound(line, 0);
    forall i, g, n | AwaitAt(line, i, g, n)
      ensures FindAwait(line, 0).Some? && FindAwait(line, 0).value.at <= i
    {
      FindAwaitLeftmost(line, 0, i, g, n);
    }
    if FindAwait(line, 0).Some? {
      var h := FindAwait(line, 0).value;
      var c := Captured(line, h, 5);
      assert AwaitCallee(line) == Some(c) && |c| == h.len;
      assert forall j, g', n' :: 0 <= j < h.at ==> !AwaitAt(line, j, g', n');
      assert AwaitAt(line, h.at, h.gap, |c|) && c == line[h.at + 5 + h.gap..h.at + 5 + h.gap + |c|];
    }
  }
}
