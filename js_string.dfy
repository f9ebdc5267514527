/** The JavaScript String built-ins the calculator's updaters rely on:
    `trim` (blank-display guard and history re-load) and `split` with a
    one-character separator (history re-load). Strings are sequences of
    UTF-16 code units in JavaScript; every character used here ('=', '→',
    the whitespace set) is a single code unit, so `seq<char>` is exact. */
module JsString {

  /** The characters `String.prototype.trim` removes: ECMAScript's
      WhiteSpace (tab, vertical tab, form feed, space, no-break space,
      byte order mark and the Unicode space separators) and LineTerminator
      (line feed, carriage return, line and paragraph separator). */
  predicate IsWhitespace(c: char) {
    || c == '\t' || c == '\n' || c == '\U{000B}' || c == '\U{000C}' || c == '\r'
    || c == ' ' || c == '\U{00A0}' || c == '\U{1680}'
    || ('\U{2000}' <= c <= '\U{200A}')
    || c == '\U{2028}' || c == '\U{2029}' || c == '\U{202F}' || c == '\U{205F}'
    || c == '\U{3000}' || c == '\U{FEFF}'
  }

  predicate AllWhitespace(s: string) {
    forall i :: 0 <= i < |s| ==> IsWhitespace(s[i])
  }

  /** Neither begins nor ends with whitespace: what `trim` returns. */
  predicate Trimmed(s: string) {
    s == [] || (!IsWhitespace(s[0]) && !IsWhitespace(s[|s| - 1]))
  }

  /** How many whitespace characters `s` starts with: all of `s` before
      that index is whitespace, and the character at it is not. */
  function LeadingCount(s: string): (n: nat)
    ensures n <= |s|
    ensures forall i :: 0 <= i < n ==> IsWhitespace(s[i])
    ensures n < |s| ==> !IsWhitespace(s[n])
  {
    if s != [] && IsWhitespace(s[0]) then
      var n := 1 + LeadingCount(s[1..]);
      assert forall i :: 1 <= i < n ==> s[i] == s[1..][i - 1];
      n
    else
      0
  }

  /** How many whitespace characters `s` ends with: the last `n`
      characters are whitespace, and the one before them is not. */
  function TrailingCount(s: string): (n: nat)
    ensures n <= |s|
    ensures forall i :: |s| - n <= i < |s| ==> IsWhitespace(s[i])
    ensures n < |s| ==> !IsWhitespace(s[|s| - 1 - n])
  {
    if s != [] && IsWhitespace(s[|s| - 1]) then
      var n := 1 + TrailingCount(s[..|s| - 1]);
      assert forall i :: |s| - n <= i < |s| - 1 ==> s[i] == s[..|s| - 1][i];
      n
    else
      0
  }

  /** `String.prototype.trim`: `s` with its leading and trailing whitespace
      removed. Nothing is left exactly when `s` is all whitespace. */
  function Trim(s: string): (r: string)
    ensures Trimmed(r) && |r| <= |s|
    ensures r == [] <==> AllWhitespace(s)
  {
    var a := LeadingCount(s);
    var t := s[a..];
    var r := t[..|t| - TrailingCount(t)];
    assert r != [] ==> r[0] == s[a] && r[|r| - 1] == t[|t| - 1 - TrailingCount(t)];
    r
  }

  /** `s.trim() === ""`, stated directly: by `Trim`'s contract, trimming
      leaves nothing exactly when every character is whitespace. */
  predicate IsBlank(s: string) {
    AllWhitespace(s)
  }

  lemma BlankMeansTrimsToEmpty(s: string)
    ensures IsBlank(s) <==> Trim(s) == []
  {
  }

  /** `s.split(sep)` for a one-character separator: the maximal pieces of
      `s` between occurrences of `sep`, in order. There is always at least
      one piece, and one more piece than there are separators. */
  function Split(s: string, sep: char): (parts: seq<string>)
    ensures |parts| == multiset(s)[sep] + 1
    ensures forall i :: 0 <= i < |parts| ==> sep !in parts[i]
  {
    if s == [] then
      [[]]
    else
      assert s == [s[0]] + s[1..];
      var rest := Split(s[1..], sep);
      if s[0] == sep then [[]] + rest
      else [[s[0]] + rest[0]] + rest[1..]
  }

  /** The inverse of `Split`: the pieces glued back with the separator
      (`parts.join(sep)`). */
  function Join(parts: seq<string>, sep: char): (s: string)
    requires |parts| >= 1
  {
    if |parts| == 1 then parts[0] else parts[0] + [sep] + Join(parts[1..], sep)
  }

  /** The text after the last `sep` in `s`, or all of `s` when it has none:
      `s.split(sep)` at its last index. */
  function LastPiece(s: string, sep: char): string {
    var parts := Split(s, sep);
    parts[|parts| - 1]
  }

  // ---------------------------------------------------------------------
  // Properties of trim

  /** The leading count is the length of any whitespace prefix that is
      followed by a non-whitespace character or by the end. */
  lemma {:induction false} LeadingCountIs(s: string, n: nat)
    requires n <= |s| && (forall i :: 0 <= i < n ==> IsWhitespace(s[i]))
    requires n < |s| ==> !IsWhitespace(s[n])
    ensures LeadingCount(s) == n
  {
    if n > 0 {
      assert forall i :: 0 <= i < n - 1 ==> s[1..][i] == s[i + 1];
      assert n - 1 < |s| - 1 ==> s[1..][n - 1] == s[n];
      LeadingCountIs(s[1..], n - 1);
    }
  }

  /** The trailing count is the length of any whitespace suffix that is
      preceded by a non-whitespace character or by the start. */
  lemma {:induction false} TrailingCountIs(s: string, n: nat)
    requires n <= |s| && (forall i :: |s| - n <= i < |s| ==> IsWhitespace(s[i]))
    requires n < |s| ==> !IsWhitespace(s[|s| - 1 - n])
    ensures TrailingCount(s) == n
  {
    if n > 0 {
      var u := s[..|s| - 1];
      assert forall i :: |u| - (n - 1) <= i < |u| ==> u[i] == s[i];
      assert n - 1 < |u| ==> u[|u| - 1 - (n - 1)] == s[|s| - 1 - n];
      TrailingCountIs(u, n - 1);
    }
  }

  /** Trimming text that is already trimmed, padded by whitespace on both
      sides, gives back exactly that text. */
  lemma TrimPadded(left: string, t: string, right: string)
    requires AllWhitespace(left) && AllWhitespace(right) && Trimmed(t)
    ensures Trim(left + t + right) == t
  {
    var w := left + t + right;
    if t == [] {
      assert w == left + right;
      assert AllWhitespace(w);
    } else {
      assert forall i :: 0 <= i < |left| ==> w[i] == left[i];
      assert w[|left|] == t[0];
      LeadingCountIs(w, |left|);
      var u := w[|left|..];
      assert u == t + right;
      assert forall i :: |u| - |right| <= i < |u| ==> u[i] == right[i - |t|];
      assert u[|u| - 1 - |right|] == t[|t| - 1];
      TrailingCountIs(u, |right|);
      assert u[..|t|] == t;
    }
  }

  /** `trim` leaves trimmed text as it is. */
  lemma TrimOfTrimmed(t: string)
    requires Trimmed(t)
    ensures Trim(t) == t
  {
    assert [] + t + [] == t;
    TrimPadded([], t, []);
  }

  // ---------------------------------------------------------------------
  // Properties of split

  /** Gluing the pieces back together gives the original string. */
  lemma {:induction false} JoinSplit(s: string, sep: char)
    ensures Join(Split(s, sep), sep) == s
  {
    if s != [] {
      JoinSplit(s[1..], sep);
      assert s == [s[0]] + s[1..];
      var rest := Split(s[1..], sep);
      if s[0] == sep {
        SplitAtSeparator(s[1..], sep);
        assert Split(s, sep) == [[]] + rest;
        JoinAfterEmpty(rest, sep);
      } else {
        SplitAtOther(s[0], s[1..], sep);
        assert Split(s, sep) == [[s[0]] + rest[0]] + rest[1..];
        JoinPrepend(s[0], rest, sep);
      }
    }
  }

  lemma JoinAfterEmpty(parts: seq<string>, sep: char)
    requires |parts| >= 1
    ensures Join([[]] + parts, sep) == [sep] + Join(parts, sep)
  {
    assert ([[]] + parts)[1..] == parts;
  }

  lemma JoinPrepend(c: char, parts: seq<string>, sep: char)
    requires |parts| >= 1
    ensures Join([[c] + parts[0]] + parts[1..], sep) == [c] + Join(parts, sep)
  {
    var glued := [[c] + parts[0]] + parts[1..];
    if |parts| > 1 {
      assert glued[1..] == parts[1..];
    }
  }

  /** Splitting the joined pieces gives the pieces back, when no piece holds
      the separator. */
  lemma {:induction false} SplitJoin(parts: seq<string>, sep: char)
    requires |parts| >= 1
    requires forall i :: 0 <= i < |parts| ==> sep !in parts[i]
    ensures Split(Join(parts, sep), sep) == parts
    decreases |parts|, |parts[0]|, 1
  {
    if |parts| == 1 {
      SplitFree(parts[0], sep);
    } else if parts[0] == [] {
      var tail := Join(parts[1..], sep);
      assert Join(parts, sep) == [sep] + tail;
      SplitJoin(parts[1..], sep);
      SplitAtSeparator(tail, sep);
    } else {
      SplitJoinCons(parts, sep);
    }
  }

  lemma {:induction false} SplitJoinCons(parts: seq<string>, sep: char)
    requires |parts| >= 2 && parts[0] != []
    requires forall i :: 0 <= i < |parts| ==> sep !in parts[i]
    ensures Split(Join(parts, sep), sep) == parts
    decreases |parts|, |parts[0]|, 0
  {
    var c := parts[0][0];
    var shorter := [parts[0][1..]] + parts[1..];
    ShorterFree(parts, sep);
    SplitJoin(shorter, sep);
    JoinCons(parts, sep);
    var j := Join(shorter, sep);
    SplitAtOther(c, j, sep);
    assert Split([c] + j, sep) == [[c] + shorter[0]] + shorter[1..];
    assert shorter[1..] == parts[1..];
    assert [c] + shorter[0] == parts[0];
    assert parts == [parts[0]] + parts[1..];
  }

  lemma ShorterFree(parts: seq<string>, sep: char)
    requires |parts| >= 2 && parts[0] != []
    requires forall i :: 0 <= i < |parts| ==> sep !in parts[i]
    ensures var shorter := [parts[0][1..]] + parts[1..];
      |shorter| == |parts| && forall i :: 0 <= i < |shorter| ==> sep !in shorter[i]
  {
    var shorter := [parts[0][1..]] + parts[1..];
    assert sep !in parts[0][1..] by {
      assert forall k :: 0 <= k < |parts[0]| - 1 ==> parts[0][1..][k] == parts[0][k + 1];
    }
    forall i | 0 <= i < |shorter| ensures sep !in shorter[i] {
      if i > 0 { assert shorter[i] == parts[i]; }
    }
  }

  lemma JoinCons(parts: seq<string>, sep: char)
    requires |parts| >= 2 && parts[0] != []
    ensures Join(parts, sep) == [parts[0][0]] + Join([parts[0][1..]] + parts[1..], sep)
  {
    var shorter := [parts[0][1..]] + parts[1..];
    assert shorter[1..] == parts[1..];
    assert parts[0] == [parts[0][0]] + parts[0][1..];
  }

  lemma SplitAtSeparator(s: string, sep: char)
    ensures Split([sep] + s, sep) == [[]] + Split(s, sep)
  {
    assert ([sep] + s)[1..] == s;
  }

  lemma SplitAtOther(c: char, s: string, sep: char)
    requires c != sep
    ensures Split([c] + s, sep) == [[c] + Split(s, sep)[0]] + Split(s, sep)[1..]
  {
    assert ([c] + s)[1..] == s;
  }

  lemma {:induction false} SplitFree(s: string, sep: char)
    requires sep !in s
    ensures Split(s, sep) == [s]
  {
    if s != [] {
      assert sep !in s[1..] by { assert forall i :: 0 <= i < |s| - 1 ==> s[1..][i] == s[i + 1]; }
      SplitFree(s[1..], sep);
      assert [s[0]] + s[1..] == s;
    }
  }

  /** The last piece is the text after the final separator: when `s` ends
      with `sep` followed by separator-free `tail`, that tail is the last
      piece; when `s` has no separator, the last piece is `s`. */
  lemma {:induction false} LastPieceAfterSeparator(head: string, sep: char, tail: string)
    requires sep !in tail
    ensures LastPiece(head + [sep] + tail, sep) == tail
  {
    if head == [] {
      var s := [sep] + tail;
      assert s[1..] == tail;
      SplitFree(tail, sep);
      assert Split(s, sep) == [[]] + [tail];
    } else {
      var s := head + [sep] + tail;
      assert s[1..] == head[1..] + [sep] + tail;
      LastPieceAfterSeparator(head[1..], sep, tail);
      var rest := Split(s[1..], sep);
      assert |rest| >= 2 by { assert sep in s[1..]; MultisetHas(s[1..], sep); }
    }
  }

  lemma MultisetHas(s: string, c: char)
    requires c in s
    ensures multiset(s)[c] >= 1
  {
  }

  lemma LastPieceWithoutSeparator(s: string, sep: char)
    requires sep !in s
    ensures LastPiece(s, sep) == s
  {
    SplitFree(s, sep);
  }
}
