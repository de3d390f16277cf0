/** The few ECMAScript string operations the inspector relies on, each
    defined on `seq<char>`: `trim`, `startsWith`, `indexOf` and `replace`
    with a string pattern, `split` on a one-character separator, and case
    mapping (for ASCII letters only). */
module JsString {
  import opened Wrappers

  /** The WhiteSpace and LineTerminator code points of ECMAScript, which is
      the set `String.prototype.trim` strips from both ends. */
  predicate IsWhitespace(c: char) {
    c == '\t' || c == '\n' || c == '\U{000B}' || c == '\U{000C}' || c == '\r' ||
    c == ' ' || c == '\U{00A0}' || c == '\U{1680}' || ('\U{2000}' <= c <= '\U{200A}') ||
    c == '\U{2028}' || c == '\U{2029}' || c == '\U{202F}' || c == '\U{205F}' ||
    c == '\U{3000}' || c == '\U{FEFF}'
  }

  predicate AllWhitespace(s: string) {
    forall i :: 0 <= i < |s| ==> IsWhitespace(s[i])
  }

  /** Neither end of `s` is whitespace. */
  predicate IsTrimmed(s: string) {
    s == [] || (!IsWhitespace(s[0]) && !IsWhitespace(s[|s| - 1]))
  }

  /** The first position at or after `from` that holds no whitespace, or
      `|s|` when there is none. */
  function SkipWhitespace(s: string, from: nat): (k: nat)
    requires from <= |s|
    ensures from <= k <= |s|
    ensures forall j :: from <= j < k ==> IsWhitespace(s[j])
    ensures k < |s| ==> !IsWhitespace(s[k])
    decreases |s| - from
  {
    if from < |s| && IsWhitespace(s[from]) then SkipWhitespace(s, from + 1) else from
  }

  /** Walking back from `upto`, but not below `low`: the position just after
      the last character that is not whitespace, or `low`. */
  function SkipWhitespaceBack(s: string, low: nat, upto: nat): (k: nat)
    requires low <= upto <= |s|
    ensures low <= k <= upto
    ensures forall j :: k <= j < upto ==> IsWhitespace(s[j])
    ensures k > low ==> !IsWhitespace(s[k - 1])
    decreases upto
  {
    if upto > low && IsWhitespace(s[upto - 1]) then SkipWhitespaceBack(s, low, upto - 1) else upto
  }

  /** Where the trimmed text starts. */
  function TrimStart(s: string): nat {
    SkipWhitespace(s, 0)
  }

  /** Where the trimmed text ends. */
  function TrimEnd(s: string): nat {
    SkipWhitespaceBack(s, TrimStart(s), |s|)
  }

  /** `String.prototype.trim`. */
  function Trim(s: string): (r: string)
    ensures IsTrimmed(r)
  {
    s[TrimStart(s)..TrimEnd(s)]
  }

  /** The whitespace `Trim` removes from the front of `s`. */
  function LeadingWhitespace(s: string): string {
    s[..TrimStart(s)]
  }

  /** The whitespace `Trim` removes from the back of `s`. */
  function TrailingWhitespace(s: string): string {
    s[TrimEnd(s)..]
  }

  /** Every string is its trimmed text padded with whitespace on both sides. */
  lemma TrimPadding(s: string)
    ensures AllWhitespace(LeadingWhitespace(s)) && AllWhitespace(TrailingWhitespace(s))
    ensures s == LeadingWhitespace(s) + Trim(s) + TrailingWhitespace(s)
  {
    var b, e := TrimStart(s), TrimEnd(s);
    assert s == s[..b] + s[b..e] + s[e..];
  }

  lemma AllWhitespaceConcat(a: string, b: string)
    requires AllWhitespace(a) && AllWhitespace(b)
    ensures AllWhitespace(a + b)
  {
    forall i | 0 <= i < |a + b| ensures IsWhitespace((a + b)[i]) {
      if i >= |a| {
        assert (a + b)[i] == b[i - |a|];
      }
    }
  }

  /** Trimming whitespace-padded text gives back exactly the text, whatever
      the padding. */
  lemma TrimOfPadded(w1: string, m: string, w2: string)
    requires AllWhitespace(w1) && AllWhitespace(w2) && IsTrimmed(m)
    ensures Trim(w1 + m + w2) == m
  {
    var s := w1 + m + w2;
    forall j | 0 <= j < |w1| ensures IsWhitespace(s[j]) {
      assert s[j] == w1[j];
    }
    forall j | |w1| + |m| <= j < |s| ensures IsWhitespace(s[j]) {
      assert s[j] == w2[j - |w1| - |m|];
    }
    if m == [] {
      assert TrimStart(s) == |s|;
    } else {
      assert s[|w1|] == m[0] && s[|w1| + |m| - 1] == m[|m| - 1];
      assert TrimStart(s) == |w1|;
      assert TrimEnd(s) == |w1| + |m|;
      assert s[|w1|..|w1| + |m|] == m;
    }
  }

  lemma Regroup(a: string, b: string, c: string, d: string, e: string)
    ensures a + (b + c + d) + e == (a + b) + c + (d + e)
  {
  }

  /** Extra whitespace around a string does not change its trimmed text. */
  lemma TrimIgnoresPadding(w1: string, u: string, w2: string)
    requires AllWhitespace(w1) && AllWhitespace(w2)
    ensures Trim(w1 + u + w2) == Trim(u)
  {
    var v1, m, v2 := LeadingWhitespace(u), Trim(u), TrailingWhitespace(u);
    TrimPadding(u);
    AllWhitespaceConcat(w1, v1);
    AllWhitespaceConcat(v2, w2);
    Regroup(w1, v1, m, v2, w2);
    TrimOfPadded(w1 + v1, m, v2 + w2);
  }

  predicate StartsWith(s: string, prefix: string) {
    |prefix| <= |s| && s[..|prefix|] == prefix
  }

  /** `pat` occurs in `s` at position `i`. */
  predicate MatchesAt(s: string, pat: string, i: nat) {
    i + |pat| <= |s| && s[i..i + |pat|] == pat
  }

  /** `s.indexOf(pat, from)`: the first position at or after `from` where
      `pat` occurs. */
  function IndexOfFrom(s: string, pat: string, from: nat): (r: Option<nat>)
    requires from <= |s|
    ensures r.Some? ==> from <= r.value && MatchesAt(s, pat, r.value)
    ensures forall j :: from <= j && (r.None? || j < r.value) ==> !MatchesAt(s, pat, j)
    decreases |s| - from
  {
    if MatchesAt(s, pat, from) then Some(from)
    else if from == |s| then None
    else IndexOfFrom(s, pat, from + 1)
  }

  /** `s.indexOf(pat)`, with "not found" as `None` instead of -1. */
  function IndexOf(s: string, pat: string): (r: Option<nat>)
    ensures r.Some? ==> MatchesAt(s, pat, r.value)
    ensures forall j: nat :: (r.None? || j < r.value) ==> !MatchesAt(s, pat, j)
  {
    IndexOfFrom(s, pat, 0)
  }

  /** `s.replace(pat, '')`: a string pattern replaces only its first
      occurrence, and a string without it is returned as it is. */
  function RemoveFirst(s: string, pat: string): (r: string)
    ensures IndexOf(s, pat).None? ==> r == s
    ensures IndexOf(s, pat).Some? ==>
      var i := IndexOf(s, pat).value; |r| == |s| - |pat| && r == s[..i] + s[i + |pat|..]
  {
    match IndexOf(s, pat)
    case None => s
    case Some(i) => s[..i] + s[i + |pat|..]
  }

  /** Occurrences of the one-character pattern `[c]` are exactly the
      positions holding `c`. */
  lemma MatchesCharAt(s: string, c: char, i: nat)
    ensures MatchesAt(s, [c], i) <==> i < |s| && s[i] == c
  {
    if i < |s| {
      assert s[i..i + 1] == [s[i]];
    }
  }

  /** `s.split(sep)` for a one-character separator: the pieces of `s`
      between occurrences of `sep`, at least one piece, none holding `sep`.
      Built from the right: each character either starts a new last piece
      (a separator) or extends the last piece. */
  function Split(s: string, sep: char): (parts: seq<string>)
    ensures |parts| >= 1
    ensures forall i :: 0 <= i < |parts| ==> sep !in parts[i]
    decreases |s|
  {
    if s == [] then [""]
    else
      var init := Split(s[..|s| - 1], sep);
      var c := s[|s| - 1];
      if c == sep then init + [""]
      else init[..|init| - 1] + [init[|init| - 1] + [c]]
  }

  /** `parts.join(sep)`: the inverse of `Split`. */
  function Join(parts: seq<string>, sep: char): string
    requires |parts| >= 1
  {
    if |parts| == 1 then parts[0]
    else Join(parts[..|parts| - 1], sep) + [sep] + parts[|parts| - 1]
  }

  /** Adding a piece after the last one adds a separator and the piece. */
  lemma JoinAppendPiece(parts: seq<string>, piece: string, sep: char)
    requires |parts| >= 1
    ensures Join(parts + [piece], sep) == Join(parts, sep) + [sep] + piece
  {
    assert (parts + [piece])[..|parts|] == parts;
  }

  /** Extending the last piece by a character extends the joined string by
      that character. */
  lemma JoinExtendLast(parts: seq<string>, c: char, sep: char)
    requires |parts| >= 1
    ensures Join(parts[..|parts| - 1] + [parts[|parts| - 1] + [c]], sep) == Join(parts, sep) + [c]
  {
    var extended := parts[..|parts| - 1] + [parts[|parts| - 1] + [c]];
    if |parts| > 1 {
      assert extended[..|extended| - 1] == parts[..|parts| - 1];
    }
  }

  /** Splitting and joining again on the same separator gives back the
      original string. */
  lemma {:induction false} JoinSplit(s: string, sep: char)
    ensures Join(Split(s, sep), sep) == s
    decreases |s|
  {
    if s != [] {
      var init := Split(s[..|s| - 1], sep);
      var c := s[|s| - 1];
      JoinSplit(s[..|s| - 1], sep);
      assert s == s[..|s| - 1] + [c];
      if c == sep {
        JoinAppendPiece(init, "", sep);
      } else {
        JoinExtendLast(init, c, sep);
      }
    }
  }

  /** The last piece of a split is the part of `s` after its last `sep`:
      a suffix of `s`, preceded by `sep` unless it is the whole string. */
  lemma {:induction false} SplitLast(s: string, sep: char)
    ensures var parts := Split(s, sep); var last := parts[|parts| - 1];
      |last| <= |s| && last == s[|s| - |last|..] &&
      (|last| < |s| ==> s[|s| - |last| - 1] == sep)
    decreases |s|
  {
    if s != [] {
      var prefix := s[..|s| - 1];
      var init := Split(prefix, sep);
      SplitLast(prefix, sep);
      var before := init[|init| - 1];
      var parts := Split(s, sep);
      if s[|s| - 1] == sep {
        assert parts[|parts| - 1] == "";
      } else {
        assert parts[|parts| - 1] == before + [s[|s| - 1]];
        assert s == prefix + [s[|s| - 1]];
        assert s[|s| - |before| - 1..] == prefix[|prefix| - |before|..] + [s[|s| - 1]];
        assert |before| < |prefix| ==> s[|s| - |before| - 2] == prefix[|prefix| - |before| - 1];
      }
    }
  }

  function ToLowerChar(c: char): char {
    if 'A' <= c <= 'Z' then (c as int + 32) as char else c
  }

  function ToUpperChar(c: char): char {
    if 'a' <= c <= 'z' then (c as int - 32) as char else c
  }

  predicate IsAsciiUpper(c: char) {
    'A' <= c <= 'Z'
  }

  /** `s.toLowerCase()`, for ASCII letters. */
  function ToLower(s: string): string {
    seq(|s|, i requires 0 <= i < |s| => ToLowerChar(s[i]))
  }

  /** Lower-casing leaves no upper-case letter, and lower-casing twice is
      lower-casing once. */
  lemma ToLowerHasNoUpper(s: string)
    ensures |ToLower(s)| == |s|
    ensures forall i :: 0 <= i < |s| ==> !IsAsciiUpper(ToLower(s)[i])
    ensures ToLower(ToLower(s)) == ToLower(s)
  {
  }

  /** A string is left unchanged by lower-casing exactly when it holds no
      upper-case letter; otherwise lower-casing changes each upper-case
      letter and nothing else. */
  lemma ToLowerFixesExactlyLowerCase(s: string)
    ensures ToLower(s) == s <==> forall i :: 0 <= i < |s| ==> !IsAsciiUpper(s[i])
    ensures forall i :: 0 <= i < |s| ==> (ToLower(s)[i] == s[i] <==> !IsAsciiUpper(s[i]))
  {
    if ToLower(s) == s {
      forall i | 0 <= i < |s|
        ensures !IsAsciiUpper(s[i])
      {
        assert ToLower(s)[i] == s[i];
      }
    }
  }

  /** `s.charAt(0).toUpperCase() + s.slice(1)`, for ASCII letters. */
  function Capitalize(s: string): (r: string)
    ensures |r| == |s| && (s != [] ==> r[0] == ToUpperChar(s[0]) && r[1..] == s[1..])
  {
    if s == [] then [] else [ToUpperChar(s[0])] + s[1..]
  }
}
