/**
 * String operations of JavaScript that the bot relies on: `trim`, whitespace
 * tests, ASCII case mapping, literal and case-insensitive replacement,
 * `split` on one character, `join`, and decimal rendering of integers.
 */
module Text {

  /** One entry of a replacements object: a key and the text put in place of its placeholder. */
  datatype Replacement = Replacement(key: string, value: string)

  /** The code points ECMAScript treats as WhiteSpace or LineTerminator (what `trim()` strips and `\s` matches). */
  predicate IsSpace(c: char) {
    ('\t' <= c <= '\r') || c == ' ' || c == '\U{A0}' || c == '\U{1680}'
    || ('\U{2000}' <= c <= '\U{200A}') || c == '\U{2028}' || c == '\U{2029}'
    || c == '\U{202F}' || c == '\U{205F}' || c == '\U{3000}' || c == '\U{FEFF}'
  }

  /** The code points a regular-expression `.` does not match. */
  predicate IsLineTerminator(c: char) {
    c == '\n' || c == '\r' || c == '\U{2028}' || c == '\U{2029}'
  }

  function TrimStart(s: string): (r: string)
    ensures |r| <= |s| && r == s[|s| - |r|..]
    ensures forall i :: 0 <= i < |s| - |r| ==> IsSpace(s[i])
    ensures r != [] ==> !IsSpace(r[0])
    decreases |s|
  {
    if s != [] && IsSpace(s[0]) then TrimStart(s[1..]) else s
  }

  function TrimEnd(s: string): (r: string)
    ensures |r| <= |s| && r == s[..|r|]
    ensures forall i :: |r| <= i < |s| ==> IsSpace(s[i])
    ensures r != [] ==> !IsSpace(r[|r| - 1])
    decreases |s|
  {
    if s != [] && IsSpace(s[|s| - 1]) then TrimEnd(s[..|s| - 1]) else s
  }

  /** `s.trim()`. */
  function Trim(s: string): string {
    TrimEnd(TrimStart(s))
  }

  /**
   * The string holds nothing but whitespace: the test `s.trim() === ''`,
   * as `TrimmedEmptyIffBlank` shows.
   */
  predicate Blank(s: string) {
    forall i :: 0 <= i < |s| ==> IsSpace(s[i])
  }

  /** A string of whitespace alone trims to nothing from the start. */
  lemma {:induction false} TrimStartAllSpace(s: string)
    requires Blank(s)
    ensures TrimStart(s) == []
    decreases |s|
  {
    if s != [] {
      TrimStartAllSpace(s[1..]);
    }
  }

  /** Trimming the end stops at the last non-whitespace character, so it leaves one. */
  lemma {:induction false} TrimEndKeepsNonSpace(t: string, j: nat)
    requires j < |t| && !IsSpace(t[j])
    ensures TrimEnd(t) != []
    decreases |t|
  {
    if IsSpace(t[|t| - 1]) {
      TrimEndKeepsNonSpace(t[..|t| - 1], j);
    }
  }

  /** Trimming a string of whitespace leaves nothing. */
  lemma AllSpaceTrimsEmpty(s: string)
    requires Blank(s)
    ensures Trim(s) == ""
  {
    TrimStartAllSpace(s);
  }

  /** Trimming keeps any character that is not whitespace. */
  lemma NonSpaceSurvivesTrim(s: string, k: nat)
    requires k < |s| && !IsSpace(s[k])
    ensures Trim(s) != ""
  {
    var t := TrimStart(s);
    var j := k - (|s| - |t|);
    assert 0 <= j < |t| && t[j] == s[k];
    TrimEndKeepsNonSpace(t, j);
  }

  /** Trimming a trimmed string changes nothing. */
  lemma TrimIdempotent(s: string)
    ensures Trim(Trim(s)) == Trim(s)
  {
    var u := TrimStart(s);
    var t := TrimEnd(u);
    if t != [] {
      assert t[0] == u[0];
      assert TrimStart(t) == t;
    }
  }

  /** A string with no whitespace at either end is its own trim. */
  lemma TrimmedWhenEdgesSolid(s: string)
    requires s != [] ==> !IsSpace(s[0]) && !IsSpace(s[|s| - 1])
    ensures Trim(s) == s
  {
  }

  /** Trimming adds no character: one absent from `s` is absent from `s.trim()`. */
  lemma TrimAddsNothing(s: string, c: char)
    requires c !in s
    ensures c !in Trim(s)
  {
    var u := TrimStart(s);
    var t := TrimEnd(u);
    forall k | 0 <= k < |t| ensures t[k] != c {
      assert t[k] == u[k] == s[|s| - |u| + k];
    }
  }

  /** `s.trim() === ''` exactly when every character of `s` is whitespace. */
  lemma TrimmedEmptyIffBlank(s: string)
    ensures Trim(s) == "" <==> Blank(s)
  {
    if Blank(s) {
      AllSpaceTrimsEmpty(s);
    } else {
      var k :| 0 <= k < |s| && !IsSpace(s[k]);
      NonSpaceSurvivesTrim(s, k);
    }
  }

  function LowerChar(c: char): char {
    if 'A' <= c <= 'Z' then (c as int + 32) as char else c
  }

  function UpperChar(c: char): char {
    if 'a' <= c <= 'z' then (c as int - 32) as char else c
  }

  /** `toLowerCase()` on the ASCII letters. */
  function Lower(s: string): (r: string)
    ensures |r| == |s|
  {
    seq(|s|, i requires 0 <= i < |s| => LowerChar(s[i]))
  }

  /** `toUpperCase()` on the ASCII letters. */
  function Upper(s: string): (r: string)
    ensures |r| == |s|
  {
    seq(|s|, i requires 0 <= i < |s| => UpperChar(s[i]))
  }

  /** `pat` occurs in `s` at index `i`; with `ci`, ignoring ASCII case (a regular expression's `i` flag). */
  predicate MatchesAt(s: string, i: nat, pat: string, ci: bool) {
    i + |pat| <= |s| && (if ci then Lower(s[i..i + |pat|]) == Lower(pat) else s[i..i + |pat|] == pat)
  }

  predicate Contains(s: string, pat: string) {
    exists i: nat | i <= |s| :: MatchesAt(s, i, pat, false)
  }

  predicate ContainsIgnoringCase(s: string, pat: string) {
    exists i: nat | i <= |s| :: MatchesAt(s, i, pat, true)
  }

  /** A pattern whose first character does not occur in `s` is not found in it. */
  lemma AbsentFirstChar(s: string, pat: string)
    requires pat != [] && pat[0] !in s
    ensures !Contains(s, pat)
  {
    forall i: nat | i <= |s| ensures !MatchesAt(s, i, pat, false) {
      if i + |pat| <= |s| {
        assert s[i] in s;
        assert s[i..i + |pat|][0] == s[i];
      }
    }
  }

  lemma MatchesAtTail(s: string, i: nat, pat: string, ci: bool)
    requires s != []
    ensures MatchesAt(s[1..], i, pat, ci) == MatchesAt(s, i + 1, pat, ci)
  {
    if i + 1 + |pat| <= |s| {
      assert s[1..][i..i + |pat|] == s[i + 1..i + 1 + |pat|];
    }
  }

  lemma MatchesAtShift(a: string, b: string, i: nat, pat: string, ci: bool)
    ensures MatchesAt(b, i, pat, ci) == MatchesAt(a + b, |a| + i, pat, ci)
  {
    if i + |pat| <= |b| {
      assert (a + b)[|a| + i..|a| + i + |pat|] == b[i..i + |pat|];
    }
  }

  /**
   * `s.replace(/pat/g, rep)` (with `ci`, the `gi` flags): every match found
   * scanning left to right is replaced, and scanning resumes after it.
   */
  function ReplaceAll(s: string, pat: string, rep: string, ci: bool): string
    requires |pat| > 0
    decreases |s|
  {
    if |s| < |pat| then s
    else if MatchesAt(s, 0, pat, ci) then rep + ReplaceAll(s[|pat|..], pat, rep, ci)
    else [s[0]] + ReplaceAll(s[1..], pat, rep, ci)
  }

  /** A string in which the pattern never occurs comes back unchanged. */
  lemma {:induction false} ReplaceAllWithoutMatch(s: string, pat: string, rep: string, ci: bool)
    requires |pat| > 0
    requires forall i: nat :: !MatchesAt(s, i, pat, ci)
    ensures ReplaceAll(s, pat, rep, ci) == s
    decreases |s|
  {
    if |pat| <= |s| {
      assert !MatchesAt(s, 0, pat, ci);
      forall i: nat ensures !MatchesAt(s[1..], i, pat, ci) {
        MatchesAtTail(s, i, pat, ci);
      }
      ReplaceAllWithoutMatch(s[1..], pat, rep, ci);
    }
  }

  /** Dropping the first character keeps every position before the first match free of it. */
  lemma NoMatchBeforeInTail(s: string, k: nat, pat: string, ci: bool)
    requires 0 < k && s != []
    requires forall i: nat :: i < k ==> !MatchesAt(s, i, pat, ci)
    ensures forall i: nat :: i < k - 1 ==> !MatchesAt(s[1..], i, pat, ci)
  {
    forall i: nat | i < k - 1 ensures !MatchesAt(s[1..], i, pat, ci) {
      MatchesAtTail(s, i, pat, ci);
    }
  }

  /** Before the first match, the output of `ReplaceAll` is a copy of its input. */
  lemma {:induction false} ReplaceAllKeepsUnmatchedPrefix(s: string, pat: string, rep: string, ci: bool, k: nat)
    requires |pat| > 0 && k <= |s|
    requires forall i: nat :: i < k ==> !MatchesAt(s, i, pat, ci)
    ensures k <= |ReplaceAll(s, pat, rep, ci)| && ReplaceAll(s, pat, rep, ci)[..k] == s[..k]
    decreases k
  {
    if k > 0 && |s| >= |pat| {
      assert !MatchesAt(s, 0, pat, ci);
      NoMatchBeforeInTail(s, k, pat, ci);
      ReplaceAllKeepsUnmatchedPrefix(s[1..], pat, rep, ci, k - 1);
      assert s[..k] == [s[0]] + s[1..][..k - 1];
    }
  }

  /**
   * Up to the first character taken from `rep`, the output of `ReplaceAll`
   * is a copy of its input.
   */
  lemma {:induction false} ReplaceAllCopiesPrefix(s: string, pat: string, rep: string, m: nat)
    requires |pat| > 0 && |rep| > 0
    requires m <= |ReplaceAll(s, pat, rep, false)|
    ensures (forall j :: 0 <= j < m ==> ReplaceAll(s, pat, rep, false)[j] !in rep) ==> m <= |s| && ReplaceAll(s, pat, rep, false)[..m] == s[..m]
    decreases |s|
  {
    var r := ReplaceAll(s, pat, rep, false);
    if m == 0 || |s| < |pat| {
    } else if MatchesAt(s, 0, pat, false) {
      assert r[0] == rep[0] && rep[0] in rep;
    } else {
      var rt := ReplaceAll(s[1..], pat, rep, false);
      assert r == [s[0]] + rt;
      ReplaceAllCopiesPrefix(s[1..], pat, rep, m - 1);
      if forall j :: 0 <= j < m ==> r[j] !in rep {
        assert forall j :: 0 <= j < m - 1 ==> rt[j] == r[j + 1];
        assert s[..m] == [s[0]] + s[1..][..m - 1];
      }
    }
  }

  /** A match of `q` at the head of `[s[0]] + ReplaceAll(s[1..], ...)` was already at the head of `s`. */
  lemma LeadingMatchCopied(s: string, pat: string, rep: string, q: string)
    requires |pat| > 0 && |rep| > 0 && |q| > 0 && s != []
    requires forall c :: c in rep ==> c !in q
    ensures MatchesAt([s[0]] + ReplaceAll(s[1..], pat, rep, false), 0, q, false) ==> MatchesAt(s, 0, q, false)
  {
    var rt := ReplaceAll(s[1..], pat, rep, false);
    var r := [s[0]] + rt;
    if MatchesAt(r, 0, q, false) {
      assert r[0..|q|] == q;
      forall j | 0 <= j < |q| - 1 ensures rt[j] !in rep {
        assert rt[j] == r[j + 1] == q[j + 1];
        assert q[j + 1] in q;
      }
      ReplaceAllCopiesPrefix(s[1..], pat, rep, |q| - 1);
      assert rt[..|q| - 1] == s[1..][..|q| - 1];
      assert s[..|q|] == [s[0]] + s[1..][..|q| - 1];
      assert r[..|q|] == [s[0]] + rt[..|q| - 1];
    }
  }

  /**
   * When the replacement shares no character with `q`, replacing every `pat`
   * leaves no occurrence of `q` behind: none of `pat` itself, and none of a
   * pattern that did not occur before.
   */
  lemma {:induction false} ReplaceAllLeavesNoMatch(s: string, pat: string, rep: string, q: string)
    requires |pat| > 0 && |rep| > 0 && |q| > 0
    requires forall c :: c in rep ==> c !in q
    requires q == pat || forall i: nat :: !MatchesAt(s, i, q, false)
    ensures forall i: nat :: !MatchesAt(ReplaceAll(s, pat, rep, false), i, q, false)
    decreases |s|
  {
    var r := ReplaceAll(s, pat, rep, false);
    if |s| < |pat| {
      assert r == s;
    } else if MatchesAt(s, 0, pat, false) {
      var t := s[|pat|..];
      forall i: nat ensures q == pat || !MatchesAt(t, i, q, false) {
        assert s[..|pat|] + t == s;
        MatchesAtShift(s[..|pat|], t, i, q, false);
      }
      ReplaceAllLeavesNoMatch(t, pat, rep, q);
      var rt := ReplaceAll(t, pat, rep, false);
      assert r == rep + rt;
      forall i: nat ensures !MatchesAt(r, i, q, false) {
        if i < |rep| {
          if i + |q| <= |r| {
            assert r[i..i + |q|][0] == rep[i] && rep[i] in rep && q[0] in q;
          }
        } else {
          MatchesAtShift(rep, rt, i - |rep|, q, false);
        }
      }
    } else {
      var t := s[1..];
      forall i: nat ensures q == pat || !MatchesAt(t, i, q, false) {
        MatchesAtTail(s, i, q, false);
      }
      ReplaceAllLeavesNoMatch(t, pat, rep, q);
      var rt := ReplaceAll(t, pat, rep, false);
      assert r == [s[0]] + rt;
      LeadingMatchCopied(s, pat, rep, q);
      forall i: nat ensures !MatchesAt(r, i, q, false) {
        if i > 0 {
          MatchesAtShift([s[0]], rt, i - 1, q, false);
        }
      }
    }
  }

  /**
   * `s.indexOf(pat, i)`: the first occurrence at or after `i`, or `|s| + 1`
   * when there is none.
   */
  function IndexOfFrom(s: string, pat: string, i: nat): (k: nat)
    requires i <= |s| + 1
    ensures i <= k <= |s| + 1
    ensures k <= |s| ==> MatchesAt(s, k, pat, false)
    ensures forall j: nat :: i <= j < k ==> !MatchesAt(s, j, pat, false)
    decreases |s| + 1 - i
  {
    if i > |s| || MatchesAt(s, i, pat, false) then i
    else IndexOfFrom(s, pat, i + 1)
  }

  /**
   * The replacement text of one match, as ECMAScript's GetSubstitution
   * builds it for a string pattern (no capture groups): `$$` is `$`, `$&`
   * the matched text, `` $` `` the text before the match, `$'` the text after
   * it; every other character, other `$` sequences included, stands for
   * itself.
   */
  function Substitution(rep: string, matched: string, before: string, after: string): string
    decreases |rep|
  {
    if rep == [] then []
    else if |rep| >= 2 && rep[0] == '$' && rep[1] == '$' then "$" + Substitution(rep[2..], matched, before, after)
    else if |rep| >= 2 && rep[0] == '$' && rep[1] == '&' then matched + Substitution(rep[2..], matched, before, after)
    else if |rep| >= 2 && rep[0] == '$' && rep[1] == '`' then before + Substitution(rep[2..], matched, before, after)
    else if |rep| >= 2 && rep[0] == '$' && rep[1] == '\'' then after + Substitution(rep[2..], matched, before, after)
    else [rep[0]] + Substitution(rep[1..], matched, before, after)
  }

  /** A replacement without `$` is inserted as it is. */
  lemma {:induction false} SubstitutionWithoutDollar(rep: string, matched: string, before: string, after: string)
    requires '$' !in rep
    ensures Substitution(rep, matched, before, after) == rep
    decreases |rep|
  {
    if rep != [] {
      assert rep[0] != '$';
      assert forall c :: c in rep[1..] ==> c in rep;
      SubstitutionWithoutDollar(rep[1..], matched, before, after);
    }
  }

  /** Each of the four patterns, and a `$` before anything else, which is kept. */
  lemma SubstitutionPatterns(matched: string, before: string, after: string)
    ensures Substitution("$$", matched, before, after) == "$"
    ensures Substitution("$&", matched, before, after) == matched
    ensures Substitution("$`", matched, before, after) == before
    ensures Substitution("$'", matched, before, after) == after
    ensures Substitution("$1", matched, before, after) == "$1"
  {
    assert "$1"[1..] == "1";
    assert Substitution("1", matched, before, after) == "1";
  }

  /**
   * `s.replace(pat, rep)` with a string pattern: the first occurrence is
   * replaced by `rep` with its `$` patterns expanded; without one, `s` is
   * returned.
   */
  function ReplaceFirst(s: string, pat: string, rep: string): string {
    var k := IndexOfFrom(s, pat, 0);
    if k > |s| then s
    else s[..k] + Substitution(rep, pat, s[..k], s[k + |pat|..]) + s[k + |pat|..]
  }

  /**
   * The first occurrence, at index `k`, is replaced and everything around it
   * (later occurrences included) is kept verbatim.
   */
  lemma ReplaceFirstOnlyFirst(s: string, k: nat, pat: string, rep: string)
    requires MatchesAt(s, k, pat, false)
    requires forall i: nat :: i < k ==> !MatchesAt(s, i, pat, false)
    ensures ReplaceFirst(s, pat, rep) == s[..k] + Substitution(rep, pat, s[..k], s[k + |pat|..]) + s[k + |pat|..]
  {
  }

  /** A replacement without `$` goes in verbatim in place of the first occurrence. */
  lemma ReplaceFirstLiteral(s: string, k: nat, pat: string, rep: string)
    requires '$' !in rep
    requires MatchesAt(s, k, pat, false)
    requires forall i: nat :: i < k ==> !MatchesAt(s, i, pat, false)
    ensures ReplaceFirst(s, pat, rep) == s[..k] + rep + s[k + |pat|..]
  {
    ReplaceFirstOnlyFirst(s, k, pat, rep);
    SubstitutionWithoutDollar(rep, pat, s[..k], s[k + |pat|..]);
  }

  /** Without an occurrence the text is returned unchanged. */
  lemma ReplaceFirstWithoutMatch(s: string, pat: string, rep: string)
    requires !Contains(s, pat)
    ensures ReplaceFirst(s, pat, rep) == s
  {
  }

  /** `parts.join(sep)`. */
  function Join(parts: seq<string>, sep: string): string
    decreases |parts|
  {
    if |parts| == 0 then ""
    else if |parts| == 1 then parts[0]
    else parts[0] + sep + Join(parts[1..], sep)
  }

  function FirstIndexOf(s: string, c: char): (k: nat)
    requires c in s
    ensures k < |s| && s[k] == c && c !in s[..k]
    ensures forall j :: 0 <= j < k ==> s[j] != c
  {
    if s[0] == c then 0
    else
      assert c in s[1..] by { var j :| 0 <= j < |s| && s[j] == c; assert s[1..][j - 1] == c; }
      var k := FirstIndexOf(s[1..], c);
      assert s[..k + 1] == [s[0]] + s[1..][..k];
      k + 1
  }

  /** `s.split(c)` for a one-character separator. */
  function SplitOn(s: string, c: char): (parts: seq<string>)
    ensures |parts| >= 1
    ensures forall p :: p in parts ==> c !in p
    decreases |s|
  {
    if c !in s then [s]
    else
      var k := FirstIndexOf(s, c);
      [s[..k]] + SplitOn(s[k + 1..], c)
  }

  lemma SplitOnNonEmpty(s: string, c: char)
    ensures SplitOn(s, c) != []
  {
  }

  /** Joining a list of two or more parts puts the separator after the first. */
  lemma JoinCons(first: string, rest: seq<string>, sep: string)
    requires rest != []
    ensures Join([first] + rest, sep) == first + sep + Join(rest, sep)
  {
    assert ([first] + rest)[1..] == rest;
  }

  /** A string holding the separator splits into the text before its first occurrence and the split of what follows. */
  lemma SplitOnFirst(s: string, c: char)
    requires c in s
    ensures SplitOn(s, c) == [s[..FirstIndexOf(s, c)]] + SplitOn(s[FirstIndexOf(s, c) + 1..], c)
  {
  }

  /** Splitting on a character and joining back with it restores the string. */
  lemma {:induction false} JoinSplitOn(s: string, c: char)
    ensures Join(SplitOn(s, c), [c]) == s
    decreases |s|
  {
    if c in s {
      var k := FirstIndexOf(s, c);
      var rest := SplitOn(s[k + 1..], c);
      JoinSplitOn(s[k + 1..], c);
      SplitOnFirst(s, c);
      SplitOnNonEmpty(s[k + 1..], c);
      JoinCons(s[..k], rest, [c]);
      assert s == s[..k] + [c] + s[k + 1..];
    }
  }

  function DigitChar(d: nat): char
    requires d < 10
  {
    ('0' as int + d) as char
  }

  /** `String(n)` for a non-negative integer. */
  function NatToString(n: nat): (r: string)
    ensures |r| >= 1
    ensures forall i :: 0 <= i < |r| ==> '0' <= r[i] <= '9'
    decreases n
  {
    if n < 10 then [DigitChar(n)] else NatToString(n / 10) + [DigitChar(n % 10)]
  }

  /** `String(i)` for an integer. */
  function IntToString(i: int): (r: string)
    ensures |r| >= 1
    ensures forall k :: 0 <= k < |r| ==> r[k] == '-' || '0' <= r[k] <= '9'
  {
    if i < 0 then "-" + NatToString(-i) else NatToString(i)
  }
}
