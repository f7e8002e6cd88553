/** The short-code format `CODE_RE = /^[A-Za-z0-9]{6,8}$/` (index.js:34) and
    the code generator of the create route (index.js:114-119). */
module Codes {

  /** The character class `[A-Za-z0-9]`. */
  predicate IsCodeChar(c: char)
  {
    'A' <= c <= 'Z' || 'a' <= c <= 'z' || '0' <= c <= '9'
  }

  /** The characters that survive `.replace(/[^a-z0-9]+/g, "")`. */
  predicate IsLowerAlnum(c: char)
  {
    'a' <= c <= 'z' || '0' <= c <= '9'
  }

  /** `[A-Za-z0-9]{lo,hi}$` matched against the whole of `s`: at most `hi`
      class characters, at least `lo` of them, then the end of the input. It
      matches exactly the strings of `lo` to `hi` class characters. */
  function MatchesRepeat(s: string, lo: nat, hi: nat): (b: bool)
    ensures b <==> lo <= |s| <= hi && forall i :: 0 <= i < |s| ==> IsCodeChar(s[i])
    decreases |s|
  {
    if s == [] then lo == 0
    else if hi == 0 then false
    else
      assert forall i :: 1 <= i < |s| ==> s[i] == s[1..][i - 1];
      IsCodeChar(s[0]) && MatchesRepeat(s[1..], if lo > 0 then lo - 1 else 0, hi - 1)
  }

  /** `CODE_RE.test(s)`, anchored at both ends, with no multiline flag: it
      holds iff `s` has 6 to 8 characters, all letters or digits. */
  function MatchesCodeRe(s: string): (b: bool)
    ensures b <==> 6 <= |s| <= 8 && forall i :: 0 <= i < |s| ==> IsCodeChar(s[i])
  {
    MatchesRepeat(s, 6, 8)
  }

  /** `.replace(/[^a-z0-9]+/g, "")`: drop every character outside `[a-z0-9]`,
      keep every other one. */
  function StripToLowerAlnum(s: string): (r: string)
    ensures |r| <= |s|
    ensures forall i :: 0 <= i < |r| ==> IsLowerAlnum(r[i])
    ensures forall c {:trigger multiset(r)[c]} :: multiset(r)[c] == if IsLowerAlnum(c) then multiset(s)[c] else 0
  {
    if s == [] then []
    else
      assert s == [s[0]] + s[1..];
      if IsLowerAlnum(s[0]) then [s[0]] + StripToLowerAlnum(s[1..])
      else StripToLowerAlnum(s[1..])
  }

  /** The filter of a single character: kept iff it is in `[a-z0-9]`. */
  lemma StripOne(c: char)
    ensures StripToLowerAlnum([c]) == if IsLowerAlnum(c) then [c] else []
  {
  }

  /** The filter works piece by piece and keeps the order: filtering a
      concatenation is concatenating the filtered pieces. With `StripOne` this
      fixes the output of every input. */
  lemma {:induction false} StripConcat(a: string, b: string)
    ensures StripToLowerAlnum(a + b) == StripToLowerAlnum(a) + StripToLowerAlnum(b)
    decreases |a|
  {
    if a == [] {
      assert a + b == b;
    } else {
      assert (a + b)[0] == a[0];
      assert (a + b)[1..] == a[1..] + b;
      StripConcat(a[1..], b);
    }
  }

  /** A string already made of `[a-z0-9]` passes through the filter unchanged. */
  lemma {:induction false} StripKeepsLowerAlnum(s: string)
    requires forall i :: 0 <= i < |s| ==> IsLowerAlnum(s[i])
    ensures StripToLowerAlnum(s) == s
  {
    if s != [] {
      StripKeepsLowerAlnum(s[1..]);
    }
  }

  /** `Math.random().toString(36).replace(/[^a-z0-9]+/g, "").slice(0, 6)`,
      given the base-36 rendering of the random number. */
  function GenerateCode(base36: string): (code: string)
    ensures |code| <= 6
    ensures forall i :: 0 <= i < |code| ==> IsLowerAlnum(code[i])
    ensures code <= StripToLowerAlnum(base36)
    ensures |code| == 6 || code == StripToLowerAlnum(base36)
  {
    var t := StripToLowerAlnum(base36);
    if |t| <= 6 then t else t[..6]
  }

  /** The generated code is not trusted: it passes the format check exactly
      when the filtered base-36 string had at least six characters, and then
      it has exactly six. */
  lemma GeneratedCodeFormat(base36: string)
    ensures MatchesCodeRe(GenerateCode(base36)) <==> |StripToLowerAlnum(base36)| >= 6
    ensures MatchesCodeRe(GenerateCode(base36)) ==> |GenerateCode(base36)| == 6
  {
    var code := GenerateCode(base36);
    assert forall i :: 0 <= i < |code| ==> IsCodeChar(code[i]);
  }

  /** `Math.random().toString(36)` starts with the digit `0`, which survives
      the filter, so every code the generator gives starts with `0`. */
  lemma GeneratedCodeStartsWithZero(base36: string)
    requires base36 != [] && base36[0] == '0'
    ensures GenerateCode(base36) != [] && GenerateCode(base36)[0] == '0'
  {
    StripConcat([base36[0]], base36[1..]);
    assert [base36[0]] + base36[1..] == base36;
    StripOne('0');
  }
}
