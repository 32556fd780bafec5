/**
 * Character classes and trimming as JavaScript defines them: the `\s` class of a
 * regular expression and `String.prototype.trim` both use the WhiteSpace and
 * LineTerminator code points of ECMAScript.
 */
module Text {

  /** A code point that JavaScript's `\s` matches and `trim` removes. */
  predicate IsWhitespace(c: char) {
    || c == ' ' || c == '\t' || c == '\n' || c == '\r' || c == '\U{B}' || c == '\U{C}'
    || c == '\U{A0}' || c == '\U{1680}' || ('\U{2000}' <= c <= '\U{200A}')
    || c == '\U{2028}' || c == '\U{2029}' || c == '\U{202F}' || c == '\U{205F}'
    || c == '\U{3000}' || c == '\U{FEFF}'
  }

  predicate AllWhitespace(s: string) {
    forall k :: 0 <= k < |s| ==> IsWhitespace(s[k])
  }

  /** How many characters of white space `s` starts with. */
  function LeadingCount(s: string): (n: nat)
    ensures n <= |s|
  {
    if s != [] && IsWhitespace(s[0]) then 1 + LeadingCount(s[1..]) else 0
  }

  /** How many characters of white space `s` ends with. */
  function TrailingCount(s: string): (n: nat)
    ensures n <= |s|
  {
    if s != [] && IsWhitespace(s[|s| - 1]) then 1 + TrailingCount(s[..|s| - 1]) else 0
  }

  /** The leading run is white space and is as long as it can be. */
  lemma {:induction false} LeadingCountIsRun(s: string)
    ensures forall k :: 0 <= k < LeadingCount(s) ==> IsWhitespace(s[k])
    ensures LeadingCount(s) == |s| || !IsWhitespace(s[LeadingCount(s)])
  {
    if s != [] && IsWhitespace(s[0]) {
      LeadingCountIsRun(s[1..]);
      forall k | 0 < k < LeadingCount(s)
        ensures IsWhitespace(s[k])
      {
        assert s[k] == s[1..][k - 1];
      }
    }
  }

  /** The trailing run is white space and is as long as it can be. */
  lemma {:induction false} TrailingCountIsRun(s: string)
    ensures forall k :: |s| - TrailingCount(s) <= k < |s| ==> IsWhitespace(s[k])
    ensures TrailingCount(s) == |s| || !IsWhitespace(s[|s| - TrailingCount(s) - 1])
  {
    if s != [] && IsWhitespace(s[|s| - 1]) {
      var init := s[..|s| - 1];
      TrailingCountIsRun(init);
      forall k | |s| - TrailingCount(s) <= k < |s| - 1
        ensures IsWhitespace(s[k])
      {
        assert s[k] == init[k];
      }
      if TrailingCount(s) < |s| {
        assert s[|s| - TrailingCount(s) - 1] == init[|init| - TrailingCount(init) - 1];
      }
    }
  }

  /** `s` without its leading white space. */
  function TrimStart(s: string): (r: string)
    ensures |r| <= |s| && r == s[|s| - |r|..]
  {
    s[LeadingCount(s)..]
  }

  /** `s` without its trailing white space. */
  function TrimEnd(s: string): (r: string)
    ensures |r| <= |s| && r == s[..|r|]
  {
    s[..|s| - TrailingCount(s)]
  }

  /** `TrimStart` keeps the longest suffix that does not start with white space. */
  lemma TrimStartDrops(s: string)
    ensures forall k :: 0 <= k < |s| - |TrimStart(s)| ==> IsWhitespace(s[k])
    ensures TrimStart(s) == [] || !IsWhitespace(TrimStart(s)[0])
  {
    LeadingCountIsRun(s);
    if TrimStart(s) != [] {
      assert TrimStart(s)[0] == s[LeadingCount(s)];
    }
  }

  /** `TrimEnd` keeps the longest prefix that does not end with white space. */
  lemma TrimEndDrops(s: string)
    ensures forall k :: |TrimEnd(s)| <= k < |s| ==> IsWhitespace(s[k])
    ensures TrimEnd(s) == [] || !IsWhitespace(TrimEnd(s)[|TrimEnd(s)| - 1])
  {
    TrailingCountIsRun(s);
    var r := TrimEnd(s);
    if r != [] {
      assert r[|r| - 1] == s[|s| - TrailingCount(s) - 1];
    }
  }

  /** `String.prototype.trim`. */
  function Trim(s: string): string {
    TrimEnd(TrimStart(s))
  }

  /**
   * What `trim` keeps is one contiguous piece of `s`, starting where `TrimStart`
   * stopped, that neither starts nor ends with white space.
   */
  lemma TrimKeepsCore(s: string)
    ensures Trim(s) == [] || (!IsWhitespace(Trim(s)[0]) && !IsWhitespace(Trim(s)[|Trim(s)| - 1]))
    ensures |s| - |TrimStart(s)| + |Trim(s)| <= |s|
    ensures Trim(s) == s[|s| - |TrimStart(s)|..|s| - |TrimStart(s)| + |Trim(s)|]
  {
    var t := TrimStart(s);
    var r := TrimEnd(t);
    TrimStartDrops(s);
    TrimEndDrops(t);
    PrefixOfSuffix(s, t, r);
    if r != [] {
      assert r[0] == t[0];
    }
  }

  /** A prefix of a suffix of `s` is a slice of `s`. */
  lemma PrefixOfSuffix(s: string, t: string, r: string)
    requires |t| <= |s| && t == s[|s| - |t|..]
    requires |r| <= |t| && r == t[..|r|]
    ensures r == s[|s| - |t|..|s| - |t| + |r|]
  {
  }

  /** Everything `trim` drops, on either side of what it keeps, is white space. */
  lemma TrimDropsWhitespace(s: string)
    ensures AllWhitespace(s[..|s| - |TrimStart(s)|])
    ensures AllWhitespace(s[|s| - |TrimStart(s)| + |Trim(s)|..])
  {
    var t := TrimStart(s);
    var r := TrimEnd(t);
    TrimStartDrops(s);
    TrimEndDrops(t);
    assert s[|s| - |t| + |r|..] == t[|r|..];
  }

  /** A string made only of white space trims to the empty string. */
  lemma {:induction false} TrimAllWhitespace(s: string)
    requires AllWhitespace(s)
    ensures Trim(s) == ""
  {
    LeadingCountIsRun(s);
  }

  /** A string that neither starts nor ends with white space is left as it is. */
  lemma TrimNoOp(s: string)
    requires s == [] || (!IsWhitespace(s[0]) && !IsWhitespace(s[|s| - 1]))
    ensures Trim(s) == s
  {
    if s != [] {
      assert LeadingCount(s) == 0;
      assert TrailingCount(s) == 0;
    }
  }
}
