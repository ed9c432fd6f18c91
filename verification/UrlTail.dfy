// splitUrlTail of src/ui/components/markdownRender.ts: punctuation and unbalanced closing
// parentheses are trimmed off the end of an autolinked URL.
module UrlTail {

  predicate IsEntity(s: string) {
    "&lt;" <= s || "&gt;" <= s || "&quot;" <= s || "&#39;" <= s
  }

  // The URL ends at the first escaped bracket or quote, at the latest.
  ghost predicate IsLimit(url: string, end: nat) {
    && end <= |url|
    && (forall k :: 0 <= k < end ==> !IsEntity(url[k..]))
    && (end < |url| ==> IsEntity(url[end..]))
  }

  function Count(s: string, c: char): nat {
    if s == "" then 0 else Count(s[..|s| - 1], c) + if s[|s| - 1] == c then 1 else 0
  }

  predicate IsPunctuation(c: char) {
    c in ".,;:!?*_~"
  }

  // The last character does not belong to the URL.
  predicate EndsBadly(core: string) {
    core != "" &&
    var last := core[|core| - 1];
    IsPunctuation(last) || (last == ')' && Count(core, '(') < Count(core, ')'))
  }

  // The longest prefix within the limit that does not end badly.
  ghost predicate IsCore(url: string, core: string, limit: nat) {
    && core <= url && |core| <= limit <= |url|
    && !EndsBadly(core)
    && (forall k :: |core| < k <= limit ==> EndsBadly(url[..k]))
  }

  lemma BadIsNotEmpty(core: string)
    ensures EndsBadly(core) ==> core != ""
  {}

  method SplitUrlTail(url: string) returns (core: string, tail: string, ghost limit: nat)
    ensures url == core + tail
    ensures IsLimit(url, limit) && IsCore(url, core, limit)
  {
    hide Count, EndsBadly, IsEntity;
    var end := 0;
    while end < |url| && !IsEntity(url[end..])
      invariant 0 <= end <= |url|
      invariant forall k :: 0 <= k < end ==> !IsEntity(url[k..])
    {
      end := end + 1;
    }
    limit := end;
    core := url[..end];
    while EndsBadly(core)
      invariant |core| <= limit && core == url[..|core|]
      invariant forall k :: |core| < k <= limit ==> EndsBadly(url[..k])
      decreases |core|
    {
      BadIsNotEmpty(core);
      core := core[..|core| - 1];
    }
    tail := url[|core|..];
  }

  // There is only one such prefix.
  lemma CoreIsUnique(url: string, a: string, b: string, limit: nat)
    requires IsCore(url, a, limit) && IsCore(url, b, limit)
    ensures a == b
  {
    hide EndsBadly;
    assert a == url[..|a|] && b == url[..|b|];
  }
}
