/** File suffixes of adaptive state keys. */
module AdaptiveKeys {
  import opened Text

  function SafeChar(c: char): char
  {
    if IsAlnum(c) || c in "._-" then c else '_'
  }

  function SafeText(key: string): (r: string)
    ensures |r| == |key|
    ensures forall i :: 0 <= i < |r| ==> r[i] == SafeChar(key[i])
  {
    seq(|key|, i requires 0 <= i < |key| => SafeChar(key[i]))
  }

  /** The part of a state or log file name that a state key contributes. */
  function SafeKeySuffix(stateKey: string): string
  {
    var stripped := Lower(Strip(if stateKey == "" then "global" else stateKey));
    var key := if stripped == "" then "global" else stripped;
    if key == "global" then "global"
    else if |key| <= 64 then SafeText(key)
    else SafeText(key)[..64]
  }

  lemma SpacedKeySuffix()
    ensures SafeKeySuffix("a b") == "a_b"
  {
    assert Lower("a b") == "a b" && Strip("a b") == "a b" && SafeText("a b") == "a_b";
  }

  lemma CapitalKeySuffix()
    ensures SafeKeySuffix("A_b") == "a_b"
  {
    assert Lower("A_b") == "a_b" && Strip("A_b") == "A_b" && SafeText("a_b") == "a_b";
  }

  /** Two different keys that share one state file. */
  lemma DistinctKeysCanShareState()
    ensures SafeKeySuffix("a b") == SafeKeySuffix("A_b") == "a_b"
  {
    SpacedKeySuffix();
    CapitalKeySuffix();
  }

  predicate IsSafe(c: char) { IsAlnum(c) || c in "._-" }

  /** A file suffix is never empty, holds at most 64 characters, and only safe ones. */
  lemma SuffixIsSafe(stateKey: string)
    ensures 0 < |SafeKeySuffix(stateKey)| <= 64
    ensures forall c :: c in SafeKeySuffix(stateKey) ==> IsSafe(c) || c == '_'
  {
    assert forall c :: c in "global" ==> IsAlnum(c);
  }

  /** A key that is lower-case, safe and short enough already. */
  predicate IsClean(stateKey: string)
  {
    0 < |stateKey| <= 64 && Lower(stateKey) == stateKey && forall i :: 0 <= i < |stateKey| ==> IsSafe(stateKey[i])
  }

  lemma SafeTextKeepsSafe(key: string)
    requires forall i :: 0 <= i < |key| ==> IsSafe(key[i])
    ensures SafeText(key) == key
  {
  }

  lemma SafeIsNoSpace(c: char)
    requires IsSafe(c)
    ensures !IsSpace(c)
  {
  }

  /** Clean keys are their own suffix, so different ones never share a file. */
  lemma CleanKeysAreKept(stateKey: string)
    requires IsClean(stateKey)
    ensures SafeKeySuffix(stateKey) == stateKey
  {
    SafeIsNoSpace(stateKey[0]);
    SafeIsNoSpace(stateKey[|stateKey| - 1]);
    CleanIsStripped(stateKey);
    SafeTextKeepsSafe(stateKey);
  }

  /** Longer keys are cut at 64 characters, so two that differ only later share a file. */
  lemma LongKeysAreCut(stateKey: string)
    requires |stateKey| > 64 && Lower(stateKey) == stateKey && forall i :: 0 <= i < |stateKey| ==> IsSafe(stateKey[i])
    ensures SafeKeySuffix(stateKey) == stateKey[..64]
  {
    SafeIsNoSpace(stateKey[0]);
    SafeIsNoSpace(stateKey[|stateKey| - 1]);
    CleanIsStripped(stateKey);
    SafeTextKeepsSafe(stateKey);
  }
}
