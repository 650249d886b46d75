/** The few text operations the components rely on, over ASCII. */
module Text {

  predicate IsSpace(c: char) { c in " \t\n\r" }

  function LowerChar(c: char): char
  {
    if 'A' <= c <= 'Z' then (c as int + 32) as char else c
  }

  function Lower(s: string): (r: string)
    ensures |r| == |s|
  {
    seq(|s|, i requires 0 <= i < |s| => LowerChar(s[i]))
  }

  function StripLeft(s: string): string
  {
    if s != [] && IsSpace(s[0]) then StripLeft(s[1..]) else s
  }

  function Strip(s: string): string
    decreases |s|
  {
    var t := StripLeft(s);
    StripRight(t)
  }

  function StripRight(s: string): string
  {
    if s != [] && IsSpace(s[|s| - 1]) then StripRight(s[..|s| - 1]) else s
  }

  predicate Contains(s: string, part: string)
  {
    part <= s || (s != [] && Contains(s[1..], part))
  }

  predicate IsAlnum(c: char) { 'a' <= c <= 'z' || 'A' <= c <= 'Z' || '0' <= c <= '9' }

  lemma {:induction false} StripLeftDropsSpaces(s: string)
    ensures exists n :: 0 <= n <= |s| && StripLeft(s) == s[n..] && forall i :: 0 <= i < n ==> IsSpace(s[i])
    ensures StripLeft(s) != "" ==> !IsSpace(StripLeft(s)[0])
  {
    if s != [] && IsSpace(s[0]) {
      StripLeftDropsSpaces(s[1..]);
      var n :| 0 <= n <= |s[1..]| && StripLeft(s[1..]) == s[1..][n..] && forall i :: 0 <= i < n ==> IsSpace(s[1..][i]);
      assert StripLeft(s) == s[n + 1..];
      forall i | 0 <= i < n + 1 ensures IsSpace(s[i]) {
        if i > 0 {
          assert s[i] == s[1..][i - 1];
        }
      }
    } else {
      assert s[0..] == s;
    }
  }

  /** A text without spaces at its ends is left alone. */
  lemma CleanIsStripped(s: string)
    requires s != "" ==> !IsSpace(s[0]) && !IsSpace(s[|s| - 1])
    ensures Strip(s) == s
  {
  }

  /** The part starts at position i of the text. */
  predicate OccursAt(s: string, part: string, i: nat) { i <= |s| && part <= s[i..] }

  /** A text contains another exactly when the other starts somewhere in it. */
  lemma {:induction false} ContainsIff(s: string, part: string)
    ensures Contains(s, part) <==> exists i: nat :: OccursAt(s, part, i)
  {
    assert s[0..] == s;
    if Contains(s, part) {
      if part <= s {
        assert OccursAt(s, part, 0);
      } else {
        ContainsIff(s[1..], part);
        var i: nat :| OccursAt(s[1..], part, i);
        assert s[1..][i..] == s[i + 1..];
        assert OccursAt(s, part, i + 1);
      }
    }
    if i: nat :| OccursAt(s, part, i) {
      OccurrenceIsContained(s, part, i);
    }
  }

  lemma {:induction false} OccurrenceIsContained(s: string, part: string, i: nat)
    requires OccursAt(s, part, i)
    ensures Contains(s, part)
  {
    if i == 0 {
      assert s[0..] == s;
    } else {
      assert s[1..][i - 1..] == s[i..];
      OccurrenceIsContained(s[1..], part, i - 1);
    }
  }

  /** Blanks, tabs and line ends around a text are dropped. */
  lemma SpacesAreStripped(c: char, s: string)
    requires c == ' ' || c == '\t' || c == '\n' || c == '\r'
    requires s != "" && !IsSpace(s[0]) && !IsSpace(s[|s| - 1])
    ensures Strip([c] + s) == s && Strip(s + [c]) == s
  {
    CleanIsStripped(s);
    assert ([c] + s)[1..] == s && StripLeft([c] + s) == StripLeft(s);
    assert (s + [c])[0] == s[0] && StripLeft(s + [c]) == s + [c];
    assert (s + [c])[..|s|] == s && StripRight(s + [c]) == StripRight(s);
    assert StripLeft(s) == s && StripRight(s) == s;
  }
}
