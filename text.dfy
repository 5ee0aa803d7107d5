/** Case-insensitive substring search, as QString::contains(..., Qt::CaseInsensitive)
    is used on the Type setting and on window class names. Case folding is ASCII only. */
module Text {

  /** ASCII lower-casing of one character; every other character is left alone. */
  function LowerChar(c: char): char {
    if 'A' <= c <= 'Z' then (c as int + 32) as char else c
  }

  /** The string with every ASCII capital replaced by its small letter. */
  function Lower(s: string): (r: string) {
    seq(|s|, i requires 0 <= i < |s| => LowerChar(s[i]))
  }

  /** `t` occurs in `s` starting at position `i`. */
  ghost predicate MatchAt(s: string, t: string, i: nat) {
    i + |t| <= |s| && s[i..i + |t|] == t
  }

  /** `t` occurs somewhere in `s`; the empty string occurs in every string, as in Qt. */
  ghost predicate Contains(s: string, t: string) {
    exists i: nat :: MatchAt(s, t, i)
  }

  /** `t` occurs in `s` when case is ignored. */
  ghost predicate ContainsCI(s: string, t: string) {
    Contains(Lower(s), Lower(t))
  }

  /** The search QString::contains performs: every start position is tried in turn. */
  method ContainsIgnoringCase(s: string, t: string) returns (found: bool)
    ensures found == ContainsCI(s, t)
  {
    var hay := Lower(s);
    var needle := Lower(t);
    var i := 0;
    while i + |needle| <= |hay|
      invariant forall j: nat :: j < i ==> !MatchAt(hay, needle, j)
      decreases |hay| - i
    {
      if hay[i..i + |needle|] == needle {
        assert MatchAt(hay, needle, i);
        return true;
      }
      i := i + 1;
    }
    return false;
  }

  /** A needle that equals the window-class text up to case is found in it. */
  lemma ContainsItselfIgnoringCase(s: string, t: string)
    requires Lower(s) == Lower(t)
    ensures ContainsCI(s, t)
  {
    assert MatchAt(Lower(s), Lower(t), 0);
  }
}
