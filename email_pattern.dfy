/**
  The client-side address check `/^[^@\s]+@[^@\s]+\.[^@\s]+$/.test(s)`,
  shared by the register, login and add-employee forms. `Matches` follows
  the pattern's structure; `Shaped` describes the same strings character
  by character, and `MatchesIffShaped` proves the two agree.
*/
module EmailPattern {
  import opened Text

  /** The class `[^@\s]`. */
  predicate PartChar(c: char) {
    c != '@' && !IsSpace(c)
  }

  /** `[^@\s]+` matching the whole of `p`. */
  predicate Part(p: string) {
    |p| > 0 && forall k | 0 <= k < |p| :: PartChar(p[k])
  }

  /** The pattern matches with its '@' at index `i` and its literal '.' at index `j`. */
  predicate MatchesAt(s: string, i: int, j: int) {
    && 0 <= i < j < |s|
    && s[i] == '@' && s[j] == '.'
    && Part(s[..i]) && Part(s[i + 1..j]) && Part(s[j + 1..])
  }

  /** The anchored regular expression accepts `s`. */
  predicate Matches(s: string) {
    exists i, j | 0 <= i < j < |s| :: MatchesAt(s, i, j)
  }

  /**
    No whitespace anywhere, exactly one '@' and something before it, and
    after the '@' a '.' with at least one character on each side of it.
  */
  predicate Shaped(s: string) {
    && (forall k | 0 <= k < |s| :: !IsSpace(s[k]))
    && exists i | 0 < i < |s| ::
         && s[i] == '@'
         && (forall k | 0 <= k < |s| && k != i :: s[k] != '@')
         && exists j | i + 1 < j < |s| - 1 :: s[j] == '.'
  }

  lemma MatchesAtShaped(s: string, i: int, j: int)
    requires MatchesAt(s, i, j)
    ensures Shaped(s)
  {
    forall k | 0 <= k < |s| && k != i && k != j
      ensures PartChar(s[k])
    {
      if k < i {
        assert s[k] == s[..i][k];
      } else if k < j {
        assert s[k] == s[i + 1..j][k - i - 1];
      } else {
        assert s[k] == s[j + 1..][k - j - 1];
      }
    }
    assert 0 < i && i + 1 < j < |s| - 1;
  }

  lemma ShapedMatchesAt(s: string, i: int, j: int)
    requires forall k | 0 <= k < |s| :: !IsSpace(s[k])
    requires 0 < i < |s| && s[i] == '@'
    requires forall k | 0 <= k < |s| && k != i :: s[k] != '@'
    requires i + 1 < j < |s| - 1 && s[j] == '.'
    ensures MatchesAt(s, i, j)
  {
    var before, middle, after := s[..i], s[i + 1..j], s[j + 1..];
    assert forall k | 0 <= k < |before| :: before[k] == s[k];
    assert forall k | 0 <= k < |middle| :: middle[k] == s[i + 1 + k];
    assert forall k | 0 <= k < |after| :: after[k] == s[j + 1 + k];
  }

  /** The regular expression accepts exactly the shaped strings. */
  lemma MatchesIffShaped(s: string)
    ensures Matches(s) <==> Shaped(s)
  {
    if Matches(s) {
      var i, j :| 0 <= i < j < |s| && MatchesAt(s, i, j);
      MatchesAtShaped(s, i, j);
    }
    if Shaped(s) {
      var i :| 0 < i < |s| && s[i] == '@' && (forall k | 0 <= k < |s| && k != i :: s[k] != '@')
        && exists j | i + 1 < j < |s| - 1 :: s[j] == '.';
      var j :| i + 1 < j < |s| - 1 && s[j] == '.';
      ShapedMatchesAt(s, i, j);
    }
  }

  /** An accepted address is never blank, so a form's "required" check never fires after this one passed. */
  lemma MatchedIsNotBlank(s: string)
    ensures Matches(s) ==> !IsBlank(s)
  {
    if Matches(s) {
      var i, j :| 0 <= i < j < |s| && MatchesAt(s, i, j);
      assert s[..i][0] == s[0];
      BlankIffAllSpace(s);
    }
  }
}
