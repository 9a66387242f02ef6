/**
 * Case-sensitive substring containment on strings, the test the placement
 * dispatch applies to a model's path (JavaScript's `String.prototype.includes`
 * called without a start position).
 */
module Text {

  /** `sub` occurs in `s` starting at index `i`. */
  ghost predicate IsAt(s: string, sub: string, i: int)
  {
    0 <= i && i + |sub| <= |s| && s[i..i + |sub|] == sub
  }

  /** `s.includes(sub)`: scans `s` from the left for a window equal to `sub`. */
  predicate Includes(s: string, sub: string)
    ensures sub == [] ==> Includes(s, sub)
    ensures Includes(s, sub) ==> |sub| <= |s|
    decreases |s|
  {
    |sub| <= |s| && (s[..|sub|] == sub || Includes(s[1..], sub))
  }

  /** The scan finds `sub` exactly when `sub` occurs at some index of `s`. */
  lemma {:induction false} IncludesIffOccurs(s: string, sub: string)
    ensures Includes(s, sub) <==> exists i :: IsAt(s, sub, i)
    decreases |s|
  {
    if |sub| > |s| {
      assert forall i :: !IsAt(s, sub, i);
    } else if s[..|sub|] == sub {
      assert IsAt(s, sub, 0);
    } else {
      IncludesIffOccurs(s[1..], sub);
      assert !IsAt(s, sub, 0);
      forall i | IsAt(s, sub, i + 1)
        ensures IsAt(s[1..], sub, i)
      {
        assert s[1..][i..i + |sub|] == s[i + 1..i + 1 + |sub|];
      }
      forall i | IsAt(s[1..], sub, i)
        ensures IsAt(s, sub, i + 1)
      {
        assert s[1..][i..i + |sub|] == s[i + 1..i + 1 + |sub|];
      }
      if exists i :: IsAt(s, sub, i) {
        var i :| IsAt(s, sub, i);
        assert i != 0;
        assert IsAt(s[1..], sub, i - 1);
      }
    }
  }

  /** A path built around `sub` includes it. */
  lemma IncludesInfix(pre: string, sub: string, post: string)
    ensures Includes(pre + sub + post, sub)
  {
    var s := pre + sub + post;
    assert s[|pre|..|pre| + |sub|] == sub;
    assert IsAt(s, sub, |pre|);
    IncludesIffOccurs(s, sub);
  }

  /** A path lacking some character of `sub` cannot include `sub`. */
  lemma MissingCharExcludes(s: string, sub: string, c: char)
    requires c in sub && c !in s
    ensures !Includes(s, sub)
  {
    IncludesIffOccurs(s, sub);
    forall i | 0 <= i && i + |sub| <= |s|
      ensures !IsAt(s, sub, i)
    {
      assert c !in s[i..i + |sub|];
    }
  }
}
