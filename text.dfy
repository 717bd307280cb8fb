/** The case-insensitive substring test behind the queries' `ILIKE '%text%'`. */
module Text {

  /** The upper-case letters the case fold knows: A-Z, А-Я and Ё. */
  predicate IsUpper(c: char) {
    'A' <= c <= 'Z' || 'А' <= c <= 'Я' || c == 'Ё'
  }

  /** `u` and `l` are the upper- and lower-case forms of one letter of A-Z,
      А-Я or Ё. */
  predicate CasePair(u: char, l: char) {
    || ('A' <= u <= 'Z' && l as int == u as int + 32)
    || ('А' <= u <= 'Я' && l as int == u as int + 32)
    || (u == 'Ё' && l == 'ё')
  }

  /** Lower-case mapping of one character: the Latin letters A-Z, the
      Cyrillic letters А-Я and Ё; every other character maps to itself.
      The result is never upper-case. */
  function Lower(c: char): (r: char)
    ensures !IsUpper(r)
    ensures !IsUpper(c) ==> r == c
  {
    if 'A' <= c <= 'Z' || 'А' <= c <= 'Я' then (c as int + 32) as char
    else if c == 'Ё' then 'ё'
    else c
  }

  /** Two characters lower-case alike exactly when they are equal or are the
      two cases of one letter: this is what the case-insensitive match
      relies on. */
  lemma LowerSame(c: char, d: char)
    ensures Lower(c) == Lower(d) <==> c == d || CasePair(c, d) || CasePair(d, c)
  {
  }

  /** Lower-casing twice is lower-casing once. */
  lemma LowerIdempotent(c: char)
    ensures Lower(Lower(c)) == Lower(c)
  {
  }

  /** The string with every character lower-cased. */
  function Fold(s: string): (r: string)
    ensures |r| == |s|
    ensures forall i :: 0 <= i < |s| ==> r[i] == Lower(s[i])
  {
    if s == [] then [] else [Lower(s[0])] + Fold(s[1..])
  }

  /** Does `s` begin with `p`? */
  function StartsWith(s: string, p: string): (b: bool)
    ensures b <==> |p| <= |s| && s[..|p|] == p
  {
    if p == [] then true
    else if s == [] then false
    else s[0] == p[0] && StartsWith(s[1..], p[1..])
  }

  /** `p` occurs in `s` starting at position `i`. */
  predicate OccursAt(s: string, p: string, i: int) {
    0 <= i && i + |p| <= |s| && s[i..i + |p|] == p
  }

  /** Does `p` occur somewhere in `s`? */
  function Contains(s: string, p: string): (b: bool)
    ensures b <==> exists i :: OccursAt(s, p, i)
  {
    if StartsWith(s, p) then
      assert OccursAt(s, p, 0);
      true
    else if s == [] then
      assert forall i :: !OccursAt(s, p, i);
      false
    else
      var b := Contains(s[1..], p);
      if b then
        var i :| OccursAt(s[1..], p, i);
        assert OccursAt(s, p, i + 1);
        b
      else
        assert forall i :: OccursAt(s, p, i) ==> i == 0 || OccursAt(s[1..], p, i - 1);
        b
  }

  /** `s` holds `p` at position `i`, character by character up to case. */
  predicate MatchesAt(s: string, p: string, i: int) {
    0 <= i && i + |p| <= |s| && forall k :: 0 <= k < |p| ==> Lower(s[i + k]) == Lower(p[k])
  }

  /** `ILIKE '%p%'`: `p` occurs in `s` when both are lower-cased. The
      wildcards `%` and `_` inside `p` are taken literally here. */
  function ILike(s: string, p: string): (b: bool)
    ensures b <==> exists i :: MatchesAt(s, p, i)
  {
    var b := Contains(Fold(s), Fold(p));
    if b then
      var i :| OccursAt(Fold(s), Fold(p), i);
      assert forall k :: 0 <= k < |p| ==> Fold(s)[i..i + |p|][k] == Fold(p)[k];
      assert MatchesAt(s, p, i);
      b
    else
      assert forall i :: MatchesAt(s, p, i) ==> OccursAt(Fold(s), Fold(p), i) by {
        forall i | MatchesAt(s, p, i) ensures OccursAt(Fold(s), Fold(p), i) {
          assert forall k :: 0 <= k < |p| ==> Fold(s)[i..i + |p|][k] == Fold(p)[k];
        }
      }
      b
  }

  /** The empty pattern `'%%'` matches every string. */
  lemma ILikeEmpty(s: string)
    ensures ILike(s, "")
  {
    assert OccursAt(Fold(s), Fold(""), 0);
  }

  /** A pattern that is already lower-cased matches the same strings. */
  lemma {:induction false} ILikeFoldedPattern(s: string, p: string)
    ensures ILike(s, Fold(p)) == ILike(s, p)
  {
    assert Fold(Fold(p)) == Fold(p) by {
      forall i | 0 <= i < |p| ensures Fold(Fold(p))[i] == Fold(p)[i] {
        LowerIdempotent(p[i]);
      }
    }
  }

  /** A string matches a pattern only if it holds, up to case, every
      character of the pattern. */
  lemma ILikeNeedsChar(s: string, p: string, k: int)
    requires 0 <= k < |p| && ILike(s, p)
    ensures exists i :: 0 <= i < |s| && Lower(s[i]) == Lower(p[k])
  {
    var i :| OccursAt(Fold(s), Fold(p), i);
    assert Fold(s)[i + k] == Fold(p)[k];
    assert Lower(s[i + k]) == Lower(p[k]);
  }

  /** A string matches every one of its substrings. */
  lemma ILikeSubstring(s: string, p: string, i: int)
    requires OccursAt(s, p, i)
    ensures ILike(s, p)
  {
    assert Fold(s)[i..i + |p|] == Fold(p);
    assert OccursAt(Fold(s), Fold(p), i);
  }

  /** The upper-case form of a lower-case Cyrillic letter а-я. */
  function UpperCyrillic(c: char): (r: char)
    requires 'а' <= c <= 'я'
    ensures 'А' <= r <= 'Я' && Lower(r) == c
  {
    (c as int - 32) as char
  }

  /** Only the letter itself and its upper-case form lower-case to a
      lower-case Cyrillic letter. */
  lemma LowerToCyrillic(c: char, d: char)
    requires 'а' <= d <= 'я'
    ensures Lower(c) == d <==> c == d || c == UpperCyrillic(d)
  {
  }

  /** A string holding a lower-case Cyrillic letter of the pattern in neither
      case does not match the pattern. */
  lemma ILikeMissingLetter(s: string, p: string, k: int)
    requires 0 <= k < |p| && 'а' <= p[k] <= 'я'
    requires p[k] !in s && UpperCyrillic(p[k]) !in s
    ensures !ILike(s, p)
  {
    forall i | 0 <= i < |s| ensures Lower(s[i]) != Lower(p[k]) {
      LowerToCyrillic(p[k], p[k]);
      LowerToCyrillic(s[i], p[k]);
    }
    if ILike(s, p) {
      ILikeNeedsChar(s, p, k);
    }
  }
}
