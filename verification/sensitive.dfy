/**
 * The sensitive-word check. The word matcher the service calls is not part of
 * this model; it is taken to report exactly the non-empty dictionary terms
 * that occur in the text as contiguous substrings, with no normalisation.
 */
module Sensitive {
  import opened Types
  import opened Extraction

  /** `w` occurs in `text` starting at offset `i`. */
  predicate OccursAt(w: string, text: string, i: int)
  {
    0 <= i && i + |w| <= |text| && text[i..i + |w|] == w
  }

  /** `w` occurs in `text` as a contiguous substring. */
  predicate Occurs(w: string, text: string)
  {
    exists i :: 0 <= i <= |text| - |w| && OccursAt(w, text, i)
  }

  /** The dictionary terms the matcher reports for `text` (the keys of its result map). */
  function MatchWords(dictionary: seq<string>, text: string): (hits: set<string>)
    ensures forall w :: w in hits <==> w in dictionary && w != "" && Occurs(w, text)
  {
    set w | w in dictionary && w != "" && Occurs(w, text)
  }

  /** A term found in a piece of a text is found in the whole text. */
  lemma OccursInContext(w: string, a: string, m: string, c: string)
    requires Occurs(w, m)
    ensures Occurs(w, a + m + c)
  {
    var i :| 0 <= i <= |m| - |w| && OccursAt(w, m, i);
    var t := a + m + c;
    assert t[|a| + i..|a| + i + |w|] == m[i..i + |w|];
    assert OccursAt(w, t, |a| + i);
  }

  /** The matcher reports nothing on an empty text, whatever the dictionary. */
  lemma NothingMatchesEmptyText(dictionary: seq<string>)
    ensures MatchWords(dictionary, "") == {}
  {
  }

  /**
   * Adding terms to the dictionary, or text around the checked text, can
   * only add to what the matcher reports.
   */
  lemma {:induction false} MatchWordsMonotone(small: seq<string>, large: seq<string>, a: string, m: string, c: string)
    requires forall w :: w in small ==> w in large
    ensures MatchWords(small, m) <= MatchWords(large, a + m + c)
  {
    forall w | w in MatchWords(small, m)
      ensures w in MatchWords(large, a + m + c)
    {
      OccursInContext(w, a, m, c);
    }
  }

  /**
   * A dictionary term inside any one "text" segment of a body is reported on the
   * extracted plain text, so that body fails the check.
   */
  lemma HitInTextSegment(dictionary: seq<string>, body: seq<Segment>, k: int, w: string)
    requires 0 <= k < |body| && body[k].kind == "text"
    requires w in dictionary && w != "" && Occurs(w, body[k].value)
    ensures w in MatchWords(dictionary, BodyText(body))
  {
    TextSegmentInBodyText(body, k);
    var a, c :| BodyText(body) == a + body[k].value + c;
    OccursInContext(w, a, body[k].value, c);
  }
}
