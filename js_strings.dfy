/**
  The two JavaScript string built-ins the monster search relies on:
  `String.prototype.toLocaleLowerCase` (modelled as ASCII lower-casing) and
  `String.prototype.includes` (substring containment from position 0).
 */
module JsStrings {

  predicate IsUpperChar(c: char) {
    'A' <= c <= 'Z'
  }

  /** Lower-cases one character: the ASCII capitals map to their small letters, every other character is kept. */
  function LowerChar(c: char): (r: char)
    ensures !IsUpperChar(r)
    ensures IsUpperChar(c) ==> r as int == c as int + 32 && 'a' <= r <= 'z'
    ensures !IsUpperChar(c) ==> r == c
  {
    if IsUpperChar(c) then (c as int + 32) as char else c
  }

  /** A string in which no character changes under lower-casing. */
  predicate IsLowerCase(s: string) {
    forall i :: 0 <= i < |s| ==> !IsUpperChar(s[i])
  }

  /** `s.toLocaleLowerCase()`: the string of the same length whose every character is lower-cased. */
  function Lower(s: string): (r: string)
    ensures |r| == |s|
    ensures IsLowerCase(r)
    ensures forall i :: 0 <= i < |s| && IsUpperChar(s[i]) ==> r[i] as int == s[i] as int + 32
    ensures forall i :: 0 <= i < |s| && !IsUpperChar(s[i]) ==> r[i] == s[i]
  {
    seq(|s|, i requires 0 <= i < |s| => LowerChar(s[i]))
  }

  /** Lower-casing leaves a lower-case string unchanged. */
  lemma LowerOfLowerCase(s: string)
    requires IsLowerCase(s)
    ensures Lower(s) == s
  {
    assert forall i :: 0 <= i < |s| ==> Lower(s)[i] == s[i];
  }

  /** Lower-casing is idempotent. */
  lemma LowerIdempotent(s: string)
    ensures Lower(Lower(s)) == Lower(s)
  {
    LowerOfLowerCase(Lower(s));
  }

  /** Lower-casing distributes over concatenation: typing more characters extends the lower-cased term. */
  lemma LowerAppend(s: string, t: string)
    ensures Lower(s + t) == Lower(s) + Lower(t)
  {
    assert forall i :: 0 <= i < |s + t| ==> Lower(s + t)[i] == (Lower(s) + Lower(t))[i];
  }

  /** `needle` occurs in `hay` starting at index `i`. */
  ghost predicate OccursAt(hay: string, needle: string, i: int) {
    0 <= i && i + |needle| <= |hay| && hay[i..i + |needle|] == needle
  }

  /** Reference definition of substring containment. */
  ghost predicate IsSubstring(hay: string, needle: string) {
    exists i :: OccursAt(hay, needle, i)
  }

  /** `hay.includes(needle)`: scans `hay` from the left for a position where `needle` starts. */
  function Includes(hay: string, needle: string): bool
    decreases |hay|
  {
    if needle <= hay then true
    else if hay == [] then false
    else Includes(hay[1..], needle)
  }

  /** `Includes` is exactly substring containment, in both directions. */
  lemma {:induction false} IncludesIsSubstring(hay: string, needle: string)
    ensures Includes(hay, needle) <==> IsSubstring(hay, needle)
    decreases |hay|
  {
    if needle <= hay {
      assert OccursAt(hay, needle, 0);
    } else if hay != [] {
      IncludesIsSubstring(hay[1..], needle);
      if IsSubstring(hay[1..], needle) {
        var i :| OccursAt(hay[1..], needle, i);
        OccursInTail(hay, needle, i);
      }
      if IsSubstring(hay, needle) {
        var i :| OccursAt(hay, needle, i);
        if i != 0 {
          OccursInTail(hay, needle, i - 1);
        }
      }
    }
  }

  /** An occurrence in the tail is an occurrence in the whole string one position later. */
  lemma OccursInTail(hay: string, needle: string, i: int)
    requires hay != [] && 0 <= i
    ensures OccursAt(hay[1..], needle, i) <==> OccursAt(hay, needle, i + 1)
  {
    if i + |needle| <= |hay| - 1 {
      assert hay[i + 1..i + 1 + |needle|] == hay[1..][i..i + |needle|];
    }
  }

  /** Every string includes the empty string, so an empty search term matches every name. */
  lemma IncludesEmpty(hay: string)
    ensures Includes(hay, "")
  {
  }

  /** A string includes itself. */
  lemma IncludesSelf(s: string)
    ensures Includes(s, s)
  {
  }

  /** Containment is transitive: a term inside a longer term is inside every name that holds the longer one. */
  lemma {:induction false} IncludesTransitive(hay: string, mid: string, needle: string)
    requires Includes(hay, mid) && Includes(mid, needle)
    ensures Includes(hay, needle)
  {
    IncludesIsSubstring(hay, mid);
    IncludesIsSubstring(mid, needle);
    var i :| OccursAt(hay, mid, i);
    var j :| OccursAt(mid, needle, j);
    forall k | 0 <= k < |needle|
      ensures hay[i + j..i + j + |needle|][k] == needle[k]
    {
      assert hay[i..i + |mid|][j + k] == mid[j + k];
      assert mid[j..j + |needle|][k] == needle[k];
    }
    assert OccursAt(hay, needle, i + j);
    IncludesIsSubstring(hay, needle);
  }

  /** A two-character needle is included only where its two characters stand side by side. */
  lemma NotIncludesPair(hay: string, a: char, b: char)
    requires forall i :: 0 <= i < |hay| - 1 ==> hay[i] != a || hay[i + 1] != b
    ensures !Includes(hay, [a, b])
  {
    IncludesIsSubstring(hay, [a, b]);
    forall i | 0 <= i && i + 2 <= |hay|
      ensures !OccursAt(hay, [a, b], i)
    {
      assert hay[i..i + 2][0] == hay[i] && hay[i..i + 2][1] == hay[i + 1];
    }
  }

  /** A prefix of a string is included in it: the typed term so far is inside the term after more keystrokes. */
  lemma IncludesPrefix(s: string, t: string)
    ensures Includes(s + t, s)
  {
    assert s <= s + t;
  }
}
