/**
 * The two string operations the search filter relies on: lower-casing
 * (`String.prototype.toLowerCase`, restricted here to ASCII letters) and
 * substring search (`String.prototype.includes`).
 */
module Text {

  /** 'A'..'Z' become 'a'..'z'; every other character is left as it is. */
  function LowerChar(c: char): char
  {
    if 'A' <= c <= 'Z' then (c as int + 32) as char else c
  }

  /** No ASCII upper-case letter occurs in `s`. */
  predicate IsLowerCase(s: string)
  {
    forall i :: 0 <= i < |s| ==> !('A' <= s[i] <= 'Z')
  }

  /** The lower-cased copy of `s`: same length, each character mapped on its own. */
  function Lower(s: string): (r: string)
    ensures |r| == |s|
    ensures IsLowerCase(r)
    ensures forall i :: 0 <= i < |s| ==> r[i] == LowerChar(s[i])
  {
    if s == [] then [] else [LowerChar(s[0])] + Lower(s[1..])
  }

  /** Lower-casing twice is lower-casing once. */
  lemma LowerIdempotent(s: string)
    ensures Lower(Lower(s)) == Lower(s)
  {
    LowerKeepsLowerCase(Lower(s));
  }

  /** A string without upper-case letters is its own lower-cased copy. */
  lemma {:induction false} LowerKeepsLowerCase(s: string)
    requires IsLowerCase(s)
    ensures Lower(s) == s
  {
    if s != [] {
      LowerKeepsLowerCase(s[1..]);
    }
  }

  /** `needle` occurs in `hay` starting at position `i`. */
  ghost predicate OccursAt(hay: string, needle: string, i: int)
  {
    0 <= i && i + |needle| <= |hay| && hay[i..i + |needle|] == needle
  }

  /** `needle` occurs somewhere in `hay`. */
  ghost predicate OccursIn(hay: string, needle: string)
  {
    exists i :: OccursAt(hay, needle, i)
  }

  /** `hay.includes(needle)`: tries every start position from the left. */
  function Includes(hay: string, needle: string): bool
    decreases |hay|
  {
    if |needle| > |hay| then false
    else if hay[..|needle|] == needle then true
    else Includes(hay[1..], needle)
  }

  /** A slice of the tail is the slice of the whole shifted by one. */
  lemma TailSlice(hay: string, i: nat, n: nat)
    requires i + n < |hay|
    ensures hay[1..][i..i + n] == hay[i + 1..i + 1 + n]
  {
  }

  /** `Includes` holds exactly when the needle occurs at some position of the haystack. */
  lemma {:induction false} IncludesIffOccurs(hay: string, needle: string)
    ensures Includes(hay, needle) <==> OccursIn(hay, needle)
    decreases |hay|
  {
    if |needle| > |hay| {
      forall i ensures !OccursAt(hay, needle, i) { }
    } else if hay[..|needle|] == needle {
      assert OccursAt(hay, needle, 0);
    } else {
      IncludesIffOccurs(hay[1..], needle);
      if Includes(hay[1..], needle) {
        var i :| OccursAt(hay[1..], needle, i);
        TailSlice(hay, i, |needle|);
        assert OccursAt(hay, needle, i + 1);
      } else {
        forall i ensures !OccursAt(hay, needle, i) {
          if 0 < i && i + |needle| <= |hay| {
            TailSlice(hay, i - 1, |needle|);
            assert !OccursAt(hay[1..], needle, i - 1);
          }
        }
      }
    }
  }

  /** The empty string is included in every string. */
  lemma EmptyIncluded(hay: string)
    ensures Includes(hay, "")
  {
    assert hay[..0] == "";
  }

  /** A needle holding a character that the haystack lacks is not included in it. */
  lemma MissingCharNotIncluded(hay: string, needle: string, c: char)
    requires c in needle && c !in hay
    ensures !Includes(hay, needle)
  {
    IncludesIffOccurs(hay, needle);
    var k :| 0 <= k < |needle| && needle[k] == c;
    forall i ensures !OccursAt(hay, needle, i) {
      if 0 <= i && i + |needle| <= |hay| {
        assert hay[i..i + |needle|][k] == hay[i + k];
        assert hay[i + k] in hay;
      }
    }
  }

  /** A lower-case letter that occurs in neither case in `s` does not occur in `Lower(s)`. */
  lemma LowerLacksLetter(s: string, c: char)
    requires 'a' <= c <= 'z'
    requires c !in s && (c as int - 32) as char !in s
    ensures c !in Lower(s)
  {
    forall i | 0 <= i < |s| ensures Lower(s)[i] != c {
      assert s[i] in s;
    }
  }
}
