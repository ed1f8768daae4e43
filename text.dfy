/**
 * The two string operations the search widget relies on: `toLowerCase` and
 * `includes`. Lower-casing is modelled for ASCII letters only; every other
 * character is left as it is.
 */
module Text {

  predicate IsUpper(c: char) {
    'A' <= c <= 'Z'
  }

  /** ASCII lower-casing of one character. */
  function LowerChar(c: char): (r: char)
    ensures !IsUpper(r)
    ensures IsUpper(c) ==> r as int == c as int + 32
    ensures !IsUpper(c) ==> r == c
  {
    if IsUpper(c) then (c as int + 32) as char else c
  }

  /** `s.toLowerCase()`, character by character. */
  function Lower(s: string): (r: string)
    ensures |r| == |s|
    ensures forall i :: 0 <= i < |s| ==> r[i] == LowerChar(s[i])
  {
    if s == [] then [] else [LowerChar(s[0])] + Lower(s[1..])
  }

  /** Lower-casing twice is lower-casing once. */
  lemma {:induction false} LowerIdempotent(s: string)
    ensures Lower(Lower(s)) == Lower(s)
  {
    var once := Lower(s);
    forall i | 0 <= i < |once|
      ensures Lower(once)[i] == once[i]
    {
      assert !IsUpper(once[i]);
    }
  }

  /** `needle` occurs in `hay` starting at position `i`. */
  predicate OccursAt(hay: string, needle: string, i: nat) {
    i + |needle| <= |hay| && hay[i..i + |needle|] == needle
  }

  /** `hay.includes(needle)`: try every start position from the left. */
  function Contains(hay: string, needle: string): (r: bool)
    ensures needle == [] ==> r
    ensures r ==> |needle| <= |hay|
    decreases |hay|
  {
    needle <= hay || (hay != [] && Contains(hay[1..], needle))
  }

  /** `Contains` holds exactly when `needle` occurs somewhere in `hay`. */
  lemma {:induction false} ContainsIff(hay: string, needle: string)
    ensures Contains(hay, needle) <==> exists i: nat :: OccursAt(hay, needle, i)
    decreases |hay|
  {
    if needle <= hay {
      assert OccursAt(hay, needle, 0);
    } else if hay != [] {
      var tail := hay[1..];
      ContainsIff(tail, needle);
      if Contains(tail, needle) {
        var j: nat :| OccursAt(tail, needle, j);
        assert hay[j + 1..j + 1 + |needle|] == tail[j..j + |needle|];
        assert OccursAt(hay, needle, j + 1);
      }
      if exists i: nat :: OccursAt(hay, needle, i) {
        var i: nat :| OccursAt(hay, needle, i);
        if i > 0 {
          assert tail[i - 1..i - 1 + |needle|] == hay[i..i + |needle|];
          assert OccursAt(tail, needle, i - 1);
        }
      }
    }
  }

  /** A string that contains `needle` also contains every piece of it. */
  lemma {:induction false} ContainsPiece(hay: string, needle: string, a: nat, b: nat)
    requires a <= b <= |needle|
    requires Contains(hay, needle)
    ensures Contains(hay, needle[a..b])
  {
    ContainsIff(hay, needle);
    var i: nat :| OccursAt(hay, needle, i);
    forall k | 0 <= k < b - a ensures hay[i + a..i + b][k] == needle[a..b][k] {
      assert needle[a + k] == hay[i..i + |needle|][a + k];
    }
    assert OccursAt(hay, needle[a..b], i + a);
    ContainsIff(hay, needle[a..b]);
  }

  /** Every character of a contained string is a character of the text. */
  lemma {:induction false} ContainsHasChars(hay: string, needle: string)
    requires Contains(hay, needle)
    ensures forall c :: c in needle ==> c in hay
  {
    ContainsIff(hay, needle);
    var i: nat :| OccursAt(hay, needle, i);
    forall c | c in needle ensures c in hay {
      var k :| 0 <= k < |needle| && needle[k] == c;
      assert hay[i + k] == needle[k];
    }
  }

  /** Lower-casing distributes over concatenation. */
  lemma {:induction false} LowerAppend(s: string, t: string)
    ensures Lower(s + t) == Lower(s) + Lower(t)
  {
    var st := s + t;
    forall i | 0 <= i < |st| ensures Lower(st)[i] == (Lower(s) + Lower(t))[i] {
      if i >= |s| { assert st[i] == t[i - |s|]; }
    }
  }

  /**
   * A lower-case letter is missing from a lower-cased string when neither
   * its lower- nor its upper-case form occurs in the original.
   */
  lemma {:induction false} LetterNotInLower(s: string, c: char)
    requires 'a' <= c <= 'z'
    requires c !in s && (c as int - 32) as char !in s
    ensures c !in Lower(s)
  {
    forall i | 0 <= i < |s| ensures Lower(s)[i] != c {
      assert s[i] != c && s[i] != (c as int - 32) as char;
    }
  }

  /**
   * `hay.toLowerCase().includes(needle.toLowerCase())`: the lower-cased
   * needle occurs at some position of the lower-cased text.
   */
  predicate ContainsIgnoringCase(hay: string, needle: string): (r: bool)
    ensures needle == [] ==> r
    ensures r ==> |needle| <= |hay|
    ensures r <==> exists i: nat :: OccursAt(Lower(hay), Lower(needle), i)
  {
    ContainsIff(Lower(hay), Lower(needle));
    Contains(Lower(hay), Lower(needle))
  }

  /** A string contains itself, whatever its case. */
  lemma {:induction false} ContainsIgnoringCaseSelf(s: string)
    ensures ContainsIgnoringCase(s, s)
  {
    assert OccursAt(Lower(s), Lower(s), 0);
    ContainsIff(Lower(s), Lower(s));
  }

  /** A string contains, ignoring case, each of its own parts. */
  lemma {:induction false} ContainsIgnoringCasePart(head: string, part: string, rest: string)
    ensures ContainsIgnoringCase(head + part + rest, part)
  {
    LowerAppend(head, part);
    LowerAppend(head + part, rest);
    var hay := Lower(head + part + rest);
    assert hay[|head|..|head| + |part|] == Lower(part);
    assert OccursAt(hay, Lower(part), |head|);
    ContainsIff(hay, Lower(part));
  }
}
