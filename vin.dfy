/**
 VIN detection in agent.py: `re.search(r'\b[A-HJ-NPR-Z0-9]{17}\b', text)`.
 A match is a run of exactly 17 characters from the ISO 3779 alphabet
 (upper-case letters without I, O and Q, and digits) with a word boundary on
 each side; `re.search` reports the leftmost one.
 Word characters are taken to be the ASCII ones, `[A-Za-z0-9_]`.
 */
module VinMatch {
  import opened Outcomes

  const VIN_LENGTH := 17

  /** `[A-HJ-NPR-Z0-9]`. */
  predicate IsVinChar(c: char) {
    ('A' <= c <= 'H') || ('J' <= c <= 'N') || c == 'P' || ('R' <= c <= 'Z') || ('0' <= c <= '9')
  }

  /** `\w` on ASCII text. */
  predicate IsWordChar(c: char) {
    ('a' <= c <= 'z') || ('A' <= c <= 'Z') || ('0' <= c <= '9') || c == '_'
  }

  /** A text that is a whole VIN: 17 characters of the alphabet. */
  predicate WellFormedVin(v: string) {
    |v| == VIN_LENGTH && forall k :: 0 <= k < |v| ==> IsVinChar(v[k])
  }

  /** The pattern matches at index `i` of `s`. */
  predicate VinAt(s: string, i: int) {
    && 0 <= i && i + VIN_LENGTH <= |s|
    && (forall k :: i <= k < i + VIN_LENGTH ==> IsVinChar(s[k]))
    && (i == 0 || !IsWordChar(s[i - 1]))
    && (i + VIN_LENGTH == |s| || !IsWordChar(s[i + VIN_LENGTH]))
  }

  /** The leftmost match at or after index `from`. */
  function SearchFrom(s: string, from: nat): (r: Option<nat>)
    ensures r.Some? ==> from <= r.value && VinAt(s, r.value)
    ensures r.Some? ==> forall j :: from <= j < r.value ==> !VinAt(s, j)
    ensures r.None? ==> forall j :: from <= j ==> !VinAt(s, j)
    decreases |s| - from
  {
    if from + VIN_LENGTH > |s| then None
    else if VinAt(s, from) then Some(from)
    else SearchFrom(s, from + 1)
  }

  /** `re.search(vin_pattern, s)`: the start of the leftmost match, or None. */
  function Search(s: string): (r: Option<nat>)
    ensures r.Some? ==> VinAt(s, r.value) && forall j :: 0 <= j < r.value ==> !VinAt(s, j)
    ensures r.None? ==> forall j :: !VinAt(s, j)
  {
    SearchFrom(s, 0)
  }

  /** `match.group(0)`: the matched text. */
  function Token(s: string, i: nat): string
    requires VinAt(s, i)
  {
    s[i..i + VIN_LENGTH]
  }

  /**
   A detected VIN is a well-formed VIN: I, O, Q, lower-case letters and
   punctuation never appear in it, and it is never the empty text.
   */
  lemma TokenIsWellFormed(s: string, i: nat)
    requires VinAt(s, i)
    ensures WellFormedVin(Token(s, i))
    ensures forall k :: 0 <= k < VIN_LENGTH ==>
      Token(s, i)[k] !in "IOQ" && !('a' <= Token(s, i)[k] <= 'z')
  {
    forall k | 0 <= k < VIN_LENGTH ensures IsVinChar(Token(s, i)[k]) {
      assert Token(s, i)[k] == s[i + k];
    }
  }

  /** A well-formed VIN standing alone is matched at its first character. */
  lemma WholeVinMatches(v: string)
    requires WellFormedVin(v)
    ensures Search(v) == Some(0)
  {
    assert VinAt(v, 0);
  }

  /**
   A well-formed VIN after a separator is the match when the text before the
   separator holds none.
   */
  lemma VinAfterPrefix(prefix: string, sep: char, v: string)
    requires WellFormedVin(v) && !IsWordChar(sep)
    requires Search(prefix) == None
    ensures Search(prefix + [sep] + v) == Some(|prefix| + 1)
  {
    var s := prefix + [sep] + v;
    var i := |prefix| + 1;
    forall k | i <= k < i + VIN_LENGTH ensures IsVinChar(s[k]) {
      assert s[k] == v[k - i];
    }
    assert VinAt(s, i);
    forall j | 0 <= j < i ensures !VinAt(s, j) {
      if j + VIN_LENGTH > |prefix| {
        assert s[|prefix|] == sep;
      } else {
        assert !VinAt(prefix, j);
        assert forall k :: 0 <= k < |prefix| ==> s[k] == prefix[k];
      }
    }
  }

  /**
   The boundaries make the count exact: a run of 18 alphabet characters holds
   no match, although each 17-character part of it is well formed.
   */
  lemma LongerRunHasNoMatch(s: string)
    requires |s| == VIN_LENGTH + 1
    requires forall k :: 0 <= k < |s| ==> IsVinChar(s[k])
    ensures Search(s) == None
  {
    forall j ensures !VinAt(s, j) {
      if j == 0 {
        assert IsVinChar(s[VIN_LENGTH]);
      } else if j == 1 {
        assert IsVinChar(s[0]);
      }
    }
  }
}
