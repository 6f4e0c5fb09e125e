/**
 * The identifier patterns of the plane and location controllers (`^[A-Z]{2}\d{5}$`,
 * `^[A-Z]{3}$`, matched with `Matcher.matches`): a fixed sequence of character classes
 * that the whole string must follow, one character per class.
 */
module IdPatterns {

  /** `[A-Z]` and `\d` (ASCII digits only: the patterns are compiled without UNICODE_CHARACTER_CLASS). */
  datatype CharClass = UpperLetter | AsciiDigit

  predicate InClass(c: char, k: CharClass) {
    match k
    case UpperLetter => 'A' <= c <= 'Z'
    case AsciiDigit => '0' <= c <= '9'
  }

  /** `k{n}`: the class repeated `n` times. */
  function Repeat(k: CharClass, n: nat): (p: seq<CharClass>)
    ensures |p| == n
    ensures forall i :: 0 <= i < n ==> p[i] == k
  {
    if n == 0 then [] else [k] + Repeat(k, n - 1)
  }

  /** `Pattern.compile("^" + p + "$").matcher(s).matches()`: consumed left to right, nothing left over. */
  predicate Matches(s: string, p: seq<CharClass>) {
    if p == [] then s == []
    else s != [] && InClass(s[0], p[0]) && Matches(s[1..], p[1..])
  }

  /** A match is a string of the pattern's length whose every character is in its class. */
  lemma {:induction false} MatchesIff(s: string, p: seq<CharClass>)
    ensures Matches(s, p) <==> |s| == |p| && forall i :: 0 <= i < |s| ==> InClass(s[i], p[i])
  {
    if p != [] && s != [] {
      MatchesIff(s[1..], p[1..]);
      if |s| == |p| && forall i :: 0 <= i < |s| ==> InClass(s[i], p[i]) {
        forall i | 0 <= i < |s| - 1
          ensures InClass(s[1..][i], p[1..][i])
        {
          assert s[1..][i] == s[i + 1] && p[1..][i] == p[i + 1];
        }
      }
      if Matches(s, p) {
        forall i | 0 <= i < |s|
          ensures InClass(s[i], p[i])
        {
          if i > 0 {
            assert s[1..][i - 1] == s[i] && p[1..][i - 1] == p[i];
          }
        }
      }
    }
  }

  /** The plane id pattern `[A-Z]{2}\d{5}` (the form XXYYYYY). */
  const PLANE_ID_PATTERN: seq<CharClass> := Repeat(UpperLetter, 2) + Repeat(AsciiDigit, 5)

  /** The location id pattern `[A-Z]{3}`. */
  const LOCATION_ID_PATTERN: seq<CharClass> := Repeat(UpperLetter, 3)

  /** A plane id is exactly two upper-case letters A-Z followed by five digits 0-9. */
  lemma PlaneIdShape(id: string)
    ensures Matches(id, PLANE_ID_PATTERN) <==>
      && |id| == 7
      && (forall i :: 0 <= i < 2 ==> 'A' <= id[i] <= 'Z')
      && (forall i :: 2 <= i < 7 ==> '0' <= id[i] <= '9')
  {
    MatchesIff(id, PLANE_ID_PATTERN);
    assert forall i :: 0 <= i < 2 ==> PLANE_ID_PATTERN[i] == UpperLetter;
    assert forall i :: 2 <= i < 7 ==> PLANE_ID_PATTERN[i] == AsciiDigit;
  }

  /** A location id is exactly three upper-case letters A-Z. */
  lemma LocationIdShape(id: string)
    ensures Matches(id, LOCATION_ID_PATTERN) <==> |id| == 3 && forall i :: 0 <= i < 3 ==> 'A' <= id[i] <= 'Z'
  {
    MatchesIff(id, LOCATION_ID_PATTERN);
  }
}
