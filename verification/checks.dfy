/** The six structural checks a candidate password goes through
    (src/main.rs, lines 39-98).

    Each check is stated twice: as a predicate saying what it means (an
    existential over positions, or over adjacent pairs of positions), and as
    a method that scans the slice the way the source does, with an early
    exit on the first hit.  The methods' postconditions tie the two together
    in both directions. */
module Checks {
  import opened CharTables

  /** Some character of `pw` is listed in `table`. */
  predicate ContainsClass(pw: seq<char>, table: seq<char>) {
    exists i :: 0 <= i < |pw| && pw[i] in table
  }

  /** The same three questions asked by character range instead of by
      table: a digit other than 0 and 1, a lower-case letter other than 'l',
      an upper-case letter other than 'I' and 'O'. */
  predicate ContainsDigit(pw: seq<char>) {
    exists i :: 0 <= i < |pw| && IsDigitChar(pw[i])
  }

  predicate ContainsLower(pw: seq<char>) {
    exists i :: 0 <= i < |pw| && IsLowerChar(pw[i])
  }

  predicate ContainsUpper(pw: seq<char>) {
    exists i :: 0 <= i < |pw| && IsUpperChar(pw[i])
  }

  /** Some character of `pw` is '-' or '.'. */
  predicate ContainsSpecial(pw: seq<char>) {
    exists i :: 0 <= i < |pw| && IsSpecial(pw[i])
  }

  /** Two neighbouring characters are the same character; 'a' and 'A' differ. */
  predicate AdjacentRepeat(pw: seq<char>) {
    exists i :: 1 <= i < |pw| && pw[i] == pw[i-1]
  }

  /** The pair ("-", ".") or (".", "-"), read left to right. */
  predicate MorsePair(left: char, right: char) {
    (left == '-' && right == '.') || (left == '.' && right == '-')
  }

  /** Two neighbouring characters form a morse pair. */
  predicate AdjacentMorse(pw: seq<char>) {
    exists i :: 1 <= i < |pw| && MorsePair(pw[i-1], pw[i])
  }

  /** The scan shared by has_num, has_lower and has_upper: for every
      position, compare against every table entry, and stop on a match. */
  method ScanClass(pw: seq<char>, table: seq<char>) returns (found: bool)
    ensures found <==> ContainsClass(pw, table)
  {
    for i := 0 to |pw|
      invariant forall k :: 0 <= k < i ==> pw[k] !in table
    {
      for j := 0 to |table|
        invariant forall m :: 0 <= m < j ==> pw[i] != table[m]
      {
        if pw[i] == table[j] {
          return true;
        }
      }
    }
    return false;
  }

  method HasNum(pw: seq<char>) returns (found: bool)
    ensures found <==> ContainsClass(pw, Numbers)
    ensures found <==> ContainsDigit(pw)
    ensures |pw| == 0 ==> !found
  {
    found := ScanClass(pw, Numbers);
    forall i | 0 <= i < |pw| ensures pw[i] in Numbers <==> IsDigitChar(pw[i]) {
      NumbersByRange(pw[i]);
    }
  }

  method HasLower(pw: seq<char>) returns (found: bool)
    ensures found <==> ContainsClass(pw, Lowers)
    ensures found <==> ContainsLower(pw)
  {
    found := ScanClass(pw, Lowers);
    forall i | 0 <= i < |pw| ensures pw[i] in Lowers <==> IsLowerChar(pw[i]) {
      LowersByRange(pw[i]);
    }
  }

  method HasUpper(pw: seq<char>) returns (found: bool)
    ensures found <==> ContainsClass(pw, Uppers)
    ensures found <==> ContainsUpper(pw)
  {
    found := ScanClass(pw, Uppers);
    forall i | 0 <= i < |pw| ensures pw[i] in Uppers <==> IsUpperChar(pw[i]) {
      UppersByRange(pw[i]);
    }
  }

  method HasSpec(pw: seq<char>) returns (found: bool)
    ensures found <==> ContainsSpecial(pw)
  {
    for i := 0 to |pw|
      invariant forall k :: 0 <= k < i ==> !IsSpecial(pw[k])
    {
      if pw[i] == '-' || pw[i] == '.' {
        return true;
      }
    }
    return false;
  }

  /** The scan starts at position 1, so slices of length 0 or 1 never repeat. */
  method HasRepeat(pw: seq<char>) returns (found: bool)
    ensures found <==> AdjacentRepeat(pw)
    ensures |pw| <= 1 ==> !found
  {
    var i := 1;
    while i < |pw|
      invariant 1 <= i
      invariant forall k :: 1 <= k < i && k < |pw| ==> pw[k] != pw[k-1]
    {
      if pw[i] == pw[i-1] {
        return true;
      }
      i := i + 1;
    }
    return false;
  }

  method HasMorse(pw: seq<char>) returns (found: bool)
    ensures found <==> AdjacentMorse(pw)
    ensures |pw| <= 1 ==> !found
  {
    var i := 1;
    while i < |pw|
      invariant 1 <= i
      invariant forall k :: 1 <= k < i && k < |pw| ==> !MorsePair(pw[k-1], pw[k])
    {
      if (pw[i] == '.' && pw[i-1] == '-') || (pw[i] == '-' && pw[i-1] == '.') {
        return true;
      }
      i := i + 1;
    }
    return false;
  }

  /** A morse pair is made of special characters, so it implies has_spec;
      and it is never a repeat, because its two characters differ. */
  lemma MorseImpliesSpecial(pw: seq<char>)
    requires AdjacentMorse(pw)
    ensures ContainsSpecial(pw)
    ensures exists i :: 1 <= i < |pw| && pw[i] != pw[i-1]
  {
  }

  /** The repeat check compares characters exactly: an upper-case letter next
      to its own lower-case form is not a repeat, while two equal special
      characters are a repeat but not a morse pair. */
  lemma RepeatIsCaseSensitive()
    ensures !AdjacentRepeat(['x', 'X']) && !AdjacentRepeat(['B', 'b'])
    ensures AdjacentRepeat(['-', '-']) && !AdjacentMorse(['-', '-'])
  {
    var dd: seq<char> := ['-', '-'];
    assert dd[1] == dd[0];
  }
}
