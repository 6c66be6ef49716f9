/** The fixed character tables the generator draws from (src/main.rs, lines 6-27).

    Each table is an ordered sequence because the generator indexes it with a
    random position; the predicates below describe the same tables by
    character range, independently of the literal listing, so that the rest
    of the model can reason about "a digit" or "a lower-case letter" without
    enumerating the tables. */
module CharTables {

  /** Digits, without the confusable '0' and '1'. */
  const Numbers: seq<char> := ['2','3','4','5','6','7','8','9']

  /** Lower-case letters, without the confusable 'l'. */
  const Lowers: seq<char> := [
    'a','b','c','d','e','f','g','h','i','j','k','m',
    'n','o','p','q','r','s','t','u','v','w','x','y','z'
  ]

  /** Upper-case letters, without the confusable 'I' and 'O'. */
  const Uppers: seq<char> := [
    'A','B','C','D','E','F','G','H','J','K','L','M',
    'N','P','Q','R','S','T','U','V','W','X','Y','Z'
  ]

  /** Every character an interior position may receive, listed as in the source. */
  const AllLetters: seq<char> := [
    'a','b','c','d','e','f','g','h','i','j','k','m',
    'n','o','p','q','r','s','t','u','v','w','x','y','z',
    'A','B','C','D','E','F','G','H','J','K','L','M',
    'N','P','Q','R','S','T','U','V','W','X','Y','Z',
    '.','-',
    '2','3','4','5','6','7','8','9'
  ]

  /** The two special characters the generator knows about. */
  predicate IsSpecial(c: char) {
    c == '-' || c == '.'
  }

  /** Range descriptions of the three letter/digit tables. */
  predicate IsDigitChar(c: char) {
    '2' <= c <= '9'
  }

  predicate IsLowerChar(c: char) {
    'a' <= c <= 'z' && c != 'l'
  }

  predicate IsUpperChar(c: char) {
    'A' <= c <= 'Z' && c != 'I' && c != 'O'
  }

  /** True when no character occurs twice in `s`, so that a uniform index
      into `s` is a uniform choice of character. */
  predicate Distinct(s: seq<char>) {
    forall i, j :: 0 <= i < j < |s| ==> s[i] != s[j]
  }

  predicate StrictlyIncreasing(s: seq<char>) {
    forall i :: 0 < i < |s| ==> s[i-1] < s[i]
  }

  lemma {:induction false} IncreasingIsDistinct(s: seq<char>)
    requires StrictlyIncreasing(s)
    ensures Distinct(s)
    ensures forall i :: 0 <= i < |s| ==> s[0] <= s[i] <= s[|s|-1]
  {
    if |s| > 1 {
      var t := s[1..];
      assert StrictlyIncreasing(t) by {
        forall i | 0 < i < |t| ensures t[i-1] < t[i] {
          assert t[i-1] == s[i] && t[i] == s[i+1];
        }
      }
      IncreasingIsDistinct(t);
      forall i | 0 <= i < |s| ensures s[0] <= s[i] {
        if i > 0 { assert s[i] == t[i-1]; }
      }
      forall i | 0 <= i < |s| ensures s[i] <= s[|s|-1] {
        if i > 0 { assert s[i] == t[i-1]; }
      }
      forall i, j | 0 <= i < j < |s| ensures s[i] != s[j] {
        if i > 0 {
          assert s[i] == t[i-1] && s[j] == t[j-1];
        } else {
          assert s[0] < s[1] <= s[j] by { assert s[1] == t[0] && s[j] == t[j-1]; }
        }
      }
    }
  }

  lemma NumbersByRange(c: char)
    ensures c in Numbers <==> IsDigitChar(c)
  {
  }

  lemma LowersByRange(c: char)
    ensures c in Lowers <==> IsLowerChar(c)
  {
  }

  lemma UppersByRange(c: char)
    ensures c in Uppers <==> IsUpperChar(c)
  {
  }

  lemma AllLettersLowerPart()
    ensures forall i :: 0 <= i < 25 ==> AllLetters[i] == Lowers[i]
  {
  }

  lemma AllLettersUpperPart()
    ensures forall i :: 0 <= i < 24 ==> AllLetters[25 + i] == Uppers[i]
  {
  }

  lemma AllLettersTail()
    ensures AllLetters[49..] == ['.', '-'] + Numbers
  {
  }

  /** The interior table is exactly the other three tables plus the two
      special characters, in that order: 25 + 24 + 2 + 8 = 59 entries. */
  lemma AllLettersComposition()
    ensures AllLetters == Lowers + Uppers + ['.', '-'] + Numbers
    ensures |Lowers| == 25 && |Uppers| == 24 && |Numbers| == 8 && |AllLetters| == 59
  {
    AllLettersLowerPart();
    AllLettersUpperPart();
    AllLettersTail();
    var joined := Lowers + Uppers + ['.', '-'] + Numbers;
    forall i | 0 <= i < 59 ensures AllLetters[i] == joined[i] {
      if i >= 49 {
        assert AllLetters[i] == AllLetters[49..][i - 49];
      } else if i >= 25 {
        assert AllLetters[25 + (i - 25)] == Uppers[i - 25];
      }
    }
  }

  /** Membership in the interior table, by character class. */
  lemma AllLettersByClass(c: char)
    ensures c in AllLetters <==> IsLowerChar(c) || IsUpperChar(c) || IsSpecial(c) || IsDigitChar(c)
  {
    AllLettersComposition();
    LowersByRange(c);
    UppersByRange(c);
    NumbersByRange(c);
    assert c in AllLetters <==> c in Lowers || c in Uppers || c in ['.', '-'] || c in Numbers;
  }

  /** None of the visually confusable characters can ever be generated. */
  lemma ConfusablesExcluded()
    ensures forall c :: c in ['0', '1', 'l', 'I', 'O'] ==>
      c !in Numbers && c !in Lowers && c !in Uppers && c !in AllLetters
  {
    forall c | c in ['0', '1', 'l', 'I', 'O']
      ensures c !in Numbers && c !in Lowers && c !in Uppers && c !in AllLetters
    {
      AllLettersByClass(c);
      NumbersByRange(c);
      LowersByRange(c);
      UppersByRange(c);
    }
  }

  lemma {:induction false} DistinctAppend(a: seq<char>, b: seq<char>)
    requires Distinct(a) && Distinct(b)
    requires forall x :: x in a ==> x !in b
    ensures Distinct(a + b)
  {
    var s := a + b;
    forall i, j | 0 <= i < j < |s| ensures s[i] != s[j] {
      if j < |a| {
        assert s[i] == a[i] && s[j] == a[j];
      } else if i >= |a| {
        assert s[i] == b[i - |a|] && s[j] == b[j - |a|];
      } else {
        assert s[i] == a[i] && s[j] == b[j - |a|];
        assert a[i] in a && b[j - |a|] in b;
      }
    }
  }

  /** Every table lists each of its characters once, so a uniform index is a
      uniform character: 24 equally likely upper-case letters at the ends and
      59 equally likely characters inside. */
  lemma TablesDistinct()
    ensures Distinct(Numbers) && Distinct(Lowers) && Distinct(Uppers)
    ensures Distinct(AllLetters)
  {
    IncreasingIsDistinct(Numbers);
    IncreasingIsDistinct(Lowers);
    IncreasingIsDistinct(Uppers);
    var specials: seq<char> := ['.', '-'];
    assert Distinct(specials);
    LettersDisjoint();
    DistinctAppend(Lowers, Uppers);
    DistinctAppend(Lowers + Uppers, specials);
    DistinctAppend(Lowers + Uppers + specials, Numbers);
    AllLettersComposition();
  }

  /** The four parts of the interior table share no character. */
  lemma LettersDisjoint()
    ensures forall x :: x in Lowers ==> x !in Uppers
    ensures forall x :: x in Lowers + Uppers ==> x !in ['.', '-']
    ensures forall x :: x in Lowers + Uppers + ['.', '-'] ==> x !in Numbers
  {
    forall x | x in Lowers + Uppers + ['.', '-']
      ensures (x in Lowers ==> x !in Uppers) && (x in Lowers + Uppers ==> x !in ['.', '-']) && x !in Numbers
    {
      LowersByRange(x);
      UppersByRange(x);
      NumbersByRange(x);
    }
  }
}
