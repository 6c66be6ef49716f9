/** The candidate builder: gen_upper, gen_letter and gen_candidate
    (src/main.rs, lines 29-37 and 100-106).

    The thread-local random generator is replaced by an explicit sequence of
    draws, one per call of `gen_range`, each already inside the range that
    call asks for.  Building a candidate is then a deterministic function of
    the buffer length and the draws. */
module Generator {
  import opened CharTables

  /** How many draws gen_candidate takes for a buffer of length `len`: one
      upper-case letter at index 0, one letter for each index in 1..len-1,
      and one upper-case letter for the last index.  A buffer of length 1
      receives two upper-case draws, the second overwriting the first. */
  function DrawCount(len: nat): nat
    requires len >= 1
  {
    if len == 1 then 2 else len
  }

  /** The exclusive bound `gen_range` is called with for the j-th of n draws:
      the first and the last draw pick from the upper-case table, every other
      draw from the interior table. */
  function DrawBound(n: nat, j: nat): nat {
    if j == 0 || j == n - 1 then |Uppers| else |AllLetters|
  }

  /** The draws a single call of gen_candidate consumes, each in range. */
  predicate ValidDraws(len: nat, draws: seq<nat>)
    requires len >= 1
  {
    |draws| == DrawCount(len) &&
    forall j :: 0 <= j < |draws| ==> draws[j] < DrawBound(|draws|, j)
  }

  function GenUpper(d: nat): (c: char)
    requires d < |Uppers|
    ensures IsUpperChar(c)
  {
    UppersByRange(Uppers[d]);
    Uppers[d]
  }

  function GenLetter(d: nat): (c: char)
    requires d < |AllLetters|
    ensures IsLowerChar(c) || IsUpperChar(c) || IsSpecial(c) || IsDigitChar(c)
  {
    AllLettersByClass(AllLetters[d]);
    AllLetters[d]
  }

  /** The character gen_candidate leaves at index `i` of a buffer of length
      `len`.  The last index is written last, so for a one-character buffer
      the second upper-case draw is the one that stays. */
  function CandidateChar(len: nat, draws: seq<nat>, i: nat): (c: char)
    requires len >= 1 && ValidDraws(len, draws) && i < len
    ensures i == 0 || i == len - 1 ==> IsUpperChar(c)
    ensures IsLowerChar(c) || IsUpperChar(c) || IsSpecial(c) || IsDigitChar(c)
  {
    if i == len - 1 then GenUpper(draws[|draws| - 1])
    else if i == 0 then GenUpper(draws[0])
    else GenLetter(draws[i])
  }

  /** The candidate a buffer of length `len` holds after gen_candidate has
      consumed `draws`.  The buffer's previous contents do not matter: every
      index is overwritten. */
  function Candidate(len: nat, draws: seq<nat>): (pw: seq<char>)
    requires len >= 1 && ValidDraws(len, draws)
    ensures |pw| == len
    ensures IsUpperChar(pw[0]) && IsUpperChar(pw[len-1])
  {
    seq(len, i requires 0 <= i < len => CandidateChar(len, draws, i))
  }

  /** gen_candidate, writing into the caller's buffer in the order the source
      does: index 0, the interior indices left to right, then the last index. */
  method GenCandidate(buf: seq<char>, draws: seq<nat>) returns (out: seq<char>)
    requires |buf| >= 1 && ValidDraws(|buf|, draws)
    ensures out == Candidate(|buf|, draws)
  {
    var len := |buf|;
    out := buf[0 := GenUpper(draws[0])];
    var i := 1;
    while i < len - 1
      invariant 1 <= i <= len
      invariant |out| == len
      invariant out[0] == GenUpper(draws[0])
      invariant forall k :: 1 <= k < i ==> out[k] == GenLetter(draws[k])
    {
      out := out[i := GenLetter(draws[i])];
      i := i + 1;
    }
    out := out[len - 1 := GenUpper(draws[|draws| - 1])];
    assert forall k :: 0 <= k < len ==> out[k] == CandidateChar(len, draws, k);
  }

  /** The shape every candidate has, stated through the tables: a member of
      the upper-case table at both ends and a member of the interior table
      everywhere in between. */
  lemma CandidateInTables(len: nat, draws: seq<nat>)
    requires len >= 1 && ValidDraws(len, draws)
    ensures var pw := Candidate(len, draws);
      pw[0] in Uppers && pw[len-1] in Uppers &&
      forall i :: 0 < i < len - 1 ==> pw[i] in AllLetters
  {
  }

  /** The same shape stated by character class: an upper-case letter at both
      ends, and inside only lower-case letters, upper-case letters, digits
      and the two special characters. */
  lemma CandidateShape(len: nat, draws: seq<nat>)
    requires len >= 1 && ValidDraws(len, draws)
    ensures var pw := Candidate(len, draws);
      IsUpperChar(pw[0]) && IsUpperChar(pw[len-1]) &&
      forall i :: 0 < i < len - 1 ==>
        IsLowerChar(pw[i]) || IsUpperChar(pw[i]) || IsSpecial(pw[i]) || IsDigitChar(pw[i])
  {
  }

  /** Distinct draws give distinct candidates (for buffers of two or more
      characters, where no draw is overwritten): together with the tables
      listing each character once, uniform draws make every candidate of a
      given length equally likely. */
  lemma CandidateInjective(len: nat, d1: seq<nat>, d2: seq<nat>)
    requires len >= 2 && ValidDraws(len, d1) && ValidDraws(len, d2)
    requires Candidate(len, d1) == Candidate(len, d2)
    ensures d1 == d2
  {
    TablesDistinct();
    var pw1, pw2 := Candidate(len, d1), Candidate(len, d2);
    forall j | 0 <= j < len ensures d1[j] == d2[j] {
      assert pw1[j] == pw2[j];
      if j == 0 || j == len - 1 {
        assert Uppers[d1[j]] == Uppers[d2[j]];
      } else {
        assert AllLetters[d1[j]] == AllLetters[d2[j]];
      }
    }
  }
}
