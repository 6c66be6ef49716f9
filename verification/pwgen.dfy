/** The acceptance loop pwgen and the size clamp of main
    (src/main.rs, lines 108-137 and 150).

    The strength estimator is a foreign library; it enters the model as a
    total function `score` from the candidate text to a natural number, and
    nothing is assumed about it.  The random source that the loop keeps
    drawing from is a finite sequence of per-candidate draws: the source loop
    only ends once a candidate is accepted, and here it also ends, with
    `None`, when the supplied draws run out. */
module PasswordGen {
  import opened CharTables
  import opened Checks
  import opened Generator

  datatype Option<T> = None | Some(value: T)

  /** The smallest size main lets through. */
  const MinSize: nat := 9

  /** The strength score a candidate of length `len` must reach. */
  function MinScore(len: nat): nat {
    if len < 11 then 3 else 4
  }

  /** The six structural checks, each with the answer pwgen wants.  The
      class checks are stated by character range; HasNum, HasUpper and
      HasLower show this is the same as asking the tables. */
  predicate Structural(pw: seq<char>) {
    ContainsDigit(pw) && ContainsSpecial(pw) &&
    ContainsUpper(pw) && ContainsLower(pw) &&
    !AdjacentRepeat(pw) && !AdjacentMorse(pw)
  }

  /** The acceptance gate: the structural checks and the score threshold. */
  predicate Accept(pw: seq<char>, score: nat) {
    Structural(pw) && score >= MinScore(|pw|)
  }

  /** The candidate built from `draws` passes the gate. */
  predicate Passes(len: nat, draws: seq<nat>, score: seq<char> -> nat)
    requires len >= 1 && ValidDraws(len, draws)
  {
    var pw := Candidate(len, draws);
    Accept(pw, score(pw))
  }

  /** One pass of the loop body after gen_candidate: the checks in the
      source's order, each rejection short-circuiting the rest, and the
      score asked for only once every structural check has passed. */
  method Gate(chars: seq<char>, score: seq<char> -> nat) returns (ok: bool)
    ensures ok <==> Accept(chars, score(chars))
  {
    var minscore := if |chars| < 11 then 3 else 4;
    var b := HasNum(chars);
    if !b { return false; }
    b := HasSpec(chars);
    if !b { return false; }
    b := HasUpper(chars);
    if !b { return false; }
    b := HasLower(chars);
    if !b { return false; }
    b := HasRepeat(chars);
    if b { return false; }
    b := HasMorse(chars);
    if b { return false; }
    var estimate := score(chars);
    if estimate < minscore { return false; }
    return true;
  }

  /** pwgen: draw candidates into the buffer until one passes the gate.
      The answer is the FIRST candidate that passes; every earlier one was
      rejected.  `None` means the supplied draws ran out first. */
  method PwGen(chars: seq<char>, attempts: seq<seq<nat>>, score: seq<char> -> nat)
    returns (r: Option<seq<char>>)
    requires |chars| >= 1
    requires forall k :: 0 <= k < |attempts| ==> ValidDraws(|chars|, attempts[k])
    ensures r.Some? ==> Accept(r.value, score(r.value))
    ensures r.Some? ==> score(r.value) >= 3 && (|chars| >= 11 ==> score(r.value) >= 4)
    ensures r.Some? ==> |r.value| == |chars| && IsUpperChar(r.value[0]) && IsUpperChar(r.value[|chars|-1])
    ensures r.Some? ==>
      exists k :: 0 <= k < |attempts| && r.value == Candidate(|chars|, attempts[k]) &&
        forall j :: 0 <= j < k ==> !Passes(|chars|, attempts[j], score)
    ensures r.None? <==> forall k :: 0 <= k < |attempts| ==> !Passes(|chars|, attempts[k], score)
  {
    var buf := chars;
    var k := 0;
    while k < |attempts|
      invariant 0 <= k <= |attempts|
      invariant |buf| == |chars|
      invariant forall j :: 0 <= j < k ==> !Passes(|chars|, attempts[j], score)
    {
      buf := GenCandidate(buf, attempts[k]);
      var ok := Gate(buf, score);
      assert buf == Candidate(|chars|, attempts[k]);
      if !ok {
        assert !Passes(|chars|, attempts[k], score);
        forall j | 0 <= j < k + 1 ensures !Passes(|chars|, attempts[j], score) {
        }
        k := k + 1;
        continue;
      }
      assert Passes(|chars|, attempts[k], score);
      return Some(buf);
    }
    return None;
  }

  /** The clamp main applies to the requested size before calling pwgen:
      sizes below 9 become 9, every other size is kept. */
  function ClampSize(size: nat): (n: nat)
    ensures n >= MinSize && n >= size
    ensures n == size || n == MinSize
  {
    if size < 9 then 9 else size
  }

  /** main without argument parsing and printing: clamp, allocate a buffer
      of '_' characters, and run pwgen on it. */
  method GeneratePassword(size: nat, attempts: seq<seq<nat>>, score: seq<char> -> nat)
    returns (r: Option<seq<char>>)
    requires forall k :: 0 <= k < |attempts| ==> ValidDraws(ClampSize(size), attempts[k])
    ensures r.Some? ==> |r.value| == ClampSize(size) && |r.value| >= MinSize
    ensures r.Some? ==> Accept(r.value, score(r.value))
    ensures r.Some? ==> IsUpperChar(r.value[0]) && IsUpperChar(r.value[ClampSize(size) - 1])
    ensures r.Some? ==>
      exists k :: 0 <= k < |attempts| && r.value == Candidate(ClampSize(size), attempts[k]) &&
        forall j :: 0 <= j < k ==> !Passes(ClampSize(size), attempts[j], score)
    ensures r.None? <==> forall k :: 0 <= k < |attempts| ==> !Passes(ClampSize(size), attempts[k], score)
  {
    var n := ClampSize(size);
    var pw := seq(n, _ => '_');
    r := PwGen(pw, attempts, score);
  }

  /** Every candidate starts with an upper-case letter, so the has_upper
      check in pwgen never rejects one. */
  lemma UpperCheckNeverRejects(len: nat, draws: seq<nat>)
    requires len >= 1 && ValidDraws(len, draws)
    ensures ContainsClass(Candidate(len, draws), Uppers)
  {
  }

  /** For buffers shorter than five characters no candidate ever passes the
      structural checks: both ends are upper-case letters, and a digit, a
      special character and a lower-case letter need three more positions.
      pwgen would loop forever on such buffers; the clamp in main keeps every
      buffer at nine characters or more. */
  lemma ShortCandidatesNeverPass(len: nat, draws: seq<nat>)
    requires 1 <= len <= 4 && ValidDraws(len, draws)
    ensures !Structural(Candidate(len, draws))
  {
  }

  /** The draws of the candidate "Aa2.bcbc...A": an upper-case 'A' at both
      ends, then 'a', '2', '.', and 'b'/'c' alternating up to the end. */
  function WitnessDraws(len: nat): (d: seq<nat>)
    requires len >= 5
    ensures ValidDraws(len, d)
  {
    AllLettersComposition();
    seq(len, i =>
      if i == 0 || i == len - 1 then 0
      else if i == 1 then 0
      else if i == 2 then 51
      else if i == 3 then 49
      else if i % 2 == 0 then 1
      else 2)
  }

  /** The character the witness candidate holds at index `i`. */
  function WitnessChar(len: nat, i: nat): char {
    if i == 0 || i == len - 1 then 'A'
    else if i == 1 then 'a'
    else if i == 2 then '2'
    else if i == 3 then '.'
    else if i % 2 == 0 then 'b'
    else 'c'
  }

  /** The candidate those draws build, character by character. */
  lemma WitnessCandidate(len: nat, i: nat)
    requires 5 <= len && i < len
    ensures Candidate(len, WitnessDraws(len))[i] == WitnessChar(len, i)
  {
    var d := WitnessDraws(len);
    assert Candidate(len, d)[i] == if i == 0 || i == len - 1 then Uppers[d[i]] else AllLetters[d[i]];
    AllLettersComposition();
    assert AllLetters[0] == Lowers[0] == 'a';
    assert AllLetters[1] == Lowers[1] == 'b';
    assert AllLetters[2] == Lowers[2] == 'c';
  }

  /** Neighbouring witness characters differ and never form a morse pair. */
  lemma WitnessNeighbours(len: nat, i: nat)
    requires 5 <= len && 1 <= i < len
    ensures WitnessChar(len, i) != WitnessChar(len, i - 1)
    ensures !MorsePair(WitnessChar(len, i - 1), WitnessChar(len, i))
  {
  }

  /** For every size from five up, some in-range draws give a candidate that
      passes all six structural checks: the loop's structural filter never
      rejects everything at the sizes main can request. */
  lemma StructurallyAcceptableExists(len: nat)
    requires len >= 5
    ensures exists d :: ValidDraws(len, d) && Structural(Candidate(len, d))
  {
    var d := WitnessDraws(len);
    var pw := Candidate(len, d);
    assert ContainsUpper(pw) by {
      WitnessCandidate(len, 0);
    }
    assert ContainsLower(pw) by {
      WitnessCandidate(len, 1);
    }
    assert ContainsDigit(pw) by {
      WitnessCandidate(len, 2);
    }
    assert ContainsSpecial(pw) by {
      WitnessCandidate(len, 3);
      assert IsSpecial(pw[3]);
    }
    assert !AdjacentRepeat(pw) && !AdjacentMorse(pw) by {
      forall i | 1 <= i < len ensures pw[i] != pw[i-1] && !MorsePair(pw[i-1], pw[i]) {
        WitnessCandidate(len, i);
        WitnessCandidate(len, i - 1);
        WitnessNeighbours(len, i);
      }
    }
  }
}
