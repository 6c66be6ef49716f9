# gpwg password synthesis, modelled in Dafny

gpwg ("the Best PassWord Generator") prints one random password. The program
builds a candidate from fixed character tables. An upper-case letter goes
first and last. Every interior position gets a character from a 59-entry
table. The program then runs six structural checks and asks the zxcvbn
strength estimator for a score. It keeps drawing candidates until one passes
every check and reaches a minimum score. That minimum is 3 below 11
characters and 4 from 11 up. Before any of this, `main` raises any requested
size below 9 to 9.

The model has four modules, one per part of `src/main.rs`:

- `CharTables` (`tables.dfy`): the four tables, listed as in the source. It
  also describes them by character range. Lemmas prove that the range
  descriptions match the tables, that the interior table is the other three
  plus `.` and `-`, that each table lists every character once, and that the
  confusable characters `0 1 l I O` never appear.
- `Checks` (`checks.dfy`): `has_num`, `has_lower`, `has_upper`, `has_spec`,
  `has_repeat` and `has_morse`. Each is a method that scans the way the
  source does and stops at the first hit. Each is proved equivalent, in both
  directions, to a predicate over positions.
- `Generator` (`generator.dfy`): `gen_upper`, `gen_letter` and
  `gen_candidate`. The random generator is replaced by an explicit sequence
  of draws, each already inside the range `gen_range` is asked for. A
  candidate is then a function of the buffer length and the draws.
- `PasswordGen` (`pwgen.dfy`): the acceptance gate and the `pwgen` loop. The
  zxcvbn score is a function parameter `score: seq<char> -> nat`, and nothing
  is assumed about it. Also here: the size clamp, and `main` without its I/O.

The random source is a finite list of draw sequences, one per candidate.
Because it is finite, `PwGen` returns `None` when the list runs out before
any candidate is accepted. Otherwise it returns the first accepted
candidate. Its contract names that candidate's index and states that every
earlier candidate was rejected.

Facts about `src/main.rs` that the model follows:

- The special characters are `.` and `-` (lines 25 and 74).
- No separator characters are inserted, however long the password
  (lines 100-106).
- `has_repeat` compares characters exactly, so `xX` is not a repeat
  (line 83, `Checks.RepeatIsCaseSensitive`).
- The smallest size is 9 (line 150).
- Acceptance uses only the score threshold (lines 109 and 132). No
  pattern count and no entropy estimate is computed.

Two properties of the loop come out of the proofs:

- The `has_upper` check never rejects anything, because every candidate
  starts with an upper-case letter (`PasswordGen.UpperCheckNeverRejects`).
- Buffers shorter than 5 can never pass the structural checks, so `pwgen`
  would never return on them (`PasswordGen.ShortCandidatesNeverPass`). For
  every length from 5 up, some in-range draws do give a candidate that passes
  all six checks (`PasswordGen.StructurallyAcceptableExists`). The clamp to 9
  in `main` therefore keeps every call at a length where the structural
  checks can pass. Whether zxcvbn ever scores such a candidate high enough
  is outside the model, which assumes nothing about the score.

## Model

| member | source | states |
|---|---|---|
| `CharTables.NumbersByRange` | src/main.rs:6-8 | a character is in `NUMBERS` exactly when it lies between '2' and '9' |
| `CharTables.LowersByRange` | src/main.rs:10-13 | a character is in `LOWERS` exactly when it is a lower-case ASCII letter other than 'l' |
| `CharTables.UppersByRange` | src/main.rs:15-18 | a character is in `UPPERS` exactly when it is an upper-case ASCII letter other than 'I' and 'O' |
| `CharTables.AllLettersComposition` | src/main.rs:20-27 | `ALL_LETTERS` equals `LOWERS ++ UPPERS ++ ['.','-'] ++ NUMBERS`, with sizes 25, 24, 8 and 59 |
| `CharTables.AllLettersByClass` | src/main.rs:20-27 | a character is in `ALL_LETTERS` exactly when it is a lower-case letter, an upper-case letter, a special character or a digit of the tables |
| `CharTables.ConfusablesExcluded` | src/main.rs:6-27 | none of '0', '1', 'l', 'I', 'O' appears in any of the four tables |
| `CharTables.TablesDistinct` | src/main.rs:6-27 | no table lists a character twice, so a uniform index gives a uniform character |
| `Checks.ScanClass` | src/main.rs:39-70 | the nested table scan returns true exactly when some character of the slice is in the table |
| `Checks.HasNum` | src/main.rs:39-48 | true exactly when some character is in `NUMBERS`, which is the same as some character lying in '2'..'9'; false on an empty slice |
| `Checks.HasLower` | src/main.rs:50-59 | true exactly when some character is in `LOWERS`, which is the same as some lower-case letter other than 'l' |
| `Checks.HasUpper` | src/main.rs:61-70 | true exactly when some character is in `UPPERS`, which is the same as some upper-case letter other than 'I' and 'O' |
| `Checks.HasSpec` | src/main.rs:72-79 | true exactly when some character is '-' or '.' |
| `Checks.HasRepeat` | src/main.rs:81-88 | true exactly when two neighbouring characters are equal; false for slices of length 0 or 1 |
| `Checks.HasMorse` | src/main.rs:90-98 | true exactly when some neighbouring pair is "-." or ".-"; false for slices of length 0 or 1 |
| `Checks.MorseImpliesSpecial` | src/main.rs:72-98 | a slice with a morse pair also contains a special character, and has two neighbours that differ |
| `Checks.RepeatIsCaseSensitive` | src/main.rs:81-98 | "xX" and "Bb" are not repeats; "--" is a repeat but not a morse pair |
| `Generator.GenUpper` | src/main.rs:34-37 | every in-range draw gives an upper-case letter other than 'I' and 'O' |
| `Generator.GenLetter` | src/main.rs:29-32 | every in-range draw gives a lower-case letter, an upper-case letter, a special character or a digit |
| `Generator.CandidateChar` | src/main.rs:100-106 | the first and last positions of a candidate always hold an upper-case letter; every position holds a table character |
| `Generator.Candidate` | src/main.rs:100-106 | a candidate keeps the buffer length and has an upper-case letter at both ends |
| `Generator.GenCandidate` | src/main.rs:100-106 | filling the buffer in source order (index 0, the interior left to right, then the last index) gives exactly the candidate of those draws, whatever the buffer held before |
| `Generator.CandidateInTables` | src/main.rs:100-106 | a candidate has a member of `UPPERS` at index 0 and at index len-1, and a member of `ALL_LETTERS` at every interior index |
| `Generator.CandidateShape` | src/main.rs:100-106 | the same shape stated by character class |
| `Generator.CandidateInjective` | src/main.rs:29-37 | for buffers of 2 or more characters, different draw sequences give different candidates |
| `PasswordGen.Gate` | src/main.rs:109-135 | the checks in source order, with the score asked for last, accept exactly when all six structural checks give the wanted answer and the score reaches 3 (below 11 characters) or 4 |
| `PasswordGen.PwGen` | src/main.rs:108-137 | a returned password passes the gate and has the buffer's length and upper-case ends; it is the first candidate that passes; `None` happens exactly when no supplied candidate passes |
| `PasswordGen.UpperCheckNeverRejects` | src/main.rs:118-120 | every candidate contains a member of `UPPERS`, so the `has_upper` check never rejects |
| `PasswordGen.ShortCandidatesNeverPass` | src/main.rs:108-129 | no candidate for a buffer of 1 to 4 characters passes the structural checks |
| `PasswordGen.StructurallyAcceptableExists` | src/main.rs:108-129 | for every length from 5 up, some in-range draws give a candidate that passes all six structural checks |
| `PasswordGen.ClampSize` | src/main.rs:150 | the size used is at least 9 and at least the requested size, and is either the requested size or 9 |
| `PasswordGen.GeneratePassword` | src/main.rs:148-153 | a password from `main` has the clamped length (at least 9), passes the gate, and has upper-case letters at both ends. It is the first supplied candidate that passes, and every earlier one was rejected. `None` happens exactly when no supplied candidate passes |

## Left out

- Random number generation (`rand::thread_rng`, `gen_range`): replaced by explicit draws that are assumed in range. The model makes no claim about uniformity or independence.
- The draw stream: the source draws from one generator stream. The model gives each candidate its own draw sequence. The number of draws per candidate is fixed by the buffer length, so this is only a regrouping of the same stream.
- `PasswordGen.PwGen`: the source loop is unbounded and ends only with probability 1. The model reads a finite list of candidates' draws and returns `None` when the list runs out, so it says nothing about how long the real loop runs.
- `PasswordGen.PwGen`: requires a non-empty buffer. On an empty slice the source panics at `arr[0]` in `gen_candidate`.
- The zxcvbn estimator (line 131): a foreign library, modelled as an arbitrary function parameter. Its `.unwrap()` panic and the `String` collection before it are not modelled.
- Argument parsing with clap, the default size of 12, and printing the result (lines 139-155): I/O. Only the clamp and the `'_'`-filled buffer are kept.
- The candidate is a returned sequence. The source writes into the caller's `&mut [char]` in place. The model returns the new contents, and `Generator.GenCandidate` shows that they do not depend on the old contents.
- Block separators, the pattern-count acceptance policy, entropy estimates, strength presets and the clipboard: none of these exist in the source.
