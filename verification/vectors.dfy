/** Concrete inputs. There are three full evaluations: the sample password
    of the application, a dictionary word, and the mixed password
    `Tr0ub4dor&3xyz`. There is also a complexity-score vector for a password
    that triggers every complexity penalty. */
module StrengthVectors {
  import opened CharClasses
  import opened PasswordStrength

  /** Every character of `s` lies in `allowed`. */
  predicate Within(s: string, allowed: set<char>)
  {
    forall c | c in s :: c in allowed
  }

  /** One of the first four characters of `p` lies outside `allowed`. */
  predicate EscapesEarly(p: string, allowed: set<char>)
  {
    || (|p| > 0 && p[0] !in allowed)
    || (|p| > 1 && p[1] !in allowed)
    || (|p| > 2 && p[2] !in allowed)
    || (|p| > 3 && p[3] !in allowed)
  }

  /** Every pattern of `ps` from index `j` on escapes `allowed`. */
  predicate EscapeFrom(ps: seq<string>, allowed: set<char>, j: nat)
    decreases |ps| - j
  {
    j >= |ps| || (EscapesEarly(ps[j], allowed) && EscapeFrom(ps, allowed, j + 1))
  }

  /** A text drawn from `allowed` contains none of the patterns from index
      `j` on when each holds a character outside `allowed`. */
  lemma {:induction false} NoneOccurFrom(s: string, allowed: set<char>, ps: seq<string>, j: nat)
    requires Within(s, allowed)
    requires EscapeFrom(ps, allowed, j)
    ensures forall k | j <= k < |ps| :: !Contains(s, ps[k])
    decreases |ps| - j
  {
    if j < |ps| {
      NoneOccurFrom(s, allowed, ps, j + 1);
      var p := ps[j];
      if |p| > 0 && p[0] !in allowed {
        MissingCharBlocks(s, p, p[0]);
      } else if |p| > 1 && p[1] !in allowed {
        MissingCharBlocks(s, p, p[1]);
      } else if |p| > 2 && p[2] !in allowed {
        MissingCharBlocks(s, p, p[2]);
      } else {
        MissingCharBlocks(s, p, p[3]);
      }
    }
  }

  /** A text drawn from `allowed` contains none of the patterns that each
      hold a character outside `allowed`. */
  lemma NoneOccur(s: string, allowed: set<char>, ps: seq<string>)
    requires Within(s, allowed)
    requires EscapeFrom(ps, allowed, 0)
    ensures !ContainsAny(s, ps)
  {
    NoneOccurFrom(s, allowed, ps, 0);
    forall p | p in ps ensures !Contains(s, p) {
      var k :| 0 <= k < |ps| && ps[k] == p;
    }
  }

  /** Lowering a text drawn from `allowed` gives a text drawn from
      `lowered` when every allowed character lowers into it. */
  lemma LowerWithin(s: string, allowed: set<char>, lowered: set<char>)
    requires Within(s, allowed)
    requires forall c | c in allowed :: AsciiLowerChar(c) in lowered
    ensures Within(AsciiLower(s), lowered)
  {
    var t := AsciiLower(s);
    forall c | c in t ensures c in lowered {
      var i :| 0 <= i < |t| && t[i] == c;
      assert s[i] in s;
    }
  }

  /** A text drawn from `allowed` has no class that no allowed character
      has. */
  lemma ClassesWithin(s: string, allowed: set<char>, k: CharClass)
    requires Within(s, allowed)
    requires forall c | c in allowed :: ClassOf(c) != k
    ensures !Has(s, k)
  {
    forall i | 0 <= i < |s| ensures !ClassAt(s, i, k) {
      assert s[i] in s;
    }
  }

  /** Only the repeat penalty fires on eight capital A's. */
  lemma CapitalAPatterns(pw: string)
    requires |pw| == 8 && Within(pw, {'A'})
    ensures HasRepeat(pw)
    ensures !HasCommonPassword(pw) && !HasKeyboardPattern(pw)
    ensures !HasDigitRun(pw) && !HasLetterRun(pw)
  {
    CapitalALowerPatterns(pw);
    assert EscapeFrom(DIGIT_RUNS, {'A'}, 4);
    NoneOccur(pw, {'A'}, DIGIT_RUNS);
    assert pw[0] in pw && pw[1] in pw && pw[2] in pw;
    assert RepeatAt(pw, 0);
  }

  /** No pattern matched against the lowered text occurs in capital A's. */
  lemma CapitalALowerPatterns(pw: string)
    requires Within(pw, {'A'})
    ensures !ContainsAny(AsciiLower(pw), COMMON_PASSWORDS)
    ensures !ContainsAny(AsciiLower(pw), KEYBOARD_PATTERNS)
    ensures !ContainsAny(AsciiLower(pw), LETTER_RUNS)
  {
    LowerWithin(pw, {'A'}, {'a'});
    AllLowerAEscape();
    var t := AsciiLower(pw);
    NoneOccur(t, {'a'}, COMMON_PASSWORDS);
    NoneOccur(t, {'a'}, KEYBOARD_PATTERNS);
    NoneOccur(t, {'a'}, LETTER_RUNS);
  }

  /** Every listed pattern holds a letter other than `a`. */
  lemma AllLowerAEscape()
    ensures EscapeFrom(COMMON_PASSWORDS, {'a'}, 0)
    ensures EscapeFrom(KEYBOARD_PATTERNS, {'a'}, 0)
    ensures EscapeFrom(LETTER_RUNS, {'a'}, 0)
  {
    assert EscapeFrom(COMMON_PASSWORDS, {'a'}, 20);
    assert EscapeFrom(COMMON_PASSWORDS, {'a'}, 16);
    assert EscapeFrom(COMMON_PASSWORDS, {'a'}, 12);
    assert EscapeFrom(COMMON_PASSWORDS, {'a'}, 8);
    assert EscapeFrom(COMMON_PASSWORDS, {'a'}, 4);
    assert EscapeFrom(KEYBOARD_PATTERNS, {'a'}, 4);
    assert EscapeFrom(LETTER_RUNS, {'a'}, 20);
    assert EscapeFrom(LETTER_RUNS, {'a'}, 16);
    assert EscapeFrom(LETTER_RUNS, {'a'}, 12);
    assert EscapeFrom(LETTER_RUNS, {'a'}, 8);
    assert EscapeFrom(LETTER_RUNS, {'a'}, 4);
  }

  /** Capital A's have one class only. */
  lemma CapitalAClasses(pw: string)
    requires |pw| > 0 && Within(pw, {'A'})
    ensures Has(pw, Upper)
    ensures !Has(pw, Lower) && !Has(pw, Digit) && !Has(pw, Symbol)
    ensures ClassesPresent(pw) == {Upper}
  {
    assert pw[0] in pw;
    assert ClassAt(pw, 0, Upper);
    ClassesWithin(pw, {'A'}, Lower);
    ClassesWithin(pw, {'A'}, Digit);
    ClassesWithin(pw, {'A'}, Symbol);
  }

  /** Eight capital A's score 10 for length, 10 for diversity and 25 for
      complexity. */
  lemma CapitalAScores(pw: string)
    requires |pw| == 8 && Within(pw, {'A'})
    ensures LengthScore(pw) == 10 && DiversityScore(pw) == 10 && ComplexityScore(pw) == 25
  {
    CapitalAClasses(pw);
    CapitalAPatterns(pw);
    assert |ClassesPresent(pw)| == 1;
    assert Charged(pw) == 5;
  }

  /** The rule-based advice on a password is the ordered list of the items
      whose tests succeed. */
  lemma FeedbackFromTests(pw: string, score: int, t: RuleTests, w: seq<Feedback>)
    requires TestsOf(pw) == t && Pushes(t) == w && |w| > 0
    ensures GenerateFeedback(pw, score) == w
  {
  }

  /** Eight capital A's fail the length, lowercase, digit, symbol and
      repeat tests, and no other. */
  lemma CapitalATests(pw: string)
    requires |pw| == 8 && Within(pw, {'A'})
    ensures TestsOf(pw) == RuleTests(true, true, false, true, true, true, false, false)
  {
    CapitalAClasses(pw);
    CapitalAPatterns(pw);
  }

  lemma CapitalAPushes()
    ensures Pushes(RuleTests(true, true, false, true, true, true, false, false))
         == [LengthTooShort, AddLowercase, AddDigit, AddSymbol, AvoidRepeats]
  {
    var w := [LengthTooShort, AddLowercase, AddDigit, AddSymbol, AvoidRepeats];
    assert Ordered(w) && RanksBelow(w, 8);
    PushesDetermined(RuleTests(true, true, false, true, true, true, false, false), w);
  }

  lemma CapitalAFeedback(pw: string, score: int)
    requires |pw| == 8 && Within(pw, {'A'})
    ensures GenerateFeedback(pw, score) == [LengthTooShort, AddLowercase, AddDigit, AddSymbol, AvoidRepeats]
  {
    CapitalATests(pw);
    CapitalAPushes();
    FeedbackFromTests(pw, score, RuleTests(true, true, false, true, true, true, false, false),
                      [LengthTooShort, AddLowercase, AddDigit, AddSymbol, AvoidRepeats]);
  }

  /** 26 letters over eight positions: about a second, at 10^11 guesses
      a second with half the space searched. */
  lemma CapitalACrackTime(pw: string)
    requires |pw| == 8 && Within(pw, {'A'})
    ensures EstimateCrackTime(SecondsToCrack(pw)) == Seconds
  {
    CapitalAClasses(pw);
    assert CharsetSize(pw) == 26;
    assert Pow(26, 8) == 208827064576;
    var r := SecondsToCrack(pw);
    assert r * 200000000000.0 == 208827064576.0;
    assert 1.0 <= r < 60.0;
  }

  /** The evaluation of `AAAAAAAA`, the one string the precondition admits:
      a fair password scoring 45, with five advice items and a crack time
      of seconds. The string is described by its length and characters,
      not written as a literal, so that the solver reasons about it
      symbolically; `AllCapitalA` applies it to the literal. */
  lemma CapitalAEvaluation(pw: string)
    requires |pw| == 8 && Within(pw, {'A'})
    ensures EvaluatePasswordStrength(pw)
         == Strength(45, Fair, [LengthTooShort, AddLowercase, AddDigit, AddSymbol, AvoidRepeats], Seconds)
  {
    CapitalAScores(pw);
    CapitalAFeedback(pw, 45);
    CapitalACrackTime(pw);
  }

  const ALL_CAPITAL_A: string := "AAAAAAAA"

  /** The sample the application shows: eight capital A's score 10 for
      length, 10 for diversity and 25 for complexity (only the repeat
      penalty fires), which is a fair password with five advice items and
      a crack time of seconds. */
  lemma AllCapitalA()
    ensures EvaluatePasswordStrength(ALL_CAPITAL_A)
         == Strength(45, Fair, [LengthTooShort, AddLowercase, AddDigit, AddSymbol, AvoidRepeats], Seconds)
  {
    assert Within(ALL_CAPITAL_A, {'A'});
    CapitalAEvaluation(ALL_CAPITAL_A);
  }

  /** The letters of the word `password`. */
  const WORD_LETTERS: set<char> := {'p', 'a', 's', 'w', 'o', 'r', 'd'}

  const DICTIONARY_WORD: string := "password"

  /** Every keyboard pattern and ascending letter run holds a letter that
      `password` lacks. */
  lemma WordLettersEscape()
    ensures EscapeFrom(KEYBOARD_PATTERNS, WORD_LETTERS, 0)
    ensures EscapeFrom(LETTER_RUNS, WORD_LETTERS, 0)
  {
    assert EscapeFrom(KEYBOARD_PATTERNS, WORD_LETTERS, 4);
    LetterRunsEscapeWord();
  }

  lemma LetterRunsEscapeWord()
    ensures EscapeFrom(LETTER_RUNS, WORD_LETTERS, 0)
  {
    assert EscapeFrom(LETTER_RUNS, WORD_LETTERS, 20);
    assert EscapeFrom(LETTER_RUNS, WORD_LETTERS, 16);
    assert EscapeFrom(LETTER_RUNS, WORD_LETTERS, 12);
    assert EscapeFrom(LETTER_RUNS, WORD_LETTERS, 8);
    assert EscapeFrom(LETTER_RUNS, WORD_LETTERS, 4);
  }

  /** Only the common-password penalty fires on `password`. */
  lemma DictionaryWordPatterns(s: string)
    requires s == DICTIONARY_WORD
    ensures HasCommonPassword(s)
    ensures !HasKeyboardPattern(s) && !HasRepeat(s)
    ensures !HasDigitRun(s) && !HasLetterRun(s)
  {
    DictionaryWordLowered(s);
    DictionaryWordNoRepeat(s);
    assert Within(s, WORD_LETTERS);
    assert EscapeFrom(DIGIT_RUNS, WORD_LETTERS, 4);
    NoneOccur(s, WORD_LETTERS, DIGIT_RUNS);
  }

  /** Lowering leaves `password` alone; it is a common password and
      holds no keyboard pattern and no letter run. */
  lemma DictionaryWordLowered(s: string)
    requires s == DICTIONARY_WORD
    ensures ContainsAny(AsciiLower(s), COMMON_PASSWORDS)
    ensures !ContainsAny(AsciiLower(s), KEYBOARD_PATTERNS)
    ensures !ContainsAny(AsciiLower(s), LETTER_RUNS)
  {
    var t := AsciiLower(s);
    assert t == s;
    assert OccursAt(t, COMMON_PASSWORDS[0], 0);
    assert Contains(t, COMMON_PASSWORDS[0]);
    assert Within(t, WORD_LETTERS);
    WordLettersEscape();
    NoneOccur(t, WORD_LETTERS, KEYBOARD_PATTERNS);
    NoneOccur(t, WORD_LETTERS, LETTER_RUNS);
  }

  /** `password` repeats no character three times in a row. */
  lemma DictionaryWordNoRepeat(s: string)
    requires s == DICTIONARY_WORD
    ensures !HasRepeat(s)
  {
    assert forall i | 0 <= i < |s| :: !RepeatAt(s, i);
  }

  /** `password` has lowercase letters only. */
  lemma DictionaryWordClasses(s: string)
    requires s == DICTIONARY_WORD
    ensures Has(s, Lower)
    ensures !Has(s, Upper) && !Has(s, Digit) && !Has(s, Symbol)
    ensures ClassesPresent(s) == {Lower}
  {
    assert ClassAt(s, 0, Lower);
    assert Within(s, WORD_LETTERS);
    ClassesWithin(s, WORD_LETTERS, Upper);
    ClassesWithin(s, WORD_LETTERS, Digit);
    ClassesWithin(s, WORD_LETTERS, Symbol);
  }

  /** `password` fails the length, uppercase, digit, symbol and
      common-password tests, and no other. */
  lemma DictionaryWordTests(s: string)
    requires s == DICTIONARY_WORD
    ensures TestsOf(s) == RuleTests(true, false, true, true, true, false, true, false)
  {
    DictionaryWordPatterns(s);
    DictionaryWordClasses(s);
  }

  lemma DictionaryWordPushes()
    ensures Pushes(RuleTests(true, false, true, true, true, false, true, false))
         == [LengthTooShort, AddUppercase, AddDigit, AddSymbol, AvoidCommonPatterns]
  {
    var w := [LengthTooShort, AddUppercase, AddDigit, AddSymbol, AvoidCommonPatterns];
    assert Ordered(w) && RanksBelow(w, 8);
    PushesDetermined(RuleTests(true, false, true, true, true, false, true, false), w);
  }

  lemma DictionaryWordFeedback(s: string, score: int)
    requires s == DICTIONARY_WORD
    ensures GenerateFeedback(s, score) == [LengthTooShort, AddUppercase, AddDigit, AddSymbol, AvoidCommonPatterns]
  {
    DictionaryWordTests(s);
    DictionaryWordPushes();
    FeedbackFromTests(s, score, RuleTests(true, false, true, true, true, false, true, false),
                      [LengthTooShort, AddUppercase, AddDigit, AddSymbol, AvoidCommonPatterns]);
  }

  /** The score of `password`: 10 for length, 10 for diversity and 15 for
      complexity. */
  lemma DictionaryWordScores(s: string)
    requires s == DICTIONARY_WORD
    ensures LengthScore(s) == 10 && DiversityScore(s) == 10 && ComplexityScore(s) == 15
  {
    DictionaryWordPatterns(s);
    DictionaryWordClasses(s);
    assert |ClassesPresent(s)| == 1;
    assert Charged(s) == 15;
  }

  /** 26 letters over eight positions, as for the capital A's. */
  lemma DictionaryWordCrackTime(s: string)
    requires s == DICTIONARY_WORD
    ensures EstimateCrackTime(SecondsToCrack(s)) == Seconds
  {
    DictionaryWordClasses(s);
    assert CharsetSize(s) == 26;
    assert Pow(26, 8) == 208827064576;
    var r := SecondsToCrack(s);
    assert r * 200000000000.0 == 208827064576.0;
    assert 1.0 <= r < 60.0;
  }

  /** The most common password is weak, with a crack time of seconds. */
  lemma DictionaryWord()
    ensures EvaluatePasswordStrength(DICTIONARY_WORD)
         == Strength(35, Weak, [LengthTooShort, AddUppercase, AddDigit, AddSymbol, AvoidCommonPatterns], Seconds)
  {
    DictionaryWordScores(DICTIONARY_WORD);
    DictionaryWordCrackTime(DICTIONARY_WORD);
    DictionaryWordFeedback(DICTIONARY_WORD, 35);
  }

  const EVERY_PENALTY: string := "qwertyaaabc123"

  /** A password that trips all five complexity penalties; their weights
      add up to 40, and the score is clamped at zero. */
  lemma EveryPenaltyFloors(s: string)
    requires s == EVERY_PENALTY
    ensures forall p :: Fires(s, p)
    ensures Charged(s) == 40
    ensures ComplexityScore(s) == 0
  {
    var t := AsciiLower(s);
    assert t == s;
    assert OccursAt(t, COMMON_PASSWORDS[3], 0);
    assert Contains(t, COMMON_PASSWORDS[3]);
    assert OccursAt(t, KEYBOARD_PATTERNS[0], 0);
    assert Contains(t, KEYBOARD_PATTERNS[0]);
    assert RepeatAt(s, 6);
    assert OccursAt(s, DIGIT_RUNS[1], 11);
    assert Contains(s, DIGIT_RUNS[1]);
    assert OccursAt(t, LETTER_RUNS[0], 8);
    assert Contains(t, LETTER_RUNS[0]);
    forall p ensures Fires(s, p) {
      match p
      case CommonPassword =>
      case KeyboardPattern =>
      case RepeatedCharacter =>
      case DigitSequence =>
      case LetterSequence =>
    }
    PenaltiesTotal(s);
  }

  const MIXED: string := "Tr0ub4dor&3xyz"

  /** The characters of `Tr0ub4dor&3xyz`, lowered. */
  const MIXED_CHARS: set<char> := {'t', 'r', '0', 'u', 'b', '4', 'd', 'o', '&', '3', 'x', 'y', 'z'}

  /** Every common password holds a character the mixed password lacks. */
  lemma CommonPasswordsEscapeMixed()
    ensures EscapeFrom(COMMON_PASSWORDS, MIXED_CHARS, 0)
  {
    assert EscapeFrom(COMMON_PASSWORDS, MIXED_CHARS, 20);
    assert EscapeFrom(COMMON_PASSWORDS, MIXED_CHARS, 16);
    assert EscapeFrom(COMMON_PASSWORDS, MIXED_CHARS, 12);
    assert EscapeFrom(COMMON_PASSWORDS, MIXED_CHARS, 8);
    assert EscapeFrom(COMMON_PASSWORDS, MIXED_CHARS, 4);
  }

  /** Every keyboard pattern and ascending digit run holds a character the
      mixed password lacks. */
  lemma KeyboardAndDigitsEscapeMixed()
    ensures EscapeFrom(KEYBOARD_PATTERNS, MIXED_CHARS, 0)
    ensures EscapeFrom(DIGIT_RUNS, MIXED_CHARS, 0)
  {
    assert EscapeFrom(KEYBOARD_PATTERNS, MIXED_CHARS, 4);
    assert EscapeFrom(DIGIT_RUNS, MIXED_CHARS, 4);
  }

  /** Only the letter-run penalty fires on the mixed password, for its
      closing `xyz`. */
  lemma MixedPatterns(s: string)
    requires s == MIXED
    ensures !HasCommonPassword(s) && !HasKeyboardPattern(s) && !HasRepeat(s)
    ensures !HasDigitRun(s) && HasLetterRun(s)
  {
    MixedLowered(s);
    MixedLoweredPatterns(AsciiLower(s));
    MixedDigitsAndRepeats(s);
  }

  /** `Tr0ub4dor&3xyz` lowered: only its leading capital changes. */
  const MIXED_LOWERED: string := "tr0ub4dor&3xyz"

  lemma MixedLowered(s: string)
    requires s == MIXED
    ensures AsciiLower(s) == MIXED_LOWERED
  {
    var t := AsciiLower(s);
    assert t[0] == 't';
    assert forall i | 1 <= i < |s| :: !IsUpper(s[i]);
  }

  /** The lowered mixed password holds no common password and no keyboard
      pattern, and ends in the ascending letters `xyz`. */
  lemma MixedLoweredPatterns(t: string)
    requires t == MIXED_LOWERED
    ensures !ContainsAny(t, COMMON_PASSWORDS) && !ContainsAny(t, KEYBOARD_PATTERNS)
    ensures ContainsAny(t, LETTER_RUNS)
  {
    assert Within(t, MIXED_CHARS);
    MixedAvoidsLists(t);
    MixedEndsInRun(t);
  }

  lemma MixedAvoidsLists(t: string)
    requires Within(t, MIXED_CHARS)
    ensures !ContainsAny(t, COMMON_PASSWORDS) && !ContainsAny(t, KEYBOARD_PATTERNS)
  {
    CommonPasswordsEscapeMixed();
    KeyboardAndDigitsEscapeMixed();
    NoneOccur(t, MIXED_CHARS, COMMON_PASSWORDS);
    NoneOccur(t, MIXED_CHARS, KEYBOARD_PATTERNS);
  }

  lemma MixedEndsInRun(t: string)
    requires t == MIXED_LOWERED
    ensures ContainsAny(t, LETTER_RUNS)
  {
    assert LETTER_RUNS[23] == "xyz";
    assert OccursAt(t, LETTER_RUNS[23], 11);
    assert Contains(t, LETTER_RUNS[23]);
  }

  /** The mixed password has no ascending digit run and repeats no
      character three times in a row. */
  lemma MixedDigitsAndRepeats(s: string)
    requires s == MIXED
    ensures !HasDigitRun(s) && !HasRepeat(s)
  {
    assert Within(s, MIXED_CHARS + {'T'});
    KeyboardAndDigitsEscapeMixed();
    assert EscapeFrom(DIGIT_RUNS, MIXED_CHARS + {'T'}, 4);
    NoneOccur(s, MIXED_CHARS + {'T'}, DIGIT_RUNS);
    assert forall i | 0 <= i < |s| :: !RepeatAt(s, i);
  }

  /** The mixed password has all four classes. */
  lemma MixedClasses(s: string)
    requires s == MIXED
    ensures Has(s, Upper) && Has(s, Lower) && Has(s, Digit) && Has(s, Symbol)
  {
    assert ClassAt(s, 0, Upper) && ClassAt(s, 1, Lower) && ClassAt(s, 2, Digit) && ClassAt(s, 9, Symbol);
  }

  /** 14 characters score 20 for length, four classes 40 for diversity,
      and the letter run leaves 25 for complexity. */
  lemma MixedScores(s: string)
    requires s == MIXED
    ensures LengthScore(s) == 20 && DiversityScore(s) == 40 && ComplexityScore(s) == 25
  {
    MixedPatterns(s);
    MixedClasses(s);
    assert ClassesPresent(s) == {Upper, Lower, Digit, Symbol} by {
      forall k ensures k in ClassesPresent(s) <==> k in {Upper, Lower, Digit, Symbol} {
        match k
        case Upper =>
        case Lower =>
        case Digit =>
        case Symbol =>
      }
    }
    assert Charged(s) == 5;
  }

  /** No rule fires on the mixed password, so the advice is the overall
      verdict for its score alone. */
  lemma MixedFeedback(s: string, score: int)
    requires s == MIXED
    ensures NoRuleFires(s)
    ensures GenerateFeedback(s, score) == [Overall(LevelOf(score))]
  {
    MixedPatterns(s);
    MixedClasses(s);
  }

  /** 94 characters over fourteen positions: about 2.1 * 10^16 seconds. */
  lemma MixedCrackTime(s: string)
    requires s == MIXED
    ensures EstimateCrackTime(SecondsToCrack(s)) == Millennia
  {
    MixedClasses(s);
    assert CharsetSize(s) == 94;
    Pow94Values();
    var r := SecondsToCrack(s);
    assert r * 200000000000.0 == 4205231901698742834534301696.0;
    assert r >= 315360000000.0;
  }

  /** A mixed password in the style of `Tr0ub4dor&3`: strong, with the
      single overall verdict and no advice about missing classes. */
  lemma MixedPassword()
    ensures EvaluatePasswordStrength(MIXED) == Strength(85, Strong, [Overall(Strong)], Millennia)
  {
    MixedScores(MIXED);
    MixedFeedback(MIXED, 85);
    MixedCrackTime(MIXED);
  }
}
