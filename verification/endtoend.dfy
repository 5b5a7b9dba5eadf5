/** The generator and the evaluator together: what the evaluator says
    about the passwords the generator produces, for every random source. */
module GeneratedStrength {
  import opened CharClasses
  import opened SecureRandom
  import opened PasswordGenerator
  import opened PasswordStrength

  /** The advice item asking for a character of class `k`. */
  function AddAdvice(k: CharClass): (f: Feedback)
    ensures IsRule(f)
  {
    match k
    case Upper => AddUppercase
    case Lower => AddLowercase
    case Digit => AddDigit
    case Symbol => AddSymbol
  }

  /** The advice for class `k` is given exactly when no character of class
      `k` is present. */
  lemma AddAdviceFires(s: string, k: CharClass)
    ensures RuleFires(s, AddAdvice(k)) <==> !Has(s, k)
  {
  }

  /** A generated password is never empty: every class that gets a
      required character contributes one. */
  lemma GeneratedNonEmpty(o: PasswordOptions, g: Rng)
    ensures |GeneratePassword(o, g)| >= 1
  {
  }

  /** The evaluator never asks for a class the generator put in, and the
      password gets 10 diversity points for each such class. */
  lemma NoAdviceForIncludedClasses(o: PasswordOptions, g: Rng)
    ensures forall k :: k in EffectiveClasses(o) ==>
              AddAdvice(k) !in EvaluatePasswordStrength(GeneratePassword(o, g)).feedback
    ensures forall k :: k in EffectiveClasses(o) ==> k in ClassesPresent(GeneratePassword(o, g))
  {
    var pw := GeneratePassword(o, g);
    GeneratedNonEmpty(o, g);
    GeneratedHasClasses(o, g);
    var fb := EvaluatePasswordStrength(pw).feedback;
    assert fb == GenerateFeedback(pw, EvaluatePasswordStrength(pw).score);
    forall k | k in EffectiveClasses(o) ensures AddAdvice(k) !in fb {
      AddAdviceFires(pw, k);
    }
  }

  /** A rating of good or strong, with no advice on length or composition
      and a crack time of millennia. */
  predicate RatesWell(r: Strength)
  {
    && 65 <= r.score <= 95
    && (r.level == Good || r.level == Strong)
    && LengthTooShort !in r.feedback
    && (forall k :: AddAdvice(k) !in r.feedback)
    && r.crackTime == Millennia
  }

  /** `generatePassword` called directly with the default options, whatever
      the random source. The application itself never does so, since the
      defaults fail its validation gate. The 16 characters cover all four
      classes and score 25 for length and 40 for diversity. So the password
      rates good or strong, draws no advice on length or composition, and
      would take millennia to crack. */
  lemma DefaultPasswordsRateWell(g: Rng)
    ensures RatesWell(EvaluatePasswordStrength(GeneratePassword(DefaultPasswordOptions(), g)))
  {
    DefaultsRelyOnFallback(g);
    FullClassesRating(GeneratePassword(DefaultPasswordOptions(), g));
  }

  /** The rating of any sixteen characters with all four classes. */
  lemma FullClassesRating(pw: string)
    requires |pw| == 16 && forall k :: Has(pw, k)
    ensures RatesWell(EvaluatePasswordStrength(pw))
  {
    DefaultScores(pw);
    DefaultCrackTime(pw);
    var r := EvaluatePasswordStrength(pw);
    forall k ensures AddAdvice(k) !in r.feedback {
      AddAdviceFires(pw, k);
    }
  }

  /** Sixteen characters with all four classes: 25 for length and 40 for
      diversity. */
  lemma DefaultScores(pw: string)
    requires |pw| == 16 && forall k :: Has(pw, k)
    ensures LengthScore(pw) == 25 && DiversityScore(pw) == 40
  {
    AllClassesPresent(pw);
  }

  /** A string with a character of every class has all four classes
      present. */
  lemma AllClassesPresent(s: string)
    requires forall k :: Has(s, k)
    ensures ClassesPresent(s) == {Upper, Lower, Digit, Symbol}
  {
    forall k ensures k in ClassesPresent(s) <==> k in {Upper, Lower, Digit, Symbol} {
      match k
      case Upper =>
      case Lower =>
      case Digit =>
      case Symbol =>
    }
  }

  /** 94 characters over sixteen positions: about 1.9 * 10^20 seconds. */
  lemma DefaultCrackTime(pw: string)
    requires |pw| == 16 && forall k :: Has(pw, k)
    ensures EstimateCrackTime(SecondsToCrack(pw)) == Millennia
  {
    assert Has(pw, Upper) && Has(pw, Lower) && Has(pw, Digit) && Has(pw, Symbol);
    assert CharsetSize(pw) == 94;
    Pow94Values();
    var r := SecondsToCrack(pw);
    assert r * 200000000000.0 == 37157429083410091685945089785856.0;
    assert r >= 315360000000.0;
  }
}
