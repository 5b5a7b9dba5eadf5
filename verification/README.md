# password-factory in Dafny

A model of the two utilities at the heart of password-factory, a browser
password generator:

- the **strength evaluator** (`evaluatePasswordStrength`). It scores a
  password out of 100, built from three parts:
  - a length score, 0–30;
  - a character-diversity score, 0–40;
  - a complexity score, 0–30, from 30 less penalties for common passwords,
    keyboard sequences, triple repeats, ascending digit runs and ascending
    letter runs, clamped at 0.

  It maps the score to a level (weak, fair, good, strong), gives ordered
  advice, and estimates a crack-time bucket.
- the **generator** (`generatePassword`). Each enabled character class
  (upper, lower, digit, symbol) contributes one required character, drawn
  from its alphabet. Letters and digits can optionally drop the ambiguous
  characters `0OIl1io`. With no class enabled, all four classes are used.
  The rest of the password is filled from the combined charset, up to
  `max(length, required)`. The whole is then shuffled with Fisher-Yates.
  The module also models the options validator and the default options.

The model is written in Dafny as pure functions over `string = seq<char>`.

Modules:
- `CharClasses`: the four ASCII classes the evaluator's regular expressions
  test (`[A-Z]`, `[a-z]`, `[0-9]`, `[^a-zA-Z0-9]`), ASCII lowercasing,
  `includes`, and `Math.max`.
- `SecureRandom`: the platform's random source, as an explicit oracle. It
  is an arbitrary infinite stream of 32-bit words plus a read position.
  Every generator property holds for every stream.
- `PasswordStrength`: the evaluator and its display helpers.
- `PasswordGenerator`: the generator, the validator and the defaults.
- `StrengthVectors`: concrete inputs:
  - three full evaluations:
    - the application's sample `AAAAAAAA`;
    - the dictionary word `password`;
    - the mixed password `Tr0ub4dor&3xyz`;
  - one complexity-score vector: a password that trips all five
    penalties.
- `GeneratedStrength`: what the evaluator says about generated passwords.

Each evaluator regular expression is a predicate:
- `(.)\1{2,}` is `HasRepeat`. `.` excludes the four JavaScript line
  terminators.
- The digit-run and letter-run alternations are searches for their listed
  alternatives. Lemmas prove each search equivalent to an independent
  arithmetic definition: three consecutive ascending characters.
- The `/i` flag of the letter-run expression is modelled by lowercasing
  first. Without the `u` flag, that is exactly ASCII case folding.

## Model

| member | source | states |
|---|---|---|
| CharClasses.ClassOf | src/utils/passwordStrength.ts:48-51 | every character falls in exactly one of upper, lower, digit, symbol; symbol means "not an ASCII letter or digit" |
| CharClasses.ClassesPresent | src/utils/passwordStrength.ts:48-51 | a class is present exactly when some character of the password belongs to it |
| CharClasses.AsciiLower | src/utils/passwordStrength.ts:68 | lowercasing keeps the length, maps each `A`–`Z` to its lower-case letter, leaves every other character alone, and leaves no upper-case letter |
| CharClasses.MissingCharBlocks | src/utils/passwordStrength.ts:71 | `includes` fails whenever the pattern holds a character the text lacks |
| SecureRandom.RandomNumber | src/utils/passwordGenerator.ts:28-32 | the value is below `max` and exactly one word of the random stream is consumed |
| SecureRandom.RandomChar | src/utils/passwordGenerator.ts:39-41 | the character drawn belongs to the alphabet; one word is consumed |
| SecureRandom.EveryCharacterReachable | src/utils/passwordGenerator.ts:28-41 | for every index of the alphabet, some stream draws exactly that character |
| PasswordGenerator.RemoveAmbiguous | src/utils/passwordGenerator.ts:79 | the filtered alphabet holds exactly the characters of the input that are not among `0OIl1io` |
| PasswordGenerator.Alphabet | src/utils/passwordGenerator.ts:76-106 | each class's alphabet is non-empty and holds only characters of that class; when ambiguous characters are excluded, it holds none of them |
| PasswordGenerator.AlphabetMembers | src/utils/passwordGenerator.ts:76-106 | each class's alphabet holds exactly the characters of its class string, less the ambiguous ones when those are excluded; symbols are never filtered |
| PasswordGenerator.AlphabetSizes | src/utils/passwordGenerator.ts:15-21 | the alphabet sizes are 26/24 upper, 26/23 lower, 10/8 digits and 26 symbols, unfiltered/filtered |
| PasswordGenerator.SelectedClasses | src/utils/passwordGenerator.ts:76-106 | the enabled classes, each once, in the order upper, lower, digit, symbol; the list is empty exactly when no class is enabled |
| PasswordGenerator.Charset | src/utils/passwordGenerator.ts:81-120 | the combined charset holds exactly the characters of the classes' alphabets; it is empty exactly when no class contributes |
| PasswordGenerator.DrawRequired | src/utils/passwordGenerator.ts:82-125 | one character per class, the i-th from the i-th class's alphabet, consuming one word each |
| PasswordGenerator.DrawFiller | src/utils/passwordGenerator.ts:132-137 | `n` characters, all from the charset, consuming `n` words |
| PasswordGenerator.Shuffle | src/utils/passwordGenerator.ts:48-55 | the shuffle is a permutation of its input (same multiset) and consumes one word per position above the first |
| PasswordGenerator.ShuffleArray | src/utils/passwordGenerator.ts:48-55 | the in-place loop over a copied array computes exactly the functional shuffle and leaves the source at the same position |
| PasswordGenerator.Prepare | src/utils/passwordGenerator.ts:72-137 | before the shuffle, the draft satisfies all of: one required character per effective class, from that class's alphabet; the fallback to all four classes when none is enabled; filler from the charset; total length `max(length, required)` |
| PasswordGenerator.GeneratePassword | src/utils/passwordGenerator.ts:62-144 | the output length is `max(length, required count)`; every effective class is represented; every character is in the combined charset; with `excludeAmbiguous`, no ambiguous character appears |
| PasswordGenerator.GeneratedHasClasses | src/utils/passwordGenerator.ts:72-126 | the evaluator's class tests succeed on the output for every class that drew a required character |
| PasswordGenerator.FallbackIsAllClasses | src/utils/passwordGenerator.ts:108-126 | with no class enabled, the output is identical, for the same random stream, to the output with all four classes enabled |
| PasswordGenerator.FallbackHasAllClasses | src/utils/passwordGenerator.ts:108-126 | with no class enabled, for every length and random stream, the password has a character of all four classes and max(length, 4) characters |
| PasswordGenerator.ValidatePasswordOptions | src/utils/passwordGenerator.ts:151-165 | options pass exactly when some class is enabled and 4 <= length <= 128 |
| PasswordGenerator.ValidatorBoundaries | src/utils/passwordGenerator.ts:155-162 | with a class enabled, lengths 4 and 128 pass and 3 and 129 fail; with no class enabled nothing passes |
| PasswordGenerator.ValidOptionsGenerateAsRequested | src/utils/passwordGenerator.ts:129-144 | for options the validator accepts, the password has exactly the requested length and a character of every selected class; the fallback never applies |
| PasswordGenerator.DefaultPasswordOptions | src/utils/passwordGenerator.ts:171-180 | the defaults ask for 16 characters with no class enabled and ambiguous characters allowed |
| PasswordGenerator.DefaultsRelyOnFallback | src/utils/passwordGenerator.ts:171-180 | the defaults fail validation, yet generating with them yields 16 characters of all four classes |
| PasswordStrength.LengthScore | src/utils/passwordStrength.ts:32-39 | each of the five scores is given exactly on its band of lengths: 0 below 8, 10 for 8–11, 20 for 12–15, 25 for 16–19, 30 from 20 on |
| PasswordStrength.LengthScoreMonotone | src/utils/passwordStrength.ts:32-39 | a longer password never has a lower length score |
| PasswordStrength.DiversityScore | src/utils/passwordStrength.ts:46-59 | the score is 10 times the number of classes present, so a multiple of 10 between 0 and 40 |
| PasswordStrength.RepeatIsTriple | src/utils/passwordStrength.ts:81 | `(.)\1{2,}` matches exactly when some character other than a line terminator occurs three times in a row, as a substring; the same test guards the advice at :166 |
| PasswordStrength.DigitRunsAreAscending | src/utils/passwordStrength.ts:86 | the digit-run alternation matches exactly when three consecutive characters are ascending digits |
| PasswordStrength.LetterRunsAreAscending | src/utils/passwordStrength.ts:91 | the case-insensitive letter-run alternation matches exactly when three consecutive characters, lowercased, are ascending letters |
| PasswordStrength.ComplexityScore | src/utils/passwordStrength.ts:66-96 | the score is 30 minus the total weight of the penalties that fire, clamped at 0; it is 30 exactly when none fires; each firing penalty costs at least its weight |
| PasswordStrength.PenaltiesTotal | src/utils/passwordStrength.ts:71-95 | all five penalties together weigh 40, more than the 30 they are deducted from, which is why the clamp is needed |
| PasswordStrength.LevelOf | src/utils/passwordStrength.ts:219-223 | weak below 40, fair in [40, 60), good in [60, 80), strong from 80, each as an if-and-only-if |
| PasswordStrength.LevelMonotone | src/utils/passwordStrength.ts:219-223 | a higher score never gets a lower level |
| PasswordStrength.LevelCutPoints | src/utils/passwordStrength.ts:219-223 | the scores 40, 60 and 80 belong to the upper level |
| PasswordStrength.PushesListed | src/utils/passwordStrength.ts:144-177 | the eight conditional pushes give the items whose test succeeded, each once, in rule order |
| PasswordStrength.PushesDetermined | src/utils/passwordStrength.ts:144-177 | any list in rule order holding exactly the items whose test succeeded is the list the pushes build |
| PasswordStrength.OrderedUnique | src/utils/passwordStrength.ts:144-177 | two lists in rule order with the same items are equal |
| PasswordStrength.RuleItems | src/utils/passwordStrength.ts:146-177 | each rule's advice item is present exactly when its test succeeds: shorter than 12, no lower, no upper, no digit, no symbol, a triple repeat, a common password, a keyboard pattern; the items come in rule order |
| PasswordStrength.GenerateFeedback | src/utils/passwordStrength.ts:143-193 | the advice is never empty and is in rule order; each rule item is present exactly when its rule fires; the overall verdict appears exactly when no rule fires, and then it is the only item and names the level of the score; the enter-a-password item never appears |
| PasswordStrength.PenaltiesMatchFeedback | src/utils/passwordStrength.ts:71-81 | the common-password, keyboard and repeat penalties apply exactly when their advice items are given |
| PasswordStrength.CharsetSize | src/utils/passwordStrength.ts:103-110 | the estimated charset is at most 94; it is 0 exactly for the empty password; it is at least the width of every class present |
| PasswordStrength.CharsetSizeIsWidthSum | src/utils/passwordStrength.ts:103-110 | the estimated charset is exactly the sum of the widths of the classes present: 26 per letter case, 10 for digits, 32 for symbols |
| PasswordStrength.SecondsToCrackMonotone | src/utils/passwordStrength.ts:103-123 | a password no shorter that has every class the other has never takes fewer seconds to crack: the charset and the exponent can only grow |
| PasswordStrength.CharsetSizeMonotone | src/utils/passwordStrength.ts:103-110 | a superset of the classes present never shrinks the charset |
| PasswordStrength.EstimateCrackTime | src/utils/passwordStrength.ts:119-135 | the bucket chosen contains the number of seconds: at or past its start, before its end |
| PasswordStrength.CrackTimeMonotone | src/utils/passwordStrength.ts:125-134 | more seconds never give an earlier bucket |
| PasswordStrength.EvaluatePasswordStrength | src/utils/passwordStrength.ts:200-238 | the empty password gives score 0, weak, the enter-a-password item and no estimate; otherwise the score is the sum of the three parts, between 0 and 100, with the level of that score, the advice for that score and the crack-time bucket; the enter-a-password item and the missing estimate occur exactly for the empty password |
| PasswordStrength.LongerNeverFaster | src/utils/passwordStrength.ts:103-135 | appending a character never moves the crack-time estimate to an earlier bucket |
| PasswordStrength.StrengthColor | src/utils/passwordStrength.ts:245-253 | every colour is a Tailwind `bg-…-500` class |
| PasswordStrength.StrengthText | src/utils/passwordStrength.ts:260-268 | every level's label is a single character |
| PasswordStrength.LevelDisplayDistinct | src/utils/passwordStrength.ts:245-268 | different levels get different colours and different labels |
| PasswordStrength.FeedbackText | src/utils/passwordStrength.ts:143-193 | every advice item and verdict has a non-empty message |
| PasswordStrength.FeedbackTextsDistinct | src/utils/passwordStrength.ts:143-208 | different advice items show different messages |
| PasswordStrength.CrackTimeText | src/utils/passwordStrength.ts:119-135 | every label is non-empty, and the label is `-` exactly when no estimate is made |
| PasswordStrength.CrackTimeTextsDistinct | src/utils/passwordStrength.ts:125-134 | different buckets show different labels |
| StrengthVectors.AllCapitalA | src/App.tsx:26-28 | the application's sample `AAAAAAAA` scores 45: fair, advice [too short, add lower, add digit, add symbol, avoid repeats], crack time seconds |
| StrengthVectors.CapitalAEvaluation | src/utils/passwordStrength.ts:200-238 | the string of eight capital A's, described by its length and characters rather than as a literal, evaluates to that same result |
| StrengthVectors.DictionaryWord | src/utils/passwordStrength.ts:13-19 | `password` scores 35: weak, advice [too short, add upper, add digit, add symbol, avoid common patterns], crack time seconds |
| StrengthVectors.EveryPenaltyFloors | src/utils/passwordStrength.ts:66-96 | `qwertyaaabc123` trips all five penalties, is charged 40, and its complexity score is clamped to 0 |
| StrengthVectors.MixedPatterns | src/utils/passwordStrength.ts:66-96 | in `Tr0ub4dor&3xyz` only the letter-run penalty fires, for `xyz`; no common password, keyboard pattern, repeat or digit run |
| StrengthVectors.MixedScores | src/utils/passwordStrength.ts:32-96 | `Tr0ub4dor&3xyz` scores 20 for length, 40 for diversity and 25 for complexity |
| StrengthVectors.MixedFeedback | src/utils/passwordStrength.ts:178-190 | no advice rule fires on `Tr0ub4dor&3xyz`, so its feedback is the overall verdict for its score alone |
| StrengthVectors.MixedPassword | src/utils/passwordStrength.ts:200-238 | `Tr0ub4dor&3xyz` scores 85: strong, feedback the single strong verdict, crack time millennia |
| GeneratedStrength.NoAdviceForIncludedClasses | src/App.tsx:58-60 | the evaluator never asks a generated password for a class the generator included, and counts each such class for diversity |
| GeneratedStrength.DefaultPasswordsRateWell | src/utils/passwordGenerator.ts:171-180 | when `generatePassword` is called directly with the default options, for every random stream, the password scores between 65 and 95; it is good or strong, gets no length or composition advice, and its estimate is millennia |

## Left out

- Strings are sequences of Unicode scalar values. JavaScript strings are
  UTF-16 code units, so for characters outside the Basic Multilingual
  Plane, `length`, indexing and `.` in regular expressions differ. The model
  covers passwords without such characters.
- `toLowerCase` is modelled on ASCII letters only. Unicode case mapping of
  other characters is not modelled, and it can change an outcome: U+212A
  KELVIN SIGN lowers to the ASCII `k`. So for `"mon\u212Aey"`, the source
  finds `monkey`. It charges the 15-point common-password penalty
  (src/utils/passwordStrength.ts:71) and gives the common-patterns advice
  (:171). The model does neither.
- PasswordStrength.SecondsToCrack: computed in exact rational arithmetic.
  The source computes `Math.log2(Math.pow(n, len))` and then raises 2 to
  that power, in floating point. Rounding near a bucket boundary, and the
  overflow to `Infinity` for very long passwords, are not modelled. Overflow
  only affects passwords that exact arithmetic already places in the
  millennia bucket.
- SecureRandom.RandomNumber: `crypto.getRandomValues` becomes an arbitrary
  stream. The model states no distribution, so the modulo bias of
  `% max` and the uniformity of the shuffle are not stated.
- `length` in the options is an integer. NaN and fractional lengths, which
  `Math.max` and the filler loop would accept, are not modelled.
- The React application and components (state, timers, clipboard, toast,
  dark mode) are not part of this model. There are two exceptions. The
  vectors restate the sample password `AAAAAAAA`. `GeneratedStrength`
  restates the generate-then-evaluate step. The validation gate in front
  of that step is modelled on its own (`ValidatePasswordOptions`), not
  combined with it.
- PasswordStrength.FeedbackText: only non-emptiness and distinctness of
  the messages are stated, not their wording.
- PasswordStrength.StrengthText: only that each label is one character and
  that the labels are distinct (`LevelDisplayDistinct`) are stated. Which
  level gets which label is the display table itself and is not restated
  as a contract.
- `evaluatePasswordStrength` guards with `if (!password)`, which also
  catches `undefined` and `null`. A Dafny `string` has no such values, so
  only the empty string is modelled on that path.
- PasswordStrength.StrengthColor: only the shape `bg-…-500` and
  distinctness are stated. Which level gets which colour is the display
  table itself and is not restated as a contract.
- PasswordStrength.CrackTimeText: only non-emptiness, distinctness and
  `-` for the missing estimate are stated. Which bucket gets which label
  is the display table itself and is not restated as a contract.
