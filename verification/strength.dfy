/** The password strength evaluator: a length score, a character-diversity
    score and a complexity score are summed into a 0..100 score, bucketed
    into a level, and accompanied by an ordered list of advice and a
    crack-time estimate. Everything here is a pure function of the
    password. */
module PasswordStrength {
  import opened CharClasses

  /** `PasswordStrength['level']`. */
  datatype Level = Weak | Fair | Good | Strong

  function LevelRank(l: Level): nat
  {
    match l
    case Weak => 0
    case Fair => 1
    case Good => 2
    case Strong => 3
  }

  /** The advice items, one constructor per message. `Overall(band)` is the
      generic, score-banded message given when no rule fires; its `band`
      says which of the four texts it is. */
  datatype Feedback =
    | LengthTooShort
    | AddLowercase
    | AddUppercase
    | AddDigit
    | AddSymbol
    | AvoidRepeats
    | AvoidCommonPatterns
    | AvoidKeyboardSequences
    | Overall(band: Level)
    | EnterPassword

  /** The crack-time buckets, shortest first; `NotEstimated` is the `'-'`
      reported for the empty password. */
  datatype CrackTime =
    | Instant | Seconds | Minutes | Hours | Days | Months
    | Years | Decades | Centuries | Millennia
    | NotEstimated

  datatype Strength = Strength(score: int, level: Level, feedback: seq<Feedback>, crackTime: CrackTime)

  const COMMON_PASSWORDS: seq<string> := [
    "password", "123456", "12345678", "qwerty", "abc123",
    "monkey", "1234567", "letmein", "trustno1", "dragon",
    "baseball", "111111", "iloveyou", "master", "sunshine",
    "ashley", "bailey", "passw0rd", "shadow", "123123",
    "654321", "superman", "qazwsx", "michael", "football"
  ]

  const KEYBOARD_PATTERNS: seq<string> := [
    "qwerty", "asdfgh", "zxcvbn", "12345", "qazwsx",
    "qwertyuiop", "asdfghjkl", "zxcvbnm"
  ]

  /** The alternatives of the ascending-digits regular expression. */
  const DIGIT_RUNS: seq<string> := ["012", "123", "234", "345", "456", "567", "678", "789"]

  /** The alternatives of the ascending-letters regular expression. */
  const LETTER_RUNS: seq<string> := [
    "abc", "bcd", "cde", "def", "efg", "fgh", "ghi", "hij", "ijk", "jkl", "klm", "lmn",
    "mno", "nop", "opq", "pqr", "qrs", "rst", "stu", "tuv", "uvw", "vwx", "wxy", "xyz"
  ]

  // ---------------------------------------------------------------------
  // Length score

  /** `calculateLengthScore`: a step function of the length. */
  function LengthScore(password: string): (r: int)
    ensures r == 0 || r == 10 || r == 20 || r == 25 || r == 30
    ensures r == 0 <==> |password| < 8
    ensures r == 10 <==> 8 <= |password| < 12
    ensures r == 20 <==> 12 <= |password| < 16
    ensures r == 25 <==> 16 <= |password| < 20
    ensures r == 30 <==> |password| >= 20
  {
    var n := |password|;
    if n < 8 then 0
    else if n < 12 then 10
    else if n < 16 then 20
    else if n < 20 then 25
    else 30
  }

  /** A longer password never has a lower length score. */
  lemma LengthScoreMonotone(a: string, b: string)
    requires |a| <= |b|
    ensures LengthScore(a) <= LengthScore(b)
  {
  }

  // ---------------------------------------------------------------------
  // Diversity score

  function Indicator(b: bool): nat
  {
    if b then 1 else 0
  }

  /** A set of classes has as many members as it has classes among the
      four. */
  lemma {:induction false} ClassSetSize(ks: set<CharClass>)
    ensures |ks| ==
      Indicator(Lower in ks) + Indicator(Upper in ks) + Indicator(Digit in ks) + Indicator(Symbol in ks)
  {
    var k1 := ks - {Lower};
    var k2 := k1 - {Upper};
    var k3 := k2 - {Digit};
    var k4 := k3 - {Symbol};
    assert Upper in k1 <==> Upper in ks;
    assert Digit in k2 <==> Digit in ks;
    assert Symbol in k3 <==> Symbol in ks;
    assert |ks| == |k1| + Indicator(Lower in ks);
    assert |k1| == |k2| + Indicator(Upper in ks);
    assert |k2| == |k3| + Indicator(Digit in ks);
    assert |k3| == |k4| + Indicator(Symbol in ks);
    assert k4 == {} by {
      forall k | k in k4 ensures false {
        match k
        case Lower =>
        case Upper =>
        case Digit =>
        case Symbol =>
      }
    }
  }

  /** `calculateDiversityScore`: ten points per class present. */
  function DiversityScore(password: string): (r: int)
    ensures r == 10 * |ClassesPresent(password)|
    ensures 0 <= r <= 40 && r % 10 == 0
  {
    ClassSetSize(ClassesPresent(password));
    (if Has(password, Lower) then 10 else 0)
    + (if Has(password, Upper) then 10 else 0)
    + (if Has(password, Digit) then 10 else 0)
    + (if Has(password, Symbol) then 10 else 0)
  }

  // ---------------------------------------------------------------------
  // Complexity score

  /** `(.)\1{2,}`: `.` matches any character but a line terminator. */
  predicate IsLineTerminator(c: char)
  {
    c == '\n' || c == '\r' || c == '\U{2028}' || c == '\U{2029}'
  }

  /** Three equal characters, not line terminators, start at `i`. */
  predicate RepeatAt(s: string, i: int)
  {
    0 <= i && i + 2 < |s| && !IsLineTerminator(s[i]) && s[i + 1] == s[i] && s[i + 2] == s[i]
  }

  /** `/(.)\1{2,}/.test(s)`. */
  predicate HasRepeat(s: string)
  {
    exists i | 0 <= i < |s| :: RepeatAt(s, i)
  }

  /** `(.)\1{2,}` matches exactly when some character other than a line
      terminator occurs three times in a row: a longer run contains such a
      triple, and a triple is already a match. */
  lemma RepeatIsTriple(s: string)
    ensures HasRepeat(s) <==> exists c | !IsLineTerminator(c) :: Contains(s, [c, c, c])
  {
    if HasRepeat(s) {
      var i :| 0 <= i < |s| && RepeatAt(s, i);
      assert OccursAt(s, [s[i], s[i], s[i]], i);
    }
    if exists c | !IsLineTerminator(c) :: Contains(s, [c, c, c]) {
      var c :| !IsLineTerminator(c) && Contains(s, [c, c, c]);
      var i :| 0 <= i <= |s| - 3 && OccursAt(s, [c, c, c], i);
      assert s[i..i + 3] == [c, c, c];
      assert s[i] == c && s[i + 1] == c && s[i + 2] == c;
      assert RepeatAt(s, i);
    }
  }

  /** Some common password occurs in the lowercased password. */
  predicate HasCommonPassword(s: string)
  {
    ContainsAny(AsciiLower(s), COMMON_PASSWORDS)
  }

  /** Some keyboard pattern occurs in the lowercased password. */
  predicate HasKeyboardPattern(s: string)
  {
    ContainsAny(AsciiLower(s), KEYBOARD_PATTERNS)
  }

  /** The digit-run expression has no `i` flag and runs on the password
      itself. */
  predicate HasDigitRun(s: string)
  {
    ContainsAny(s, DIGIT_RUNS)
  }

  /** The letter-run expression carries the `i` flag and no `u` flag, so it
      folds exactly the ASCII letters: matching the alternatives against the
      ASCII-lowercased password is the same test. */
  predicate HasLetterRun(s: string)
  {
    ContainsAny(AsciiLower(s), LETTER_RUNS)
  }

  /** Three consecutive ascending digits start at `i`. */
  predicate AscendingDigitsAt(s: string, i: int)
  {
    0 <= i && i + 2 < |s| && IsDigit(s[i]) && IsDigit(s[i + 2])
    && s[i + 1] as int == s[i] as int + 1 && s[i + 2] as int == s[i] as int + 2
  }

  /** Three consecutive ascending letters, in either case, start at `i`. */
  predicate AscendingLettersAt(s: string, i: int)
  {
    var t := AsciiLower(s);
    0 <= i && i + 2 < |s| && IsLower(t[i]) && IsLower(t[i + 2])
    && t[i + 1] as int == t[i] as int + 1 && t[i + 2] as int == t[i] as int + 2
  }

  /** Each ascending digit triple is one of the listed alternatives. */
  lemma DigitRunListed(s: string, i: int)
    requires AscendingDigitsAt(s, i)
    ensures s[i..i + 3] in DIGIT_RUNS
  {
    var c := s[i];
    var r := s[i..i + 3];
    assert r[0] == c && r[1] as int == c as int + 1 && r[2] as int == c as int + 2;
    if c == '0' { assert r == DIGIT_RUNS[0]; }
    else if c == '1' { assert r == DIGIT_RUNS[1]; }
    else if c == '2' { assert r == DIGIT_RUNS[2]; }
    else if c == '3' { assert r == DIGIT_RUNS[3]; }
    else if c == '4' { assert r == DIGIT_RUNS[4]; }
    else if c == '5' { assert r == DIGIT_RUNS[5]; }
    else if c == '6' { assert r == DIGIT_RUNS[6]; }
    else { assert r == DIGIT_RUNS[7]; }
  }

  /** The digit-run alternatives match exactly the ascending digit
      triples. */
  lemma DigitRunsAreAscending(s: string)
    ensures HasDigitRun(s) <==> exists i | 0 <= i < |s| :: AscendingDigitsAt(s, i)
  {
    if HasDigitRun(s) {
      var p :| p in DIGIT_RUNS && Contains(s, p);
      var i :| 0 <= i <= |s| - |p| && OccursAt(s, p, i);
      assert s[i..i + 3] == p;
      assert s[i] == p[0] && s[i + 1] == p[1] && s[i + 2] == p[2];
      assert AscendingDigitsAt(s, i);
    }
    if exists i | 0 <= i < |s| :: AscendingDigitsAt(s, i) {
      var i :| 0 <= i < |s| && AscendingDigitsAt(s, i);
      DigitRunListed(s, i);
      assert OccursAt(s, s[i..i + 3], i);
    }
  }

  /** Each ascending lowercase triple is one of the listed alternatives. */
  lemma LetterRunListed(t: string, i: int)
    requires 0 <= i && i + 2 < |t| && IsLower(t[i]) && IsLower(t[i + 2])
    requires t[i + 1] as int == t[i] as int + 1 && t[i + 2] as int == t[i] as int + 2
    ensures t[i..i + 3] in LETTER_RUNS
  {
    var r := t[i..i + 3];
    assert r[0] == t[i] && r[1] == t[i + 1] && r[2] == t[i + 2];
    if r[0] <= 'h' {
      EarlyLetterRunListed(r);
    } else if r[0] <= 'p' {
      MiddleLetterRunListed(r);
    } else {
      LateLetterRunListed(r);
    }
  }

  /** Ascending triples from `a` to `h`. */
  lemma EarlyLetterRunListed(r: string)
    requires |r| == 3 && 'a' <= r[0] <= 'h'
    requires r[1] as int == r[0] as int + 1 && r[2] as int == r[0] as int + 2
    ensures r in LETTER_RUNS
  {
    if r[0] == 'a' { assert r == LETTER_RUNS[0]; }
    else if r[0] == 'b' { assert r == LETTER_RUNS[1]; }
    else if r[0] == 'c' { assert r == LETTER_RUNS[2]; }
    else if r[0] == 'd' { assert r == LETTER_RUNS[3]; }
    else if r[0] == 'e' { assert r == LETTER_RUNS[4]; }
    else if r[0] == 'f' { assert r == LETTER_RUNS[5]; }
    else if r[0] == 'g' { assert r == LETTER_RUNS[6]; }
    else { assert r == LETTER_RUNS[7]; }
  }

  /** Ascending triples from `i` to `p`. */
  lemma MiddleLetterRunListed(r: string)
    requires |r| == 3 && 'i' <= r[0] <= 'p'
    requires r[1] as int == r[0] as int + 1 && r[2] as int == r[0] as int + 2
    ensures r in LETTER_RUNS
  {
    if r[0] == 'i' { assert r == LETTER_RUNS[8]; }
    else if r[0] == 'j' { assert r == LETTER_RUNS[9]; }
    else if r[0] == 'k' { assert r == LETTER_RUNS[10]; }
    else if r[0] == 'l' { assert r == LETTER_RUNS[11]; }
    else if r[0] == 'm' { assert r == LETTER_RUNS[12]; }
    else if r[0] == 'n' { assert r == LETTER_RUNS[13]; }
    else if r[0] == 'o' { assert r == LETTER_RUNS[14]; }
    else { assert r == LETTER_RUNS[15]; }
  }

  /** Ascending triples from `q` to `x`. */
  lemma LateLetterRunListed(r: string)
    requires |r| == 3 && 'q' <= r[0] <= 'x'
    requires r[1] as int == r[0] as int + 1 && r[2] as int == r[0] as int + 2
    ensures r in LETTER_RUNS
  {
    if r[0] == 'q' { assert r == LETTER_RUNS[16]; }
    else if r[0] == 'r' { assert r == LETTER_RUNS[17]; }
    else if r[0] == 's' { assert r == LETTER_RUNS[18]; }
    else if r[0] == 't' { assert r == LETTER_RUNS[19]; }
    else if r[0] == 'u' { assert r == LETTER_RUNS[20]; }
    else if r[0] == 'v' { assert r == LETTER_RUNS[21]; }
    else if r[0] == 'w' { assert r == LETTER_RUNS[22]; }
    else { assert r == LETTER_RUNS[23]; }
  }

  /** A run of three ascending characters. */
  predicate AscendingTriple(p: string)
  {
    |p| == 3 && p[1] as int == p[0] as int + 1 && p[2] as int == p[0] as int + 2
  }

  /** Three ascending lowercase letters. */
  predicate LowerRun(p: string)
  {
    AscendingTriple(p) && IsLower(p[0]) && IsLower(p[2])
  }

  /** Every pattern of `ps` from index `j` on is a lowercase run. */
  predicate LowerRunsFrom(ps: seq<string>, j: nat)
    decreases |ps| - j
  {
    j >= |ps| || (LowerRun(ps[j]) && LowerRunsFrom(ps, j + 1))
  }

  lemma {:induction false} LowerRunsFromAll(ps: seq<string>, j: nat)
    requires LowerRunsFrom(ps, j)
    ensures forall k | j <= k < |ps| :: LowerRun(ps[k])
    decreases |ps| - j
  {
    if j < |ps| {
      LowerRunsFromAll(ps, j + 1);
    }
  }

  /** Every listed letter run is three ascending lowercase letters. */
  lemma LetterRunsAscend()
    ensures forall p | p in LETTER_RUNS :: LowerRun(p)
  {
    assert LowerRunsFrom(LETTER_RUNS, 20);
    assert LowerRunsFrom(LETTER_RUNS, 16);
    assert LowerRunsFrom(LETTER_RUNS, 12);
    assert LowerRunsFrom(LETTER_RUNS, 8);
    assert LowerRunsFrom(LETTER_RUNS, 4);
    assert LowerRunsFrom(LETTER_RUNS, 0);
    LowerRunsFromAll(LETTER_RUNS, 0);
  }

  /** The letter-run alternatives, matched without regard to case, match
      exactly the ascending letter triples. */
  lemma LetterRunsAreAscending(s: string)
    ensures HasLetterRun(s) <==> exists i | 0 <= i < |s| :: AscendingLettersAt(s, i)
  {
    var t := AsciiLower(s);
    if HasLetterRun(s) {
      var p :| p in LETTER_RUNS && Contains(t, p);
      LetterRunsAscend();
      assert LowerRun(p);
      var i :| 0 <= i <= |t| - |p| && OccursAt(t, p, i);
      assert t[i..i + 3] == p;
      assert t[i] == p[0] && t[i + 1] == p[1] && t[i + 2] == p[2];
      assert AscendingLettersAt(s, i);
    }
    if exists i | 0 <= i < |s| :: AscendingLettersAt(s, i) {
      var i :| 0 <= i < |s| && AscendingLettersAt(s, i);
      LetterRunListed(t, i);
      assert OccursAt(t, t[i..i + 3], i);
    }
  }

  /** The five deductions of the complexity score. */
  datatype Penalty = CommonPassword | KeyboardPattern | RepeatedCharacter | DigitSequence | LetterSequence

  function Weight(p: Penalty): nat
  {
    match p
    case CommonPassword => 15
    case KeyboardPattern => 10
    case RepeatedCharacter => 5
    case DigitSequence => 5
    case LetterSequence => 5
  }

  predicate Fires(s: string, p: Penalty)
  {
    match p
    case CommonPassword => HasCommonPassword(s)
    case KeyboardPattern => HasKeyboardPattern(s)
    case RepeatedCharacter => HasRepeat(s)
    case DigitSequence => HasDigitRun(s)
    case LetterSequence => HasLetterRun(s)
  }

  function Charge(s: string, p: Penalty): nat
  {
    if Fires(s, p) then Weight(p) else 0
  }

  /** The total deduction: each penalty counted once, when it fires. */
  function Charged(s: string): nat
  {
    Charge(s, CommonPassword) + Charge(s, KeyboardPattern) + Charge(s, RepeatedCharacter)
    + Charge(s, DigitSequence) + Charge(s, LetterSequence)
  }

  /** All five penalties together weigh 40, more than the 30 they are
      deducted from. */
  lemma PenaltiesTotal(s: string)
    requires forall p :: Fires(s, p)
    ensures Charged(s) == 40
  {
    assert Fires(s, CommonPassword) && Fires(s, KeyboardPattern) && Fires(s, RepeatedCharacter);
    assert Fires(s, DigitSequence) && Fires(s, LetterSequence);
  }

  /** `calculateComplexityScore`: start from 30, deduct each penalty that
      fires, and clamp at zero. */
  function ComplexityScore(password: string): (r: int)
    ensures 0 <= r <= 30
    ensures r == Max(0, 30 - Charged(password))
    ensures r == 30 <==> forall p :: !Fires(password, p)
    ensures forall p :: Fires(password, p) ==> r <= 30 - Weight(p)
  {
    var s0 := 30;
    var s1 := if HasCommonPassword(password) then s0 - 15 else s0;
    var s2 := if HasKeyboardPattern(password) then s1 - 10 else s1;
    var s3 := if HasRepeat(password) then s2 - 5 else s2;
    var s4 := if HasDigitRun(password) then s3 - 5 else s3;
    var s5 := if HasLetterRun(password) then s4 - 5 else s4;
    Max(0, s5)
  }

  // ---------------------------------------------------------------------
  // Level

  /** The level of a total score, with cut points 40, 60 and 80. */
  function LevelOf(score: int): (l: Level)
    ensures l == Weak <==> score < 40
    ensures l == Fair <==> 40 <= score < 60
    ensures l == Good <==> 60 <= score < 80
    ensures l == Strong <==> 80 <= score
  {
    if score < 40 then Weak
    else if score < 60 then Fair
    else if score < 80 then Good
    else Strong
  }

  /** A higher score never gets a lower level. */
  lemma LevelMonotone(a: int, b: int)
    requires a <= b
    ensures LevelRank(LevelOf(a)) <= LevelRank(LevelOf(b))
  {
  }

  /** The cut points belong to the upper level. */
  lemma LevelCutPoints()
    ensures LevelOf(39) == Weak && LevelOf(40) == Fair
    ensures LevelOf(59) == Fair && LevelOf(60) == Good
    ensures LevelOf(79) == Good && LevelOf(80) == Strong
  {
  }

  // ---------------------------------------------------------------------
  // Feedback

  /** The position of an item in the fixed rule order. */
  function Rank(f: Feedback): nat
  {
    match f
    case LengthTooShort => 0
    case AddLowercase => 1
    case AddUppercase => 2
    case AddDigit => 3
    case AddSymbol => 4
    case AvoidRepeats => 5
    case AvoidCommonPatterns => 6
    case AvoidKeyboardSequences => 7
    case Overall(_) => 8
    case EnterPassword => 9
  }

  /** The eight rule-based items. */
  predicate IsRule(f: Feedback)
  {
    Rank(f) < 8
  }

  /** The condition under which each rule-based item is given: the test
      behind it, as `TestsOf` runs it, succeeded. */
  predicate RuleFires(s: string, f: Feedback)
  {
    Triggered(TestsOf(s), f)
  }

  /** No rule-based item is given. */
  predicate NoRuleFires(s: string)
  {
    NoneTriggered(TestsOf(s))
  }

  /** Items in strictly increasing rule order: hence no item twice. */
  predicate Ordered(fb: seq<Feedback>)
  {
    forall i, j | 0 <= i < j < |fb| :: Rank(fb[i]) < Rank(fb[j])
  }

  predicate RanksBelow(fb: seq<Feedback>, n: nat)
  {
    forall f | f in fb :: Rank(f) < n
  }

  /** Lists with the same members are both empty or both not. */
  lemma SameMembersSameEmptiness(a: seq<Feedback>, b: seq<Feedback>)
    requires forall f :: f in a <==> f in b
    ensures |a| == 0 <==> |b| == 0
  {
    if |a| > 0 {
      assert a[0] in b;
    }
    if |b| > 0 {
      assert b[0] in a;
    }
  }

  /** An ordered list of advice is determined by its items: the rule order
      fixes where each one goes. */
  lemma {:induction false} OrderedUnique(a: seq<Feedback>, b: seq<Feedback>)
    requires Ordered(a) && Ordered(b)
    requires forall f :: f in a <==> f in b
    ensures a == b
    decreases |a| + |b|
  {
    SameMembersSameEmptiness(a, b);
    if |a| > 0 {
      HeadsAgree(a, b);
      TailsAgree(a, b);
      OrderedUnique(a[1..], b[1..]);
      assert a == [a[0]] + a[1..];
      assert b == [b[0]] + b[1..];
    }
  }

  /** Two non-empty ordered lists with the same members start alike: the
      head is the member of least rank. */
  lemma HeadsAgree(a: seq<Feedback>, b: seq<Feedback>)
    requires Ordered(a) && Ordered(b) && |a| > 0 && |b| > 0
    requires forall f :: f in a <==> f in b
    ensures a[0] == b[0]
  {
    assert a[0] in b;
    var j :| 0 <= j < |b| && b[j] == a[0];
    assert b[0] in a;
    var i :| 0 <= i < |a| && a[i] == b[0];
  }

  /** ... and after the common head they still have the same members. */
  lemma TailsAgree(a: seq<Feedback>, b: seq<Feedback>)
    requires Ordered(a) && Ordered(b) && |a| > 0 && |b| > 0 && a[0] == b[0]
    requires forall f :: f in a <==> f in b
    ensures Ordered(a[1..]) && Ordered(b[1..])
    ensures forall f :: f in a[1..] <==> f in b[1..]
  {
    forall f ensures f in a[1..] <==> f in b[1..] {
      if f in a[1..] {
        var k :| 1 <= k < |a| && a[k] == f;
        assert f in a;
        var m :| 0 <= m < |b| && b[m] == f;
        assert m != 0;
        assert b[1..][m - 1] == f;
      }
      if f in b[1..] {
        var k :| 1 <= k < |b| && b[k] == f;
        assert f in b;
        var m :| 0 <= m < |a| && a[m] == f;
        assert m != 0;
        assert a[1..][m - 1] == f;
      }
    }
  }

  /** `feedback.push(item)` under `cond`. */
  function Push(fb: seq<Feedback>, cond: bool, item: Feedback): seq<Feedback>
  {
    if cond then fb + [item] else fb
  }

  /** A push after items of lower rank keeps the list in rule order. */
  lemma PushStep(fb: seq<Feedback>, cond: bool, item: Feedback)
    requires Ordered(fb) && RanksBelow(fb, Rank(item))
    ensures Ordered(Push(fb, cond, item)) && RanksBelow(Push(fb, cond, item), Rank(item) + 1)
    ensures forall f :: f in Push(fb, cond, item) <==> f in fb || (cond && f == item)
  {
  }

  /** The outcome of each rule's test. */
  datatype RuleTests = RuleTests(
    short: bool, noLower: bool, noUpper: bool, noDigit: bool, noSymbol: bool,
    repeat: bool, common: bool, keyboard: bool)

  function TestsOf(password: string): RuleTests
  {
    RuleTests(|password| < 12, !Has(password, Lower), !Has(password, Upper), !Has(password, Digit),
              !Has(password, Symbol), HasRepeat(password), HasCommonPassword(password),
              HasKeyboardPattern(password))
  }

  /** No test succeeded. */
  predicate NoneTriggered(t: RuleTests)
  {
    !t.short && !t.noLower && !t.noUpper && !t.noDigit && !t.noSymbol
    && !t.repeat && !t.common && !t.keyboard
  }

  /** Whether the test behind a rule-based item succeeded. */
  predicate Triggered(t: RuleTests, f: Feedback)
  {
    match f
    case LengthTooShort => t.short
    case AddLowercase => t.noLower
    case AddUppercase => t.noUpper
    case AddDigit => t.noDigit
    case AddSymbol => t.noSymbol
    case AvoidRepeats => t.repeat
    case AvoidCommonPatterns => t.common
    case AvoidKeyboardSequences => t.keyboard
    case Overall(_) => false
    case EnterPassword => false
  }

  /** `fb` holds exactly the items whose test succeeded. */
  predicate Lists(fb: seq<Feedback>, t: RuleTests)
  {
    && (LengthTooShort in fb <==> t.short)
    && (AddLowercase in fb <==> t.noLower)
    && (AddUppercase in fb <==> t.noUpper)
    && (AddDigit in fb <==> t.noDigit)
    && (AddSymbol in fb <==> t.noSymbol)
    && (AvoidRepeats in fb <==> t.repeat)
    && (AvoidCommonPatterns in fb <==> t.common)
    && (AvoidKeyboardSequences in fb <==> t.keyboard)
  }

  /** The rule-based items in the order `generateFeedback` tests them. */
  const RULE_ORDER: seq<Feedback> :=
    [LengthTooShort, AddLowercase, AddUppercase, AddDigit, AddSymbol,
     AvoidRepeats, AvoidCommonPatterns, AvoidKeyboardSequences]

  /** The list is the rule order, indexed by rank. */
  lemma RuleOrderRanks()
    ensures |RULE_ORDER| == 8
    ensures forall i | 0 <= i < 8 :: Rank(RULE_ORDER[i]) == i
    ensures forall f | IsRule(f) :: RULE_ORDER[Rank(f)] == f
  {
    forall f | IsRule(f) ensures RULE_ORDER[Rank(f)] == f {
      match f
      case LengthTooShort =>
      case AddLowercase =>
      case AddUppercase =>
      case AddDigit =>
      case AddSymbol =>
      case AvoidRepeats =>
      case AvoidCommonPatterns =>
      case AvoidKeyboardSequences =>
      case Overall(_) =>
      case EnterPassword =>
    }
  }

  /** The first `n` of the eight pushes of `generateFeedback`, given the
      outcome of each rule's test. */
  function PushesUpTo(t: RuleTests, n: nat): seq<Feedback>
    requires n <= |RULE_ORDER|
  {
    if n == 0 then []
    else Push(PushesUpTo(t, n - 1), Triggered(t, RULE_ORDER[n - 1]), RULE_ORDER[n - 1])
  }

  /** After `n` pushes the list holds, in rule order, the items of rank
      below `n` whose test succeeded. */
  lemma {:induction false} PushesUpToListed(t: RuleTests, n: nat)
    requires n <= |RULE_ORDER|
    ensures Ordered(PushesUpTo(t, n)) && RanksBelow(PushesUpTo(t, n), n)
    ensures forall f :: f in PushesUpTo(t, n) <==> Rank(f) < n && Triggered(t, f)
  {
    RuleOrderRanks();
    if n > 0 {
      var item := RULE_ORDER[n - 1];
      PushesUpToListed(t, n - 1);
      PushStep(PushesUpTo(t, n - 1), Triggered(t, item), item);
      forall f ensures f in PushesUpTo(t, n) <==> Rank(f) < n && Triggered(t, f) {
        if Rank(f) == n - 1 && Triggered(t, f) {
          assert RULE_ORDER[Rank(f)] == f;
        }
      }
    }
  }

  /** All eight pushes of `generateFeedback`. */
  function Pushes(t: RuleTests): seq<Feedback>
  {
    PushesUpTo(t, 8)
  }

  /** The pushes list the items whose test succeeded, in rule order. */
  lemma PushesListed(t: RuleTests)
    ensures Ordered(Pushes(t)) && RanksBelow(Pushes(t), 8)
    ensures Lists(Pushes(t), t)
  {
    PushesUpToListed(t, 8);
  }

  /** The rule-based advice is the one ordered list holding exactly the
      items whose test succeeded. */
  lemma PushesDetermined(t: RuleTests, w: seq<Feedback>)
    requires Ordered(w) && RanksBelow(w, 8) && Lists(w, t)
    ensures Pushes(t) == w
  {
    var r := Pushes(t);
    PushesListed(t);
    forall f ensures f in r <==> f in w {
      match f
      case LengthTooShort =>
      case AddLowercase =>
      case AddUppercase =>
      case AddDigit =>
      case AddSymbol =>
      case AvoidRepeats =>
      case AvoidCommonPatterns =>
      case AvoidKeyboardSequences =>
      case Overall(_) =>
        assert f !in r && f !in w;
      case EnterPassword =>
        assert f !in r && f !in w;
    }
    OrderedUnique(r, w);
  }

  /** The rule-based part of `generateFeedback`: each item pushed when its
      condition holds, in rule order. */
  function RuleItems(password: string): (fb: seq<Feedback>)
    ensures Ordered(fb) && RanksBelow(fb, 8)
    ensures LengthTooShort in fb <==> |password| < 12
    ensures AddLowercase in fb <==> !Has(password, Lower)
    ensures AddUppercase in fb <==> !Has(password, Upper)
    ensures AddDigit in fb <==> !Has(password, Digit)
    ensures AddSymbol in fb <==> !Has(password, Symbol)
    ensures AvoidRepeats in fb <==> HasRepeat(password)
    ensures AvoidCommonPatterns in fb <==> HasCommonPassword(password)
    ensures AvoidKeyboardSequences in fb <==> HasKeyboardPattern(password)
  {
    PushesListed(TestsOf(password));
    Pushes(TestsOf(password))
  }

  /** Every rule-based item is given exactly when its condition holds. */
  lemma RuleItemsFire(password: string)
    ensures forall f | IsRule(f) :: f in RuleItems(password) <==> RuleFires(password, f)
  {
    var fb := RuleItems(password);
    forall f | IsRule(f) ensures f in fb <==> RuleFires(password, f) {
      match f
      case LengthTooShort =>
      case AddLowercase =>
      case AddUppercase =>
      case AddDigit =>
      case AddSymbol =>
      case AvoidRepeats =>
      case AvoidCommonPatterns =>
      case AvoidKeyboardSequences =>
      case Overall(_) =>
      case EnterPassword =>
    }
  }

  /** No rule-based item is pushed exactly when no rule fires. */
  lemma NoRuleItems(password: string)
    ensures |RuleItems(password)| == 0 <==> NoRuleFires(password)
  {
    var fb := RuleItems(password);
    if |fb| > 0 {
      assert fb[0] in fb;
      match fb[0]
      case LengthTooShort =>
      case AddLowercase =>
      case AddUppercase =>
      case AddDigit =>
      case AddSymbol =>
      case AvoidRepeats =>
      case AvoidCommonPatterns =>
      case AvoidKeyboardSequences =>
      case Overall(_) =>
      case EnterPassword =>
    } else {
      assert fb == [];
    }
  }

  /** `generateFeedback`: the rule-based items in rule order, or else the
      one generic message for the score's band. */
  function GenerateFeedback(password: string, score: int): (fb: seq<Feedback>)
    ensures |fb| > 0
    ensures Ordered(fb)
    ensures forall f | IsRule(f) :: f in fb <==> RuleFires(password, f)
    ensures (exists b :: Overall(b) in fb) <==> NoRuleFires(password)
    ensures NoRuleFires(password) ==> fb == [Overall(LevelOf(score))]
    ensures EnterPassword !in fb
  {
    var items := RuleItems(password);
    RuleItemsFire(password);
    NoRuleItems(password);
    if |items| == 0 then
      [ if score >= 80 then Overall(Strong)
        else if score >= 60 then Overall(Good)
        else if score >= 40 then Overall(Fair)
        else Overall(Weak) ]
    else
      assert forall b :: Overall(b) !in items;
      items
  }

  /** Each complexity penalty with an advice item of its own applies exactly
      when that item is given. */
  lemma PenaltiesMatchFeedback(password: string, score: int)
    ensures Fires(password, CommonPassword) <==> AvoidCommonPatterns in GenerateFeedback(password, score)
    ensures Fires(password, KeyboardPattern) <==> AvoidKeyboardSequences in GenerateFeedback(password, score)
    ensures Fires(password, RepeatedCharacter) <==> AvoidRepeats in GenerateFeedback(password, score)
  {
    var fb := GenerateFeedback(password, score);
    assert AvoidCommonPatterns in fb <==> RuleFires(password, AvoidCommonPatterns);
    assert AvoidKeyboardSequences in fb <==> RuleFires(password, AvoidKeyboardSequences);
    assert AvoidRepeats in fb <==> RuleFires(password, AvoidRepeats);
  }

  // ---------------------------------------------------------------------
  // Crack time

  /** The guessing rate assumed by `estimateCrackTime`. */
  const ATTEMPTS_PER_SECOND: nat := 100_000_000_000

  /** The alphabet width credited to each class by `calculateEntropy`. */
  function ClassWidth(k: CharClass): nat
  {
    match k
    case Lower => 26
    case Upper => 26
    case Digit => 10
    case Symbol => 32
  }

  /** The charset-size part of `calculateEntropy`. */
  function CharsetSize(password: string): (n: nat)
    ensures n <= 94
    ensures n == 0 <==> |password| == 0
    ensures forall k :: Has(password, k) ==> ClassWidth(k) <= n
  {
    var n :=
      (if Has(password, Lower) then 26 else 0)
      + (if Has(password, Upper) then 26 else 0)
      + (if Has(password, Digit) then 10 else 0)
      + (if Has(password, Symbol) then 32 else 0);
    assert |password| > 0 ==> n > 0 by {
      if |password| > 0 {
        NonEmptyHasSomeClass(password);
      }
    }
    n
  }

  /** The charset size is the sum of the widths of the classes present:
      26 for each letter case, 10 for digits and 32 for symbols. */
  lemma CharsetSizeIsWidthSum(password: string)
    ensures CharsetSize(password)
         == 26 * |ClassesPresent(password) * {Lower, Upper}|
          + 10 * |ClassesPresent(password) * {Digit}|
          + 32 * |ClassesPresent(password) * {Symbol}|
  {
    var ks := ClassesPresent(password);
    ClassSetSize(ks * {Lower, Upper});
    ClassSetSize(ks * {Digit});
    ClassSetSize(ks * {Symbol});
  }

  /** More classes present never shrink the charset. */
  lemma CharsetSizeMonotone(s: string, t: string)
    requires ClassesPresent(s) <= ClassesPresent(t)
    ensures CharsetSize(s) <= CharsetSize(t)
  {
    assert Has(s, Lower) ==> Lower in ClassesPresent(t);
    assert Has(s, Upper) ==> Upper in ClassesPresent(t);
    assert Has(s, Digit) ==> Digit in ClassesPresent(t);
    assert Has(s, Symbol) ==> Symbol in ClassesPresent(t);
  }

  function Pow(b: nat, e: nat): nat
  {
    if e == 0 then 1 else b * Pow(b, e - 1)
  }

  /** The combinations of the full 94-character charset over 14 and 16
      positions. */
  lemma Pow94Values()
    ensures Pow(94, 14) == 4205231901698742834534301696
    ensures Pow(94, 16) == 37157429083410091685945089785856
  {
    assert Pow(94, 1) == 94;
    assert Pow(94, 2) == 8836;
    assert Pow(94, 3) == 830584;
    assert Pow(94, 4) == 78074896;
    assert Pow(94, 5) == 7339040224;
    assert Pow(94, 6) == 689869781056;
    assert Pow(94, 7) == 64847759419264;
    assert Pow(94, 8) == 6095689385410816;
    assert Pow(94, 9) == 572994802228616704;
    assert Pow(94, 10) == 53861511409489970176;
    assert Pow(94, 11) == 5062982072492057196544;
    assert Pow(94, 12) == 475920314814253376475136;
    assert Pow(94, 13) == 44736509592539817388662784;
    assert Pow(94, 14) == 4205231901698742834534301696;
    assert Pow(94, 15) == 395291798759681826446224359424;
    assert Pow(94, 16) == 37157429083410091685945089785856;
  }

  lemma {:induction false} PowMonotoneBase(a: nat, b: nat, e: nat)
    requires a <= b
    ensures Pow(a, e) <= Pow(b, e)
  {
    if e > 0 {
      PowMonotoneBase(a, b, e - 1);
      MulMonotone(a, Pow(a, e - 1), b, Pow(b, e - 1));
    }
  }

  lemma MulMonotone(a: nat, x: nat, b: nat, y: nat)
    requires a <= b && x <= y
    ensures a * x <= b * y
  {
    assert a * x <= b * x;
    assert b * x <= b * y;
  }

  lemma {:induction false} PowMonotoneExponent(b: nat, e: nat)
    requires b >= 1
    ensures Pow(b, e) <= Pow(b, e + 1)
  {
    assert Pow(b, e + 1) == b * Pow(b, e);
    MulMonotone(1, Pow(b, e), b, Pow(b, e));
  }

  /** `estimateCrackTime(calculateEntropy(password))` before rounding: the
      number of combinations `charsetSize ^ length`, half of which are
      tried on average at `ATTEMPTS_PER_SECOND`. */
  function SecondsToCrack(password: string): (r: real)
    ensures r >= 0.0
    ensures r * (2 * ATTEMPTS_PER_SECOND) as real == Pow(CharsetSize(password), |password|) as real
  {
    Pow(CharsetSize(password), |password|) as real / (2 * ATTEMPTS_PER_SECOND) as real
  }

  /** A larger exponent never gives a smaller power of a positive base. */
  lemma {:induction false} PowMonotoneExponents(b: nat, e1: nat, e2: nat)
    requires b >= 1 && e1 <= e2
    ensures Pow(b, e1) <= Pow(b, e2)
    decreases e2 - e1
  {
    if e1 < e2 {
      PowMonotoneExponent(b, e1);
      PowMonotoneExponents(b, e1 + 1, e2);
    }
  }

  /** A password no shorter, with no fewer classes present, never takes
      less time to crack: the charset and the exponent can only grow. */
  lemma SecondsToCrackMonotone(a: string, b: string)
    requires ClassesPresent(a) <= ClassesPresent(b) && |a| <= |b|
    ensures SecondsToCrack(a) <= SecondsToCrack(b)
  {
    CharsetSizeMonotone(a, b);
    var x, y := CharsetSize(a), CharsetSize(b);
    PowMonotoneBase(x, y, |a|);
    if |b| > 0 {
      PowMonotoneExponents(y, |a|, |b|);
    }
    assert Pow(x, |a|) <= Pow(y, |b|);
  }

  function CrackRank(t: CrackTime): nat
  {
    match t
    case Instant => 0
    case Seconds => 1
    case Minutes => 2
    case Hours => 3
    case Days => 4
    case Months => 5
    case Years => 6
    case Decades => 7
    case Centuries => 8
    case Millennia => 9
    case NotEstimated => 10
  }

  /** The least number of seconds reported in bucket `t`. */
  function BucketStart(t: CrackTime): real
  {
    match t
    case Instant => 0.0
    case Seconds => 1.0
    case Minutes => 60.0
    case Hours => 3600.0
    case Days => 86400.0
    case Months => 2592000.0
    case Years => 31536000.0
    case Decades => 3153600000.0
    case Centuries => 31536000000.0
    case Millennia => 315360000000.0
    case NotEstimated => 0.0
  }

  /** A bucket ends where the next one starts. */
  function BucketEnd(t: CrackTime): real
  {
    match t
    case Instant => BucketStart(Seconds)
    case Seconds => BucketStart(Minutes)
    case Minutes => BucketStart(Hours)
    case Hours => BucketStart(Days)
    case Days => BucketStart(Months)
    case Months => BucketStart(Years)
    case Years => BucketStart(Decades)
    case Decades => BucketStart(Centuries)
    case Centuries => BucketStart(Millennia)
    case Millennia => 0.0
    case NotEstimated => 0.0
  }

  /** The threshold ladder of `estimateCrackTime`: the bucket whose interval
      holds `seconds`. */
  function EstimateCrackTime(seconds: real): (t: CrackTime)
    ensures t != NotEstimated
    ensures t != Instant ==> BucketStart(t) <= seconds
    ensures t != Millennia ==> seconds < BucketEnd(t)
  {
    if seconds < 1.0 then Instant
    else if seconds < 60.0 then Seconds
    else if seconds < 3600.0 then Minutes
    else if seconds < 86400.0 then Hours
    else if seconds < 2592000.0 then Days
    else if seconds < 31536000.0 then Months
    else if seconds < 3153600000.0 then Years
    else if seconds < 31536000000.0 then Decades
    else if seconds < 315360000000.0 then Centuries
    else Millennia
  }

  /** A number of seconds at or past the start of bucket `t` is reported
      in `t` or a later bucket. */
  lemma PastBucketStart(t: CrackTime, seconds: real)
    requires t != NotEstimated && BucketStart(t) <= seconds
    ensures CrackRank(EstimateCrackTime(seconds)) >= CrackRank(t)
  {
  }

  /** More seconds never give a shorter estimate. */
  lemma CrackTimeMonotone(a: real, b: real)
    requires a <= b
    ensures CrackRank(EstimateCrackTime(a)) <= CrackRank(EstimateCrackTime(b))
  {
    var ta := EstimateCrackTime(a);
    if ta != Instant {
      PastBucketStart(ta, b);
    }
  }

  // ---------------------------------------------------------------------
  // Evaluation

  /** `evaluatePasswordStrength`. */
  function EvaluatePasswordStrength(password: string): (r: Strength)
    ensures |password| == 0 ==> r == Strength(0, Weak, [EnterPassword], NotEstimated)
    ensures |password| > 0 ==>
      && r.score == LengthScore(password) + DiversityScore(password) + ComplexityScore(password)
      && r.feedback == GenerateFeedback(password, r.score)
      && r.crackTime == EstimateCrackTime(SecondsToCrack(password))
    ensures 0 <= r.score <= 100
    ensures r.level == LevelOf(r.score)
    ensures |r.feedback| > 0
    ensures EnterPassword in r.feedback <==> |password| == 0
    ensures r.crackTime == NotEstimated <==> |password| == 0
  {
    if |password| == 0 then
      Strength(0, Weak, [EnterPassword], NotEstimated)
    else
      var total := LengthScore(password) + DiversityScore(password) + ComplexityScore(password);
      var level :=
        if total < 40 then Weak
        else if total < 60 then Fair
        else if total < 80 then Good
        else Strong;
      var crackTime := EstimateCrackTime(SecondsToCrack(password));
      var feedback := GenerateFeedback(password, total);
      Strength(total, level, feedback, crackTime)
  }

  /** Appending a character never shortens the crack-time estimate: the
      charset can only grow, and the exponent grows by one. */
  lemma {:induction false} LongerNeverFaster(password: string, c: char)
    requires |password| > 0
    ensures CrackRank(EvaluatePasswordStrength(password).crackTime)
         <= CrackRank(EvaluatePasswordStrength(password + [c]).crackTime)
  {
    var longer := password + [c];
    forall k | k in ClassesPresent(password) ensures k in ClassesPresent(longer) {
      HasByMembership(password, longer, k);
    }
    SecondsToCrackMonotone(password, longer);
    CrackTimeMonotone(SecondsToCrack(password), SecondsToCrack(longer));
  }

  // ---------------------------------------------------------------------
  // Display strings

  /** `getStrengthColor`: a Tailwind background class of shade 500. */
  function StrengthColor(l: Level): (c: string)
    ensures |c| > 7 && c[..3] == "bg-" && c[|c| - 4..] == "-500"
  {
    match l
    case Weak => "bg-red-500"
    case Fair => "bg-orange-500"
    case Good => "bg-yellow-500"
    case Strong => "bg-green-500"
  }

  /** `getStrengthText`: a one-character label. */
  function StrengthText(l: Level): (t: string)
    ensures |t| == 1
  {
    match l
    case Weak => "弱"
    case Fair => "中"
    case Good => "良"
    case Strong => "强"
  }

  /** Different levels are shown with different colours and labels. */
  lemma LevelDisplayDistinct(a: Level, b: Level)
    requires a != b
    ensures StrengthColor(a) != StrengthColor(b)
    ensures StrengthText(a) != StrengthText(b)
  {
    assert StrengthColor(a)[3] != StrengthColor(b)[3];
    assert StrengthText(a)[0] != StrengthText(b)[0];
  }

  /** The message shown for each advice item. */
  function FeedbackText(f: Feedback): (t: string)
    ensures |t| > 0
  {
    match f
    case LengthTooShort => "建议密码长度至少 12 位"
    case AddLowercase => "建议添加小写字母"
    case AddUppercase => "建议添加大写字母"
    case AddDigit => "建议添加数字"
    case AddSymbol => "建议添加特殊字符"
    case AvoidRepeats => "避免连续重复字符"
    case AvoidCommonPatterns => "避免使用常见密码模式"
    case AvoidKeyboardSequences => "避免使用键盘序列"
    case Overall(Strong) => "密码强度极佳！"
    case Overall(Good) => "密码强度良好"
    case Overall(Fair) => "密码强度一般，建议增强"
    case Overall(Weak) => "密码强度较弱，建议优化"
    case EnterPassword => "请输入密码"
  }

  /** The label of each crack-time bucket. */
  function CrackTimeText(t: CrackTime): (s: string)
    ensures |s| > 0
    ensures s == "-" <==> t == NotEstimated
  {
    match t
    case Instant => "瞬间"
    case Seconds => "几秒"
    case Minutes => "几分钟"
    case Hours => "几小时"
    case Days => "几天"
    case Months => "几个月"
    case Years => "几年"
    case Decades => "几十年"
    case Centuries => "几个世纪"
    case Millennia => "数千年"
    case NotEstimated => "-"
  }

  /** Each advice item has a message of its own, so the list of messages
      shows exactly which items were given. */
  lemma FeedbackTextsDistinct(a: Feedback, b: Feedback)
    requires a != b
    ensures FeedbackText(a) != FeedbackText(b)
  {
  }

  /** Each bucket has a label of its own. */
  lemma CrackTimeTextsDistinct(a: CrackTime, b: CrackTime)
    requires a != b
    ensures CrackTimeText(a) != CrackTimeText(b)
  {
  }
}
