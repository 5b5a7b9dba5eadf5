/** The constrained password generator: per-class alphabets, one required
    character per enabled class, the all-classes fallback, filler draws
    from the combined charset, and a Fisher-Yates shuffle, all driven by
    the random oracle of `SecureRandom`. */
module PasswordGenerator {
  import opened CharClasses
  import opened SecureRandom

  /** The generator's options; an absent `excludeAmbiguous` is `false`. */
  datatype PasswordOptions = PasswordOptions(
    length: int,
    includeUppercase: bool,
    includeLowercase: bool,
    includeNumbers: bool,
    includeSymbols: bool,
    excludeAmbiguous: bool)

  const UPPERCASE: string := "ABCDEFGHIJKLMNOPQRSTUVWXYZ"
  const LOWERCASE: string := "abcdefghijklmnopqrstuvwxyz"
  const NUMBERS: string := "0123456789"
  const SYMBOLS: string := "!@#$%^&*()_+-=[]{}|;:,.<>?"

  /** Characters easily confused with one another. */
  const AMBIGUOUS_CHARS: string := "0OIl1io"

  // ---------------------------------------------------------------------
  // Alphabets
  // ---------------------------------------------------------------------

  /** `AMBIGUOUS_CHARS.includes(c)`, spelled out character by character. */
  predicate IsAmbiguous(c: char)
  {
    c == '0' || c == 'O' || c == 'I' || c == 'l' || c == '1' || c == 'i' || c == 'o'
  }

  lemma AmbiguousCharsListed()
    ensures forall c :: IsAmbiguous(c) <==> c in AMBIGUOUS_CHARS
  {
  }

  /** The filter applied to the characters of `s` from index `i` on. */
  function RemoveAmbiguousFrom(s: string, i: nat): string
    requires i <= |s|
    decreases |s| - i
  {
    if i == |s| then []
    else (if IsAmbiguous(s[i]) then [] else [s[i]]) + RemoveAmbiguousFrom(s, i + 1)
  }

  lemma {:induction false} RemoveAmbiguousFromMembers(s: string, i: nat)
    requires i <= |s|
    ensures forall c :: c in RemoveAmbiguousFrom(s, i) <==> c in s[i..] && !IsAmbiguous(c)
    decreases |s| - i
  {
    if i < |s| {
      RemoveAmbiguousFromMembers(s, i + 1);
      assert s[i..] == [s[i]] + s[i + 1..];
    }
  }

  /** `split('').filter(c => !AMBIGUOUS_CHARS.includes(c)).join('')`: the
      characters of `s` that are not ambiguous, in order. */
  function RemoveAmbiguous(s: string): (r: string)
    ensures forall c :: c in r <==> c in s && c !in AMBIGUOUS_CHARS
  {
    AmbiguousCharsListed();
    RemoveAmbiguousFromMembers(s, 0);
    assert s[0..] == s;
    RemoveAmbiguousFrom(s, 0)
  }

  lemma UppercaseClassified()
    ensures forall c :: c in UPPERCASE ==> IsUpper(c)
  {
  }

  lemma LowercaseClassified()
    ensures forall c :: c in LOWERCASE ==> IsLower(c)
  {
  }

  lemma NumbersClassified()
    ensures forall c :: c in NUMBERS ==> IsDigit(c)
  {
  }

  lemma SymbolsClassified()
    ensures forall c :: c in SYMBOLS ==> IsSymbol(c)
  {
  }

  /** Every ambiguous character is a letter or a digit, so filtering
      could never touch the symbol alphabet. */
  lemma AmbiguousAreAlphanumeric()
    ensures forall c :: c in AMBIGUOUS_CHARS ==> !IsSymbol(c)
  {
  }

  lemma SymbolsUnambiguous()
    ensures forall c :: c in SYMBOLS ==> c !in AMBIGUOUS_CHARS
  {
    SymbolsClassified();
    AmbiguousAreAlphanumeric();
  }

  /** A class string, filtered when `excludeAmbiguous` is set. */
  function MaybeFiltered(full: string, k: CharClass, keep: char, excludeAmbiguous: bool): (r: string)
    requires forall c :: c in full ==> ClassOf(c) == k
    requires keep in full && keep !in AMBIGUOUS_CHARS
    ensures keep in r
    ensures forall c :: c in r <==> c in full && !(excludeAmbiguous && c in AMBIGUOUS_CHARS)
    ensures forall c :: c in r ==> ClassOf(c) == k
    ensures excludeAmbiguous ==> forall c :: c in r ==> c !in AMBIGUOUS_CHARS
  {
    if excludeAmbiguous then RemoveAmbiguous(full) else full
  }

  function UpperAlphabet(excludeAmbiguous: bool): (r: string)
    ensures |r| > 0
    ensures forall c :: c in r <==> c in UPPERCASE && !(excludeAmbiguous && c in AMBIGUOUS_CHARS)
    ensures forall c :: c in r ==> ClassOf(c) == Upper
    ensures excludeAmbiguous ==> forall c :: c in r ==> c !in AMBIGUOUS_CHARS
  {
    UppercaseClassified();
    MaybeFiltered(UPPERCASE, Upper, 'A', excludeAmbiguous)
  }

  function LowerAlphabet(excludeAmbiguous: bool): (r: string)
    ensures |r| > 0
    ensures forall c :: c in r <==> c in LOWERCASE && !(excludeAmbiguous && c in AMBIGUOUS_CHARS)
    ensures forall c :: c in r ==> ClassOf(c) == Lower
    ensures excludeAmbiguous ==> forall c :: c in r ==> c !in AMBIGUOUS_CHARS
  {
    LowercaseClassified();
    MaybeFiltered(LOWERCASE, Lower, 'a', excludeAmbiguous)
  }

  function DigitAlphabet(excludeAmbiguous: bool): (r: string)
    ensures |r| > 0
    ensures forall c :: c in r <==> c in NUMBERS && !(excludeAmbiguous && c in AMBIGUOUS_CHARS)
    ensures forall c :: c in r ==> ClassOf(c) == Digit
    ensures excludeAmbiguous ==> forall c :: c in r ==> c !in AMBIGUOUS_CHARS
  {
    NumbersClassified();
    MaybeFiltered(NUMBERS, Digit, '2', excludeAmbiguous)
  }

  function SymbolAlphabet(): (r: string)
    ensures |r| > 0
    ensures forall c :: c in r <==> c in SYMBOLS
    ensures forall c :: c in r ==> ClassOf(c) == Symbol && c !in AMBIGUOUS_CHARS
  {
    SymbolsClassified();
    SymbolsUnambiguous();
    SYMBOLS
  }

  /** The full character string of class `k`. */
  function ClassString(k: CharClass): string
  {
    match k
    case Upper => UPPERCASE
    case Lower => LOWERCASE
    case Digit => NUMBERS
    case Symbol => SYMBOLS
  }

  /** The alphabet of class `k` as the generator builds it: the full class
      string, filtered for letters and digits when `excludeAmbiguous` is
      set; symbols are never filtered. */
  function Alphabet(k: CharClass, excludeAmbiguous: bool): (r: string)
    ensures |r| > 0
    ensures forall c :: c in r ==> ClassOf(c) == k
    ensures excludeAmbiguous ==> forall c :: c in r ==> c !in AMBIGUOUS_CHARS
  {
    match k
    case Upper => UpperAlphabet(excludeAmbiguous)
    case Lower => LowerAlphabet(excludeAmbiguous)
    case Digit => DigitAlphabet(excludeAmbiguous)
    case Symbol => SymbolAlphabet()
  }

  /** Each alphabet holds exactly the characters of its class string, less
      the ambiguous ones when those are excluded: filtering drops nothing
      else, and symbols, having no ambiguous character, are never
      filtered. */
  lemma AlphabetMembers(k: CharClass, excludeAmbiguous: bool)
    ensures forall c :: c in Alphabet(k, excludeAmbiguous) <==>
              c in ClassString(k) && !(excludeAmbiguous && c in AMBIGUOUS_CHARS)
  {
  }

  lemma UpperFilteredSize()
    ensures |RemoveAmbiguousFrom(UPPERCASE, 0)| == 24
  {
    assert |RemoveAmbiguousFrom(UPPERCASE, 21)| == 5;
    assert |RemoveAmbiguousFrom(UPPERCASE, 16)| == 10;
    assert |RemoveAmbiguousFrom(UPPERCASE, 11)| == 14;
    assert |RemoveAmbiguousFrom(UPPERCASE, 6)| == 18;
  }

  lemma LowerFilteredSize()
    ensures |RemoveAmbiguousFrom(LOWERCASE, 0)| == 23
  {
    assert |RemoveAmbiguousFrom(LOWERCASE, 21)| == 5;
    assert |RemoveAmbiguousFrom(LOWERCASE, 16)| == 10;
    assert |RemoveAmbiguousFrom(LOWERCASE, 11)| == 13;
    assert |RemoveAmbiguousFrom(LOWERCASE, 6)| == 17;
  }

  lemma DigitFilteredSize()
    ensures |RemoveAmbiguousFrom(NUMBERS, 0)| == 8
  {
    assert |RemoveAmbiguousFrom(NUMBERS, 5)| == 5;
  }

  /** Filtering leaves 24 upper-case letters, 23 lower-case letters and 8
      digits; the symbol alphabet always has 26 characters. */
  lemma AlphabetSizes()
    ensures |Alphabet(Upper, false)| == 26 && |Alphabet(Upper, true)| == 24
    ensures |Alphabet(Lower, false)| == 26 && |Alphabet(Lower, true)| == 23
    ensures |Alphabet(Digit, false)| == 10 && |Alphabet(Digit, true)| == 8
    ensures |Alphabet(Symbol, false)| == 26 && |Alphabet(Symbol, true)| == 26
  {
    UpperFilteredSize();
    LowerFilteredSize();
    DigitFilteredSize();
  }

  // ---------------------------------------------------------------------
  // Class selection and the combined charset
  // ---------------------------------------------------------------------

  predicate Selected(o: PasswordOptions, k: CharClass)
  {
    match k
    case Upper => o.includeUppercase
    case Lower => o.includeLowercase
    case Digit => o.includeNumbers
    case Symbol => o.includeSymbols
  }

  predicate NoneSelected(o: PasswordOptions)
  {
    !o.includeUppercase && !o.includeLowercase && !o.includeNumbers && !o.includeSymbols
  }

  /** Position of a class in the generator's visiting order. */
  function ClassIndex(k: CharClass): nat
  {
    match k
    case Upper => 0
    case Lower => 1
    case Digit => 2
    case Symbol => 3
  }

  /** The enabled classes, in the order the generator visits them. */
  function SelectedClasses(o: PasswordOptions): (ks: seq<CharClass>)
    ensures forall k :: k in ks <==> Selected(o, k)
    ensures forall i, j :: 0 <= i < j < |ks| ==> ClassIndex(ks[i]) < ClassIndex(ks[j])
    ensures |ks| == 0 <==> NoneSelected(o)
  {
    (if o.includeUppercase then [Upper] else [])
    + (if o.includeLowercase then [Lower] else [])
    + (if o.includeNumbers then [Digit] else [])
    + (if o.includeSymbols then [Symbol] else [])
  }

  /** The classes that get a required character: the enabled ones, or all
      four when none is enabled. */
  function EffectiveClasses(o: PasswordOptions): seq<CharClass>
  {
    if NoneSelected(o) then ALL_CLASSES else SelectedClasses(o)
  }

  /** The number of required characters: one per enabled class, or four
      when none is enabled. */
  function RequiredCount(o: PasswordOptions): nat
  {
    var n := (if o.includeUppercase then 1 else 0) + (if o.includeLowercase then 1 else 0)
           + (if o.includeNumbers then 1 else 0) + (if o.includeSymbols then 1 else 0);
    if n == 0 then 4 else n
  }

  predicate InSomeAlphabet(c: char, ks: seq<CharClass>, excludeAmbiguous: bool)
  {
    exists i :: 0 <= i < |ks| && c in Alphabet(ks[i], excludeAmbiguous)
  }

  /** The combined charset: the alphabets of `ks` concatenated in order. */
  function Charset(ks: seq<CharClass>, excludeAmbiguous: bool): (cs: string)
    ensures forall c :: c in cs <==> InSomeAlphabet(c, ks, excludeAmbiguous)
    ensures |cs| == 0 <==> |ks| == 0
  {
    if ks == [] then []
    else
      var cs := Alphabet(ks[0], excludeAmbiguous) + Charset(ks[1..], excludeAmbiguous);
      assert forall c :: InSomeAlphabet(c, ks, excludeAmbiguous) ==> c in cs by {
        forall c | InSomeAlphabet(c, ks, excludeAmbiguous) ensures c in cs {
          var i :| 0 <= i < |ks| && c in Alphabet(ks[i], excludeAmbiguous);
          if i > 0 {
            assert ks[1..][i - 1] == ks[i];
          }
        }
      }
      assert forall c :: c in cs ==> InSomeAlphabet(c, ks, excludeAmbiguous) by {
        forall c | c in cs ensures InSomeAlphabet(c, ks, excludeAmbiguous) {
          if c !in Alphabet(ks[0], excludeAmbiguous) {
            var i :| 0 <= i < |ks[1..]| && c in Alphabet(ks[1..][i], excludeAmbiguous);
            assert ks[i + 1] == ks[1..][i];
          }
        }
      }
      cs
  }

  // ---------------------------------------------------------------------
  // Draws
  // ---------------------------------------------------------------------

  /** One random character from the alphabet of each class of `ks`, drawn
      in order. */
  function DrawRequired(ks: seq<CharClass>, excludeAmbiguous: bool, g: Rng): (r: (string, Rng))
    ensures |r.0| == |ks|
    ensures forall i :: 0 <= i < |ks| ==> r.0[i] in Alphabet(ks[i], excludeAmbiguous)
    ensures r.1.stream == g.stream && r.1.pos == g.pos + |ks|
  {
    if ks == [] then ([], g)
    else
      var (c, g1) := RandomChar(Alphabet(ks[0], excludeAmbiguous), g);
      var (rest, g2) := DrawRequired(ks[1..], excludeAmbiguous, g1);
      var s := [c] + rest;
      assert forall i :: 0 <= i < |ks| ==> s[i] in Alphabet(ks[i], excludeAmbiguous) by {
        forall i | 0 <= i < |ks| ensures s[i] in Alphabet(ks[i], excludeAmbiguous) {
          if i > 0 {
            assert s[i] == rest[i - 1] && ks[i] == ks[1..][i - 1];
          }
        }
      }
      (s, g2)
  }

  /** `n` independent characters from the combined charset. */
  function DrawFiller(charset: string, n: nat, g: Rng): (r: (string, Rng))
    requires |charset| > 0
    ensures |r.0| == n
    ensures forall c :: c in r.0 ==> c in charset
    ensures r.1.stream == g.stream && r.1.pos == g.pos + n
  {
    if n == 0 then ([], g)
    else
      var (c, g1) := RandomChar(charset, g);
      var (rest, g2) := DrawFiller(charset, n - 1, g1);
      ([c] + rest, g2)
  }

  // ---------------------------------------------------------------------
  // Fisher-Yates
  // ---------------------------------------------------------------------

  /** Exchange of two positions (`[result[i], result[j]] = [result[j], result[i]]`). */
  function Swap<T>(s: seq<T>, i: nat, j: nat): (r: seq<T>)
    requires i < |s| && j < |s|
    ensures |r| == |s|
  {
    s[i := s[j]][j := s[i]]
  }

  /** The loop of `shuffleArray` from index `i` down to 1: position `i` is
      exchanged with a random position `j` in `[0, i]`. */
  function ShuffleDown<T>(s: seq<T>, i: nat, g: Rng): (r: (seq<T>, Rng))
    requires i < |s|
    ensures |r.0| == |s|
    ensures r.1.stream == g.stream && r.1.pos == g.pos + i
    decreases i
  {
    if i == 0 then (s, g)
    else ShuffleDown(Swap(s, i, RandomNumber(g, i + 1).0), i - 1, g.Advance())
  }

  lemma SwapPermutes<T>(s: seq<T>, i: nat, j: nat)
    requires i < |s| && j < |s|
    ensures multiset(Swap(s, i, j)) == multiset(s)
  {
  }

  /** Every exchange keeps the multiset of elements, so the loop does. */
  lemma {:induction false} ShuffleDownPermutes<T>(s: seq<T>, i: nat, g: Rng)
    requires i < |s|
    ensures multiset(ShuffleDown(s, i, g).0) == multiset(s)
    decreases i
  {
    if i > 0 {
      var j := RandomNumber(g, i + 1).0;
      SwapPermutes(s, i, j);
      ShuffleDownPermutes(Swap(s, i, j), i - 1, g.Advance());
    }
  }

  /** `shuffleArray`: a permutation of `s`, consuming one draw per
      position above the first. */
  function Shuffle<T>(s: seq<T>, g: Rng): (r: (seq<T>, Rng))
    ensures |r.0| == |s| && multiset(r.0) == multiset(s)
    ensures r.1.stream == g.stream
    ensures r.1.pos == g.pos + (if |s| == 0 then 0 else |s| - 1)
  {
    if |s| == 0 then (s, g)
    else
      ShuffleDownPermutes(s, |s| - 1, g);
      ShuffleDown(s, |s| - 1, g)
  }

  /** One iteration of the loop: exchanging and advancing the source keeps
      the outcome of the rest of the loop. */
  lemma ShuffleDownStep<T>(s: seq<T>, i: nat, g: Rng, outcome: (seq<T>, Rng))
    requires 0 < i < |s|
    requires ShuffleDown(s, i, g) == outcome
    ensures ShuffleDown(Swap(s, i, RandomNumber(g, i + 1).0), i - 1, g.Advance()) == outcome
  {
  }

  lemma ShuffleDownDone<T>(s: seq<T>, r: seq<T>, g: Rng, g': Rng)
    requires 0 < |s| && 0 < |r|
    requires ShuffleDown(r, 0, g') == ShuffleDown(s, |s| - 1, g)
    ensures r == Shuffle(s, g).0 && g' == Shuffle(s, g).1
  {
  }

  method SwapInPlace<T>(a: array<T>, i: nat, j: nat)
    requires i < a.Length && j < a.Length
    modifies a
    ensures a[..] == Swap(old(a[..]), i, j)
  {
    a[i], a[j] := a[j], a[i];
  }

  /** The in-place Fisher-Yates loop over a fresh copy of the input, as
      `shuffleArray` runs it; it computes exactly `Shuffle`. */
  method ShuffleArray<T>(s: seq<T>, g: Rng) returns (r: seq<T>, g': Rng)
    ensures r == Shuffle(s, g).0
    ensures g'.stream == g.stream && g'.pos == Shuffle(s, g).1.pos
  {
    if |s| == 0 {
      return s, g;
    }
    var a := new T[|s|](k requires 0 <= k < |s| => s[k]);
    var i := |s| - 1;
    g' := g;
    ghost var cur := s;
    ghost var outcome := ShuffleDown(s, |s| - 1, g);
    while i > 0
      invariant 0 <= i < a.Length == |s| == |cur|
      invariant a[..] == cur
      invariant ShuffleDown(cur, i, g') == outcome
      decreases i
    {
      var j := RandomNumber(g', i + 1).0;
      ShuffleDownStep(cur, i, g', outcome);
      cur := Swap(cur, i, j);
      SwapInPlace(a, i, j);
      g' := g'.Advance();
      i := i - 1;
    }
    r := a[..];
    ShuffleDownDone(s, r, g, g');
  }

  // ---------------------------------------------------------------------
  // generatePassword
  // ---------------------------------------------------------------------

  /** The state just before the shuffle: the required characters, the
      filler characters, the combined charset and the random source. */
  datatype Draft = Draft(required: string, filler: string, charset: string, rest: Rng)

  /** Everything `generatePassword` does before the shuffle: the enabled
      classes draw their required characters; an empty charset means no
      class was enabled, and then all four classes are used; the filler
      pads the result to `max(length, required)`. */
  function Prepare(o: PasswordOptions, g: Rng): (d: Draft)
    ensures d.charset == Charset(EffectiveClasses(o), o.excludeAmbiguous)
    ensures |d.required| == |EffectiveClasses(o)| == RequiredCount(o)
    ensures forall i :: 0 <= i < |d.required| ==>
              d.required[i] in Alphabet(EffectiveClasses(o)[i], o.excludeAmbiguous)
    ensures |d.required| + |d.filler| == Max(o.length, RequiredCount(o))
    ensures forall c :: c in d.filler ==> c in d.charset
  {
    var ex := o.excludeAmbiguous;
    var selected := SelectedClasses(o);
    var (picked, g1) := DrawRequired(selected, ex, g);
    var selectedCharset := Charset(selected, ex);
    var (required, charset, g2) :=
      if selectedCharset == [] then
        var (p, g') := DrawRequired(ALL_CLASSES, ex, g1);
        (p, Charset(ALL_CLASSES, ex), g')
      else
        (picked, selectedCharset, g1);
    Pad(o.length, required, charset, g2)
  }

  /** The filler draws that pad the required characters to
      `max(length, required)`. */
  function Pad(length: int, required: string, charset: string, g: Rng): (d: Draft)
    requires |charset| > 0
    ensures d.required == required && d.charset == charset
    ensures |d.required| + |d.filler| == Max(length, |required|)
    ensures forall c :: c in d.filler ==> c in charset
  {
    var finalLength := Max(length, |required|);
    var (filler, g') := DrawFiller(charset, finalLength - |required|, g);
    Draft(required, filler, charset, g')
  }

  /** A permutation has the same characters. */
  lemma PermutationMembers(pw: string, all: string)
    requires multiset(pw) == multiset(all)
    ensures forall c :: c in pw <==> c in all
  {
    assert forall c :: c in pw <==> c in multiset(pw);
    assert forall c :: c in all <==> c in multiset(all);
  }

  /** The required characters survive the shuffle, so every class that drew
      one is represented in the output. */
  lemma RequiredSurvive(ks: seq<CharClass>, ex: bool, required: string, all: string, pw: string)
    requires |required| == |ks| <= |all| && all[..|required|] == required
    requires forall i :: 0 <= i < |ks| ==> required[i] in Alphabet(ks[i], ex)
    requires forall c :: c in all ==> c in pw
    ensures forall k :: k in ks ==> Draws(pw, Alphabet(k, ex))
  {
    forall k | k in ks ensures Draws(pw, Alphabet(k, ex)) {
      var i :| 0 <= i < |ks| && ks[i] == k;
      assert all[i] == required[i];
      assert all[i] in pw;
      var p :| 0 <= p < |pw| && pw[p] == all[i];
      assert DrawnAt(pw, Alphabet(k, ex), p);
    }
  }

  /** Every character of the output comes from the combined charset. */
  lemma OutputFromCharset(ks: seq<CharClass>, ex: bool, d: Draft, pw: string)
    requires d.charset == Charset(ks, ex)
    requires forall i :: 0 <= i < |d.required| ==> i < |ks| && d.required[i] in Alphabet(ks[i], ex)
    requires forall c :: c in d.filler ==> c in d.charset
    requires forall c :: c in pw ==> c in d.required + d.filler
    ensures forall c :: c in pw ==> c in Charset(ks, ex)
    ensures ex ==> forall c :: c in pw ==> c !in AMBIGUOUS_CHARS
  {
    forall c | c in pw ensures c in Charset(ks, ex) {
      if c in d.required {
        var i :| 0 <= i < |d.required| && d.required[i] == c;
        assert InSomeAlphabet(c, ks, ex);
      }
    }
    forall c | c in pw && ex ensures c !in AMBIGUOUS_CHARS {
      var i :| 0 <= i < |ks| && c in Alphabet(ks[i], ex);
    }
  }

  /** `generatePassword`: the required and filler characters, shuffled. */
  function GeneratePassword(o: PasswordOptions, g: Rng): (pw: string)
    ensures |pw| == Max(o.length, RequiredCount(o))
    ensures forall k :: k in EffectiveClasses(o) ==> Draws(pw, Alphabet(k, o.excludeAmbiguous))
    ensures forall c :: c in pw ==> c in Charset(EffectiveClasses(o), o.excludeAmbiguous)
    ensures o.excludeAmbiguous ==> forall c :: c in pw ==> c !in AMBIGUOUS_CHARS
  {
    var d := Prepare(o, g);
    var all := d.required + d.filler;
    var pw := Shuffle(all, d.rest).0;
    PermutationMembers(pw, all);
    assert all[..|d.required|] == d.required;
    RequiredSurvive(EffectiveClasses(o), o.excludeAmbiguous, d.required, all, pw);
    OutputFromCharset(EffectiveClasses(o), o.excludeAmbiguous, d, pw);
    pw
  }

  predicate DrawnAt(pw: string, alphabet: string, p: int)
  {
    0 <= p < |pw| && pw[p] in alphabet
  }

  /** Some character of `pw` is in `alphabet`. */
  predicate Draws(pw: string, alphabet: string)
  {
    exists p | 0 <= p < |pw| :: DrawnAt(pw, alphabet, p)
  }

  /** A character drawn from the alphabet of class `k` is of class `k`, so
      the evaluator's class test sees it. */
  lemma DrawsShowClass(pw: string, k: CharClass, ex: bool)
    requires Draws(pw, Alphabet(k, ex))
    ensures Has(pw, k)
  {
    var p :| 0 <= p < |pw| && DrawnAt(pw, Alphabet(k, ex), p);
    assert ClassAt(pw, p, k);
  }

  /** Every class that gets a required character, in the evaluator's
      terms: `/[A-Z]/`, `/[a-z]/`, `/[0-9]/` or `/[^a-zA-Z0-9]/` matches. */
  lemma GeneratedHasClasses(o: PasswordOptions, g: Rng)
    ensures forall k :: k in EffectiveClasses(o) ==> Has(GeneratePassword(o, g), k)
  {
    var pw := GeneratePassword(o, g);
    forall k | k in EffectiveClasses(o) ensures Has(pw, k) {
      DrawsShowClass(pw, k, o.excludeAmbiguous);
    }
  }

  /** With no class enabled the generator behaves, draw for draw, exactly
      as with all four classes enabled. */
  lemma FallbackIsAllClasses(o: PasswordOptions, g: Rng)
    requires NoneSelected(o)
    ensures GeneratePassword(o, g)
         == GeneratePassword(o.(includeUppercase := true, includeLowercase := true,
                                includeNumbers := true, includeSymbols := true), g)
  {
    var all := o.(includeUppercase := true, includeLowercase := true,
                  includeNumbers := true, includeSymbols := true);
    assert SelectedClasses(o) == [];
    assert SelectedClasses(all) == ALL_CLASSES;
    var ex := o.excludeAmbiguous;
    assert DrawRequired([], ex, g) == ([], g);
    assert Charset([], ex) == [];
    assert Charset(ALL_CLASSES, ex) != [];
    var (required, g1) := DrawRequired(ALL_CLASSES, ex, g);
    assert Prepare(o, g) == Pad(o.length, required, Charset(ALL_CLASSES, ex), g1);
    assert Prepare(all, g) == Pad(o.length, required, Charset(ALL_CLASSES, ex), g1);
  }

  /** With no class enabled, whatever the length and the random source,
      the password has a character of each of the four classes and at
      least four characters. */
  lemma FallbackHasAllClasses(o: PasswordOptions, g: Rng)
    requires NoneSelected(o)
    ensures |GeneratePassword(o, g)| == Max(o.length, 4)
    ensures forall k :: Has(GeneratePassword(o, g), k)
  {
    GeneratedHasClasses(o, g);
    AllClassesListed();
  }

  // ---------------------------------------------------------------------
  // Validation and defaults
  // ---------------------------------------------------------------------

  /** `validatePasswordOptions`: the UI's gate on the generate action. */
  function ValidatePasswordOptions(o: PasswordOptions): (ok: bool)
    ensures ok <==> |SelectedClasses(o)| > 0 && 4 <= o.length <= 128
  {
    if !o.includeUppercase && !o.includeLowercase && !o.includeNumbers && !o.includeSymbols then false
    else if o.length < 4 || o.length > 128 then false
    else true
  }

  /** The validator's boundaries: 4 and 128 pass, 3 and 129 fail, and no
      length passes without a class. */
  lemma ValidatorBoundaries(o: PasswordOptions)
    ensures !NoneSelected(o) ==>
              ValidatePasswordOptions(o.(length := 4)) && ValidatePasswordOptions(o.(length := 128))
              && !ValidatePasswordOptions(o.(length := 3)) && !ValidatePasswordOptions(o.(length := 129))
    ensures NoneSelected(o) ==> !ValidatePasswordOptions(o)
  {
  }

  /** Options the validator accepts never trigger the fallback nor the
      silent growth: the password has exactly the requested length and a
      character of every selected class. */
  lemma ValidOptionsGenerateAsRequested(o: PasswordOptions, g: Rng)
    requires ValidatePasswordOptions(o)
    ensures |GeneratePassword(o, g)| == o.length
    ensures EffectiveClasses(o) == SelectedClasses(o)
    ensures forall k :: Selected(o, k) ==> Has(GeneratePassword(o, g), k)
  {
    GeneratedHasClasses(o, g);
  }

  /** `getDefaultPasswordOptions`. */
  function DefaultPasswordOptions(): (o: PasswordOptions)
    ensures o.length == 16 && NoneSelected(o) && !o.excludeAmbiguous
  {
    PasswordOptions(16, false, false, false, false, false)
  }

  /** The defaults fail validation, yet the generator still produces a
      16-character password with all four classes. */
  lemma DefaultsRelyOnFallback(g: Rng)
    ensures !ValidatePasswordOptions(DefaultPasswordOptions())
    ensures |GeneratePassword(DefaultPasswordOptions(), g)| == 16
    ensures forall k :: Has(GeneratePassword(DefaultPasswordOptions(), g), k)
  {
    FallbackHasAllClasses(DefaultPasswordOptions(), g);
  }
}
