/** The ASCII character classes shared by the generator and the strength
    evaluator, ASCII lowercasing, substring search, and `Math.max`.

    A password is a `string`, one `char` per character. The regular
    expressions `[a-z]`, `[A-Z]`, `[0-9]` and `[^a-zA-Z0-9]` of the
    evaluator are the predicates below; the generator's alphabets are
    subsets of the same classes. */
module CharClasses {

  /** The four classes: every character belongs to exactly one. */
  datatype CharClass = Upper | Lower | Digit | Symbol

  /** The four classes in the order the generator visits them. */
  const ALL_CLASSES: seq<CharClass> := [Upper, Lower, Digit, Symbol]

  lemma AllClassesListed()
    ensures forall k :: k in ALL_CLASSES
  {
    forall k ensures k in ALL_CLASSES {
      match k
      case Upper => assert ALL_CLASSES[0] == k;
      case Lower => assert ALL_CLASSES[1] == k;
      case Digit => assert ALL_CLASSES[2] == k;
      case Symbol => assert ALL_CLASSES[3] == k;
    }
  }

  predicate IsUpper(c: char) { 'A' <= c <= 'Z' }
  predicate IsLower(c: char) { 'a' <= c <= 'z' }
  predicate IsDigit(c: char) { '0' <= c <= '9' }

  /** `[^a-zA-Z0-9]`: anything that is not an ASCII letter or digit. */
  predicate IsSymbol(c: char) { !IsUpper(c) && !IsLower(c) && !IsDigit(c) }

  function ClassOf(c: char): (k: CharClass)
    ensures k == Upper <==> IsUpper(c)
    ensures k == Lower <==> IsLower(c)
    ensures k == Digit <==> IsDigit(c)
    ensures k == Symbol <==> IsSymbol(c)
  {
    if IsUpper(c) then Upper
    else if IsLower(c) then Lower
    else if IsDigit(c) then Digit
    else Symbol
  }

  predicate ClassAt(s: string, i: int, k: CharClass)
  {
    0 <= i < |s| && ClassOf(s[i]) == k
  }

  /** The regular-expression test `/[class]/.test(s)`: some character of
      `s` is in class `k`. */
  predicate Has(s: string, k: CharClass)
  {
    exists i | 0 <= i < |s| :: ClassAt(s, i, k)
  }

  /** The set of classes of the characters of `s`. */
  function ClassesPresent(s: string): (ks: set<CharClass>)
    ensures forall k :: k in ks <==> Has(s, k)
  {
    var ks := set i | 0 <= i < |s| :: ClassOf(s[i]);
    assert forall k :: k in ks <==> Has(s, k) by {
      forall k | Has(s, k) ensures k in ks {
        var i :| 0 <= i < |s| && ClassAt(s, i, k);
        assert ClassOf(s[i]) in ks;
      }
      forall k | k in ks ensures Has(s, k) {
        var i :| 0 <= i < |s| && ClassOf(s[i]) == k;
        assert ClassAt(s, i, k);
      }
    }
    ks
  }

  /** A non-empty string has at least one class present. */
  lemma NonEmptyHasSomeClass(s: string)
    requires |s| > 0
    ensures ClassesPresent(s) != {}
    ensures Has(s, ClassOf(s[0]))
  {
    assert ClassAt(s, 0, ClassOf(s[0]));
    assert ClassOf(s[0]) in ClassesPresent(s);
  }

  /** Membership in a class is decided by the characters alone. */
  lemma HasByMembership(s: string, t: string, k: CharClass)
    requires forall c :: c in s ==> c in t
    ensures Has(s, k) ==> Has(t, k)
  {
    if Has(s, k) {
      var i :| 0 <= i < |s| && ClassAt(s, i, k);
      assert s[i] in t;
      var j :| 0 <= j < |t| && t[j] == s[i];
      assert ClassAt(t, j, k);
    }
  }

  /** `String.prototype.toLowerCase`, restricted to ASCII letters. */
  function AsciiLowerChar(c: char): (d: char)
    ensures IsUpper(c) ==> IsLower(d) && d as int == c as int + 32
    ensures !IsUpper(c) ==> d == c
  {
    if IsUpper(c) then (c as int + 32) as char else c
  }

  function AsciiLower(s: string): (t: string)
    ensures |t| == |s|
    ensures forall i :: 0 <= i < |s| ==> t[i] == AsciiLowerChar(s[i])
    ensures forall i :: 0 <= i < |t| ==> !IsUpper(t[i])
  {
    seq(|s|, i requires 0 <= i < |s| => AsciiLowerChar(s[i]))
  }

  predicate OccursAt(s: string, p: string, i: int)
  {
    0 <= i && i + |p| <= |s| && s[i..i + |p|] == p
  }

  /** `String.prototype.includes`: `p` occurs somewhere in `s`. */
  predicate Contains(s: string, p: string)
  {
    exists i | 0 <= i <= |s| - |p| :: OccursAt(s, p, i)
  }

  /** `Array.prototype.some(q => s.includes(q))`. */
  predicate ContainsAny(s: string, ps: seq<string>)
  {
    exists p | p in ps :: Contains(s, p)
  }

  /** Every character of an occurring pattern is a character of the text;
      so a pattern with a character absent from the text does not occur. */
  lemma ContainedCharsOccur(s: string, p: string)
    requires Contains(s, p)
    ensures forall c :: c in p ==> c in s
  {
    var i :| 0 <= i <= |s| - |p| && OccursAt(s, p, i);
    forall c | c in p ensures c in s {
      var k :| 0 <= k < |p| && p[k] == c;
      assert s[i + k] == p[k];
    }
  }

  /** A pattern holding a character the text lacks does not occur in it. */
  lemma MissingCharBlocks(s: string, p: string, c: char)
    requires c in p && c !in s
    ensures !Contains(s, p)
  {
    if Contains(s, p) {
      ContainedCharsOccur(s, p);
    }
  }

  /** `Math.max` of two integers. */
  function Max(a: int, b: int): (m: int)
    ensures m >= a && m >= b && (m == a || m == b)
  {
    if a >= b then a else b
  }
}
