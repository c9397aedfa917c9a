/**
 * ASCII case mapping, standing for `String.toUpperCase` and `String.toLowerCase`
 * as the quiz uses them on the answer token and on the difficulty tier.
 * Only the 26 Latin letters change case; every other character is kept.
 */
module Ascii {

  predicate IsLower(c: char) { 'a' <= c <= 'z' }

  predicate IsUpper(c: char) { 'A' <= c <= 'Z' }

  /** True when no character of `s` is a lower-case ASCII letter. */
  predicate NoLower(s: string) { forall i :: 0 <= i < |s| ==> !IsLower(s[i]) }

  /** True when no character of `s` is an upper-case ASCII letter. */
  predicate NoUpper(s: string) { forall i :: 0 <= i < |s| ==> !IsUpper(s[i]) }

  function ToUpper(c: char): (r: char)
    ensures !IsLower(r)
    ensures r != c ==> IsLower(c) && IsUpper(r)
    ensures IsLower(c) ==> r as int - 'A' as int == c as int - 'a' as int
  {
    if IsLower(c) then (c as int - 32) as char else c
  }

  function ToLower(c: char): (r: char)
    ensures !IsUpper(r)
    ensures r != c ==> IsUpper(c) && IsLower(r)
    ensures IsUpper(c) ==> r as int - 'a' as int == c as int - 'A' as int
  {
    if IsUpper(c) then (c as int + 32) as char else c
  }

  /** `toUpperCase`: the same number of characters, each one mapped to upper case (see `UpperCaseAt`). */
  function UpperCase(s: string): (r: string)
    ensures |r| == |s|
  {
    if s == [] then [] else [ToUpper(s[0])] + UpperCase(s[1..])
  }

  /** `toLowerCase`: the same number of characters, each one mapped to lower case (see `LowerCaseAt`). */
  function LowerCase(s: string): (r: string)
    ensures |r| == |s|
  {
    if s == [] then [] else [ToLower(s[0])] + LowerCase(s[1..])
  }

  /** Character `i` of the upper-cased text is character `i` upper-cased; no lower-case letter is left. */
  lemma {:induction false} UpperCaseAt(s: string)
    ensures forall i :: 0 <= i < |s| ==> UpperCase(s)[i] == ToUpper(s[i])
    ensures NoLower(UpperCase(s))
  {
    if s != [] {
      UpperCaseAt(s[1..]);
      assert forall i :: 1 <= i < |s| ==> UpperCase(s)[i] == UpperCase(s[1..])[i - 1];
    }
  }

  /** Character `i` of the lower-cased text is character `i` lower-cased; no upper-case letter is left. */
  lemma {:induction false} LowerCaseAt(s: string)
    ensures forall i :: 0 <= i < |s| ==> LowerCase(s)[i] == ToLower(s[i])
    ensures NoUpper(LowerCase(s))
  {
    if s != [] {
      LowerCaseAt(s[1..]);
      assert forall i :: 1 <= i < |s| ==> LowerCase(s)[i] == LowerCase(s[1..])[i - 1];
    }
  }

  /** Upper-casing a letter and lower-casing it again gives back its lower-case form. */
  lemma LowerOfUpperChar(c: char)
    ensures ToLower(ToUpper(c)) == ToLower(c)
    ensures ToUpper(ToLower(c)) == ToUpper(c)
  {
  }

  /** Upper-casing twice is upper-casing once. */
  lemma UpperCaseIdempotent(s: string)
    ensures UpperCase(UpperCase(s)) == UpperCase(s)
  {
    UpperCaseAt(s);
    UpperCaseAt(UpperCase(s));
  }

  /** Lower-casing ignores the case the text came in: a tier typed in capitals is the same tier. */
  lemma LowerOfUpper(s: string)
    ensures LowerCase(UpperCase(s)) == LowerCase(s)
  {
    UpperCaseAt(s);
    LowerCaseAt(UpperCase(s));
    LowerCaseAt(s);
    var l, r := LowerCase(UpperCase(s)), LowerCase(s);
    forall i | 0 <= i < |s| ensures l[i] == r[i] {
      LowerOfUpperChar(s[i]);
    }
  }

  /** A character upper-cases to the upper-case letter `u` exactly when it is `u` in either case. */
  lemma ToUpperToLetter(c: char, u: char)
    requires IsUpper(u)
    ensures ToUpper(c) == u <==> c == u || c == ToLower(u)
  {
  }

  /**
   * The answer tokens that end the quiz: `toUpperCase().equals("EXIT")` holds for the
   * sixteen spellings of "exit" in any mixture of cases, and for nothing else.
   */
  lemma ExitSpellings(a: string)
    ensures UpperCase(a) == "EXIT" <==> |a| == 4 && IsExitSpelling(a[0], a[1], a[2], a[3])
  {
    if UpperCase(a) == "EXIT" {
      LettersOfExit(a);
    }
    if |a| == 4 && IsExitSpelling(a[0], a[1], a[2], a[3]) {
      ExitOfLetters(a);
    }
  }

  predicate IsExitSpelling(c0: char, c1: char, c2: char, c3: char)
  {
    && (c0 == 'e' || c0 == 'E')
    && (c1 == 'x' || c1 == 'X')
    && (c2 == 'i' || c2 == 'I')
    && (c3 == 't' || c3 == 'T')
  }

  lemma LettersOfExit(a: string)
    requires UpperCase(a) == "EXIT"
    ensures |a| == 4 && IsExitSpelling(a[0], a[1], a[2], a[3])
  {
    LetterAt(a, 0, 'E');
    LetterAt(a, 1, 'X');
    LetterAt(a, 2, 'I');
    LetterAt(a, 3, 'T');
  }

  lemma ExitOfLetters(a: string)
    requires |a| == 4 && IsExitSpelling(a[0], a[1], a[2], a[3])
    ensures UpperCase(a) == "EXIT"
  {
    var u := UpperCase(a);
    LetterAt(a, 0, 'E');
    LetterAt(a, 1, 'X');
    LetterAt(a, 2, 'I');
    LetterAt(a, 3, 'T');
  }

  lemma LetterAt(a: string, k: nat, u: char)
    requires k < |a| && IsUpper(u)
    ensures UpperCase(a)[k] == u <==> a[k] == u || a[k] == ToLower(u)
  {
    UpperCaseAt(a);
    ToUpperToLetter(a[k], u);
  }

  /**
   * An upper-cased token never equals a text holding a lower-case letter: such a
   * stored answer key can never be matched.
   */
  lemma UpperCaseNeverHasLower(a: string, key: string)
    requires !NoLower(key)
    ensures UpperCase(a) != key
  {
    var i :| 0 <= i < |key| && IsLower(key[i]);
    var u := UpperCase(a);
    UpperCaseAt(a);
    if |u| == |key| {
      assert !IsLower(u[i]);
    }
  }
}
