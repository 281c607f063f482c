/** The small regular-expression language the validator's pattern catalogue is
    written in: an optional `^` anchor, the `i` flag, and a sequence of terms,
    each a single-character atom taken once, `*` or `+` times, or a run of
    literal characters.  `Test` is `RegExp.prototype.test`: some starting
    position admits a match.  The matcher backtracks over every split, so it
    decides exactly the language the expression denotes. */
module Regex {
  import opened Strings

  datatype Atom =
    | Lit(c: char)          // one literal character
    | OneOf(cs: seq<char>)  // a character class `[...]`
    | Space                 // `\s`
    | AnyButNewline         // `.`

  datatype Term =
    | Once(a: Atom)
    | Star(a: Atom)
    | Plus(a: Atom)
    | Word(w: string)  // the characters of `w`, one after another

  datatype Regex = Regex(anchored: bool, ignoreCase: bool, terms: seq<Term>)

  /** Character equality under the `i` flag.  For patterns written in ASCII,
      JavaScript's case-insensitive comparison folds exactly the ASCII letters
      (a non-ASCII character never canonicalises to an ASCII one). */
  predicate SameChar(ignoreCase: bool, c: char, p: char) {
    if ignoreCase then LowerChar(c) == LowerChar(p) else c == p
  }

  predicate AtomMatches(a: Atom, ignoreCase: bool, c: char) {
    match a
    case Lit(p) => SameChar(ignoreCase, c, p)
    case OneOf(cs) => exists k :: 0 <= k < |cs| && SameChar(ignoreCase, c, cs[k])
    case Space => IsSpace(c)
    case AnyButNewline => !IsLineTerminator(c)
  }

  /** The terms match some prefix of `s[i..]`. */
  predicate MatchHere(terms: seq<Term>, ignoreCase: bool, s: string, i: nat)
    requires i <= |s|
    decreases |s| - i, |terms|
  {
    if terms == [] then true
    else match terms[0]
      case Once(a) =>
        i < |s| && AtomMatches(a, ignoreCase, s[i]) && MatchHere(terms[1..], ignoreCase, s, i + 1)
      case Star(a) =>
        MatchHere(terms[1..], ignoreCase, s, i) ||
        (i < |s| && AtomMatches(a, ignoreCase, s[i]) && MatchHere(terms, ignoreCase, s, i + 1))
      case Plus(a) =>
        i < |s| && AtomMatches(a, ignoreCase, s[i]) && MatchHere([Star(a)] + terms[1..], ignoreCase, s, i + 1)
      case Word(w) =>
        LiteralAt(w, ignoreCase, s, i) && MatchHere(terms[1..], ignoreCase, s, i + |w|)
  }

  /** `re.test(s)`. */
  predicate Test(re: Regex, s: string) {
    if re.anchored then MatchHere(re.terms, re.ignoreCase, s, 0)
    else exists i :: 0 <= i <= |s| && MatchHere(re.terms, re.ignoreCase, s, i)
  }

  /** The terms that match the characters of `w` one after another. */
  function Literal(w: string): (r: seq<Term>)
    ensures |r| == |w|
    ensures forall k :: 0 <= k < |w| ==> r[k] == Once(Lit(w[k]))
  {
    if w == [] then [] else [Once(Lit(w[0]))] + Literal(w[1..])
  }

  /** `w` occurs at `i` in `s`, comparing characters under the flag. */
  predicate LiteralAt(w: string, ignoreCase: bool, s: string, i: nat) {
    i + |w| <= |s| && forall k :: 0 <= k < |w| ==> SameChar(ignoreCase, s[i + k], w[k])
  }

  /** A literal followed by more terms matches exactly when the literal occurs
      at `i` and the rest matches after it. */
  lemma {:induction false} LiteralThen(w: string, rest: seq<Term>, ignoreCase: bool, s: string, i: nat)
    requires i <= |s|
    ensures MatchHere(Literal(w) + rest, ignoreCase, s, i) <==>
            LiteralAt(w, ignoreCase, s, i) && MatchHere(rest, ignoreCase, s, i + |w|)
    decreases |w|
  {
    if w != [] {
      assert (Literal(w) + rest)[1..] == Literal(w[1..]) + rest;
      if i < |s| {
        LiteralThen(w[1..], rest, ignoreCase, s, i + 1);
        if LiteralAt(w, ignoreCase, s, i) {
          assert LiteralAt(w[1..], ignoreCase, s, i + 1) by {
            forall k | 0 <= k < |w| - 1 ensures SameChar(ignoreCase, s[i + 1 + k], w[1..][k]) {
              assert SameChar(ignoreCase, s[i + (k + 1)], w[k + 1]);
            }
          }
        }
        if SameChar(ignoreCase, s[i], w[0]) && LiteralAt(w[1..], ignoreCase, s, i + 1) {
          assert LiteralAt(w, ignoreCase, s, i) by {
            forall k | 0 <= k < |w| ensures SameChar(ignoreCase, s[i + k], w[k]) {
              if k > 0 {
                assert SameChar(ignoreCase, s[i + 1 + (k - 1)], w[1..][k - 1]);
              }
            }
          }
        }
      }
    } else {
      assert Literal(w) + rest == rest;
    }
  }

  /** A word term matches exactly what its characters, taken once each,
      match: it is a shorthand for `Literal(w)`. */
  lemma WordIsLiteral(w: string, rest: seq<Term>, ignoreCase: bool, s: string, i: nat)
    requires i <= |s|
    ensures MatchHere([Word(w)] + rest, ignoreCase, s, i) <==> MatchHere(Literal(w) + rest, ignoreCase, s, i)
  {
    LiteralThen(w, rest, ignoreCase, s, i);
    assert ([Word(w)] + rest)[1..] == rest;
  }

  /** An unanchored word expression tests true exactly when the word occurs
      somewhere; without the `i` flag that is plain substring search. */
  lemma LiteralTest(w: string, ignoreCase: bool, s: string)
    ensures Test(Regex(false, ignoreCase, [Word(w)]), s) <==> exists i :: 0 <= i <= |s| && LiteralAt(w, ignoreCase, s, i)
    ensures !ignoreCase ==> (Test(Regex(false, ignoreCase, [Word(w)]), s) <==> Contains(s, w))
  {
    forall i | 0 <= i <= |s|
      ensures MatchHere([Word(w)], ignoreCase, s, i) <==> LiteralAt(w, ignoreCase, s, i)
    {
      assert [Word(w)][1..] == [];
    }
    if !ignoreCase {
      forall i | 0 <= i <= |s| ensures LiteralAt(w, false, s, i) <==> OccursAt(s, w, i) {
        if LiteralAt(w, false, s, i) {
          assert s[i..i + |w|] == w;
        }
        if OccursAt(s, w, i) {
          forall k | 0 <= k < |w| ensures s[i + k] == w[k] {
            assert s[i..i + |w|][k] == w[k];
          }
        }
      }
    }
  }
}
