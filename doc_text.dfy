/** The small string helpers behind the generated documentation: the indefinite article,
    the verb forms of an interface's vocabulary, and the symbol/letter tables that keep
    Javadoc markup in one piece while text is wrapped. */
module DocText {
  import opened Shapes
  import opened Naming
  import opened Java

  // ---------------------------------------------------------------------------------
  // Python string semantics used below.

  /** Python's `needle in hay` for strings: `needle` occurs as a contiguous substring;
      the empty string occurs in every string. */
  predicate Contains(hay: string, needle: string)
  {
    exists i | 0 <= i <= |hay| - |needle| :: OccursAt(hay, needle, i)
  }

  predicate OccursAt(hay: string, needle: string, i: int)
    requires 0 <= i <= |hay| - |needle|
  {
    hay[i..i + |needle|] == needle
  }

  /** Python's `s[:n]`: at most the first `n` characters. */
  function Take(s: string, n: nat): (r: string)
    ensures |r| == if |s| < n then |s| else n
    ensures r <= s
  {
    if |s| < n then s else s[..n]
  }

  /** Python's `s[:-n]`: all but the last `n` characters, or nothing when `s` is shorter. */
  function DropLast(s: string, n: nat): (r: string)
    ensures |r| == if |s| < n then 0 else |s| - n
    ensures r <= s
  {
    if |s| < n then "" else s[..|s| - n]
  }

  function ToUpper(c: char): char
  {
    if 'a' <= c <= 'z' then (c as int - 32) as char else c
  }

  function ToLower(c: char): char
  {
    if 'A' <= c <= 'Z' then (c as int + 32) as char else c
  }

  /** Python's `str.capitalize` on ASCII text: first character upper case, the rest lower. */
  function Capitalize(s: string): (r: string)
    ensures |r| == |s|
    ensures |s| > 0 ==> r[0] == ToUpper(s[0])
    ensures forall i | 0 < i < |s| :: r[i] == ToLower(s[i])
  {
    if s == [] then [] else [ToUpper(s[0])] + seq(|s| - 1, i requires 0 <= i < |s| - 1 => ToLower(s[i + 1]))
  }

  // ---------------------------------------------------------------------------------
  // aan and Aan

  const Vowels: string := "AEIOUaeiou"

  /** `aan(s)`: "an" when the first character of `s` (possibly none) occurs in the vowels. */
  function Article(s: string): string
  {
    if Contains(Vowels, Take(s, 1)) then "an" else "a"
  }

  /** `Aan(s)`: the article, capitalised. */
  function CapitalArticle(s: string): string
  {
    Capitalize(Article(s))
  }

  /** "an" exactly for words that start with a vowel, and for the empty string, whose empty
      first slice occurs in every string; "a" otherwise. */
  lemma {:induction false} ArticleChoice(s: string)
    ensures Article(s) == "an" <==> |s| == 0 || s[0] in Vowels
    ensures Article(s) == "a" <==> !(|s| == 0 || s[0] in Vowels)
  {
    var t := Take(s, 1);
    if |s| == 0 {
      assert OccursAt(Vowels, t, 0);
    } else if s[0] in Vowels {
      var i :| 0 <= i < |Vowels| && Vowels[i] == s[0];
      assert OccursAt(Vowels, t, i);
    } else {
      assert t == [s[0]];
      forall i | 0 <= i <= |Vowels| - 1 ensures !OccursAt(Vowels, t, i) {
        assert Vowels[i..i + 1] == [Vowels[i]];
      }
    }
  }

  /** `Aan` yields "An" or "A" under the same condition as `aan`. */
  lemma CapitalArticleChoice(s: string)
    ensures CapitalArticle(s) == (if |s| == 0 || s[0] in Vowels then "An" else "A")
  {
    ArticleChoice(s);
    if Article(s) == "an" {
      assert Capitalize("an") == "An";
    } else {
      assert Capitalize("a") == "A";
    }
  }

  // ---------------------------------------------------------------------------------
  // The vocabulary of an interface's documentation.

  datatype Vocabulary = Vocabulary(operation: string, performs: string, using: Option<string>)

  /** The noun for the interface, its verb in the third person, and the preposition
      linking the verb to the arguments. */
  function VocabularyOf(argv: seq<Type>, ret: Type): Vocabulary
  {
    var argc := |argv|;
    if ret == Void then Vocabulary("operation", "performs", if argc > 0 then Some("using") else None)
    else if argc == 0 then Vocabulary("operation", "supplies", None)
    else if ret != Scalar(Object) && {ret} == ArgSet(argv) then Vocabulary("operator", "applies", Some("to"))
    else if ret == Scalar(Boolean) then Vocabulary("predicate", "evaluates", Some("against"))
    else Vocabulary("function", "applies", Some("to"))
  }

  /** The vocabulary is the one its kind calls for: the word chain tests its cases in
      another order than the naming chain but lands on the same kind. */
  lemma VocabularyFollowsKind(argv: seq<Type>, ret: Type)
    ensures var v, k := VocabularyOf(argv, ret), Classify(argv, ret);
      && (k in {Runnable, Consumer} <==> v.performs == "performs")
      && (k == Supplier <==> v.performs == "supplies")
      && (k == Operator <==> v.operation == "operator")
      && (k == Predicate <==> v.operation == "predicate")
      && (k in {Function, ToFunction} <==> v.operation == "function")
      && (v.using.None? <==> |argv| == 0)
  {
  }

  /** `perform`: "ies" becomes "y", otherwise the final letter goes. */
  function Perform(performs: string): string
  {
    if EndsWith(performs, "ies") then DropLast(performs, 3) + "y" else DropLast(performs, 1)
  }

  /** `performed`: the final letter goes, then "d" after "es" and "ed" otherwise. */
  function Performed(performs: string): string
  {
    DropLast(performs, 1) + (if EndsWith(performs, "es") then "d" else "ed")
  }

  /** The reference forms of an English verb: third person singular and past tense. */
  function ThirdPerson(verb: string): string
  {
    if EndsWith(verb, "y") then verb[..|verb| - 1] + "ies" else verb + "s"
  }

  function PastTense(verb: string): string
  {
    if EndsWith(verb, "y") then verb[..|verb| - 1] + "ied"
    else if EndsWith(verb, "e") then verb + "d"
    else verb + "ed"
  }

  lemma EndsWithConcat(a: string, b: string, suffix: string)
    requires |suffix| <= |b|
    ensures EndsWith(a + b, suffix) <==> EndsWith(b, suffix)
  {
    assert (a + b)[|a + b| - |suffix|..] == b[|b| - |suffix|..];
  }

  /** `perform` and `performed` undo the third person of every verb not ending in "ie":
      they give back the verb and its past tense. */
  lemma {:induction false} VerbRoundTrip(verb: string)
    requires !EndsWith(verb, "ie")
    ensures Perform(ThirdPerson(verb)) == verb
    ensures Performed(ThirdPerson(verb)) == PastTense(verb)
  {
    var p := ThirdPerson(verb);
    if EndsWith(verb, "y") {
      var stem := verb[..|verb| - 1];
      assert p == stem + "ies";
      EndsWithConcat(stem, "ies", "ies");
      EndsWithConcat(stem, "ies", "es");
      assert DropLast(p, 3) == stem;
      assert DropLast(p, 1) == stem + "ie";
      assert stem + "y" == verb by {
        assert verb[|verb| - 1..] == "y";
        assert verb == verb[..|verb| - 1] + verb[|verb| - 1..];
      }
    } else {
      assert p == verb + "s";
      assert DropLast(p, 1) == verb;
      if |verb| >= 2 {
        assert p[|p| - 3..] == verb[|verb| - 2..] + "s";
      }
      if |verb| >= 1 {
        assert p[|p| - 2..] == verb[|verb| - 1..] + "s";
        assert EndsWith(p, "es") <==> EndsWith(verb, "e");
      } else {
        assert !EndsWith(p, "es");
      }
    }
  }

  /** The four verbs the vocabulary uses, with the forms the documentation prints. */
  lemma PerformsForms()
    ensures Perform("performs") == "perform" && Performed("performs") == "performed"
  {
    assert ThirdPerson("perform") == "performs";
    VerbRoundTrip("perform");
  }

  lemma SuppliesForms()
    ensures Perform("supplies") == "supply" && Performed("supplies") == "supplied"
  {
    assert ThirdPerson("supply") == "supplies" by { assert "supply"[..5] == "suppl"; }
    VerbRoundTrip("supply");
  }

  lemma AppliesForms()
    ensures Perform("applies") == "apply" && Performed("applies") == "applied"
  {
    assert ThirdPerson("apply") == "applies" by { assert "apply"[..4] == "appl"; }
    VerbRoundTrip("apply");
  }

  lemma EvaluatesForms()
    ensures Perform("evaluates") == "evaluate" && Performed("evaluates") == "evaluated"
  {
    assert ThirdPerson("evaluate") == "evaluates";
    VerbRoundTrip("evaluate");
  }

  // ---------------------------------------------------------------------------------
  // The symbol/letter tables of `javadoc`.

  /** The letters that stand in for braces, the at sign and the tilde while wrapping. */
  const LetterForOpenBrace: char := '\U{00CD}'
  const LetterForCloseBrace: char := '\U{00CC}'
  const LetterForAt: char := '\U{00C6}'
  const LetterForTilde: char := '\U{00B5}'

  /** `sym2let`: markup symbols become letters, so no wrap point falls inside `{@code~x}`. */
  function SymToLet(c: char): char
  {
    if c == '{' then LetterForOpenBrace
    else if c == '}' then LetterForCloseBrace
    else if c == '@' then LetterForAt
    else if c == '~' then LetterForTilde
    else c
  }

  /** `let2sym`: the letters become the symbols again, the tilde's letter a plain space. */
  function LetToSym(c: char): char
  {
    if c == LetterForOpenBrace then '{'
    else if c == LetterForCloseBrace then '}'
    else if c == LetterForAt then '@'
    else if c == LetterForTilde then ' '
    else c
  }

  /** Python's `str.translate` with a character table. */
  function Translate(s: string, table: char -> char): (r: string)
    ensures |r| == |s|
    ensures forall i | 0 <= i < |s| :: r[i] == table(s[i])
  {
    seq(|s|, i requires 0 <= i < |s| => table(s[i]))
  }

  predicate UsesNoStandInLetter(s: string)
  {
    forall i | 0 <= i < |s| :: s[i] !in {LetterForOpenBrace, LetterForCloseBrace, LetterForAt, LetterForTilde}
  }

  /** The tilde is a non-breaking space: the text as the reader sees it. */
  function Rendered(s: string): (r: string)
    ensures |r| == |s|
  {
    seq(|s|, i requires 0 <= i < |s| => if s[i] == '~' then ' ' else s[i])
  }

  /** Before wrapping, no markup symbol is left and no space is added: every space of the
      translated text was a space of the original, so a tilde is never a wrap point. */
  lemma {:induction false} WrapSafe(s: string)
    ensures var t := Translate(s, SymToLet);
      forall i | 0 <= i < |t| :: t[i] !in "{}@~" && (t[i] == ' ' <==> s[i] == ' ')
  {
    var t := Translate(s, SymToLet);
    forall i | 0 <= i < |t| ensures t[i] !in "{}@~" && (t[i] == ' ' <==> s[i] == ' ') {
      assert t[i] == SymToLet(s[i]);
    }
  }

  /** Translating there and back gives the rendered text, for text that does not itself
      use the stand-in letters. */
  lemma {:induction false} TranslateRoundTrip(s: string)
    requires UsesNoStandInLetter(s)
    ensures Translate(Translate(s, SymToLet), LetToSym) == Rendered(s)
  {
    var t := Translate(s, SymToLet);
    var u := Translate(t, LetToSym);
    forall i | 0 <= i < |s| ensures u[i] == Rendered(s)[i] {
      assert u[i] == LetToSym(SymToLet(s[i]));
    }
  }
}
