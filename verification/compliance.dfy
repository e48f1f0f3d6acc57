/** The keyword heuristic that decides compliance, and the two regulatory
    rules the handler matches against. */
module Compliance {
  import opened Text
  import opened Matching
  import opened Json

  /** The keyword both texts must contain, spelled without an accent. */
  const Keyword: string := "proteccion"

  /** A BPMN element once its `id` and `descripcion` have been read. */
  datatype Element = Element(id: Json, description: string)

  /** `evaluar_cumplimiento`: the element complies with the rule when the
      keyword occurs in the lower-cased description and in the lower-cased
      rule text. */
  function Complies(e: Element, rule: Rule): (b: bool)
    ensures b <==> IsSubstring(Keyword, Lower(e.description)) && IsSubstring(Keyword, Lower(rule.text))
  {
    Contains(Lower(e.description), Keyword) && Contains(Lower(rule.text), Keyword)
  }

  /** The text of rule `norma1`. It is written in two pieces that concatenate
      to the literal sentence, because the verifier reads characters of a
      short literal cheaply and of a long one only at great cost. */
  const Norma1Text: string := "Esta norma se refiere a la " + "protección de datos personales."

  /** The text of rule `norma2`, split the same way for the same reason. */
  const Norma2Text: string := "Esta norma se refiere a la " + "seguridad de la información."

  /** The hardcoded rules. Each vector embeds a short paraphrase of the rule,
      not the rule text itself. */
  function Normas(embed: string -> Vector): seq<Rule> {
    [ Rule("norma1", Norma1Text, embed("protección de datos personales")),
      Rule("norma2", Norma2Text, embed("seguridad de la información")) ]
  }

  /** Positions of lower-cased `norma1` holding characters absent from the
      keyword; no ten consecutive positions avoid them all. */
  const Norma1Breaks: seq<int> := [4, 10, 13, 21, 23, 26, 35, 37, 40, 46, 50, 57]

  /** The same for `norma2`. */
  const Norma2Breaks: seq<int> := [4, 10, 13, 21, 23, 26, 36, 39, 42, 48, 52, 54]

  /** The characters of lower-cased `norma1` at its breaks. */
  lemma Norma1BreakChars()
    ensures var t := Lower(Norma1Text);
      && |t| == 58
      && t[4] == ' ' && t[10] == ' ' && t[13] == ' ' && t[21] == ' ' && t[23] == ' ' && t[26] == ' '
      && t[35] == 'ó' && t[37] == ' ' && t[40] == ' ' && t[46] == ' ' && t[50] == 's' && t[57] == '.'
  {
  }

  /** The characters of lower-cased `norma2` at its breaks. */
  lemma Norma2BreakChars()
    ensures var t := Lower(Norma2Text);
      && |t| == 55
      && t[4] == ' ' && t[10] == ' ' && t[13] == ' ' && t[21] == ' ' && t[23] == ' ' && t[26] == ' '
      && t[36] == ' ' && t[39] == ' ' && t[42] == ' ' && t[48] == 'm' && t[52] == 'ó' && t[54] == '.'
  {
  }

  /** The characters found at the breaks do not appear in the keyword. */
  lemma BreakCharsOutsideKeyword()
    ensures ' ' !in Keyword && 'm' !in Keyword && 's' !in Keyword && 'ó' !in Keyword && '.' !in Keyword
  {
  }

  /** The breaks of `norma1` cover its lower-cased text. */
  lemma Norma1BreaksCover()
    ensures BreakChain(-1, Norma1Breaks, |Keyword|, |Lower(Norma1Text)|)
  {
    Norma1BreakChars();
  }

  /** The breaks of `norma2` cover its lower-cased text. */
  lemma Norma2BreaksCover()
    ensures BreakChain(-1, Norma2Breaks, |Keyword|, |Lower(Norma2Text)|)
  {
    Norma2BreakChars();
  }

  /** The breaks of `norma1` hold characters absent from the keyword. */
  lemma Norma1BreaksForeign()
    ensures ForeignAt(Keyword, Lower(Norma1Text), Norma1Breaks)
  {
    Norma1BreakChars();
    BreakCharsOutsideKeyword();
  }

  /** The breaks of `norma2` hold characters absent from the keyword. */
  lemma Norma2BreaksForeign()
    ensures ForeignAt(Keyword, Lower(Norma2Text), Norma2Breaks)
  {
    Norma2BreakChars();
    BreakCharsOutsideKeyword();
  }

  /** `norma1` spells the keyword with an accent, `protección`, so the
      unaccented keyword does not occur in its lower-cased text. */
  lemma Norma1LacksKeyword()
    ensures !IsSubstring(Keyword, Lower(Norma1Text))
  {
    Norma1BreaksCover();
    Norma1BreaksForeign();
    NoOccurrenceAcrossBreaks(Keyword, Lower(Norma1Text), Norma1Breaks);
  }

  /** `norma2` does not mention the keyword at all. */
  lemma Norma2LacksKeyword()
    ensures !IsSubstring(Keyword, Lower(Norma2Text))
  {
    Norma2BreaksCover();
    Norma2BreaksForeign();
    NoOccurrenceAcrossBreaks(Keyword, Lower(Norma2Text), Norma2Breaks);
  }

  /** Neither hardcoded rule text contains the unaccented keyword once lower-cased. */
  lemma NormasLackKeyword(embed: string -> Vector, r: Rule)
    requires r in Normas(embed)
    ensures !IsSubstring(Keyword, Lower(r.text))
  {
    Norma1LacksKeyword();
    Norma2LacksKeyword();
  }

  /** Whatever the element's description, it never complies with a hardcoded rule. */
  lemma NeverCompliesWithNormas(embed: string -> Vector, e: Element, r: Rule)
    requires r in Normas(embed)
    ensures !Complies(e, r)
  {
    NormasLackKeyword(embed, r);
  }

  /** The heuristic ignores ASCII letter case in the description. */
  lemma CompliesIgnoresCase(e: Element, r: Rule)
    ensures Complies(Element(e.id, Lower(e.description)), r) == Complies(e, r)
  {
    LowerIdempotent(e.description);
  }

  /** When both texts carry the keyword in its unaccented spelling, in any
      ASCII letter case, the element complies. */
  lemma KeywordInBothComplies(e: Element, r: Rule, i: int, j: int)
    requires OccursAt(Keyword, Lower(e.description), i)
    requires OccursAt(Keyword, r.text, j)
    ensures Complies(e, r)
  {
    assert Lower(Keyword) == Keyword;
    LowerKeepsOccurrence(Keyword, r.text, j);
  }
}
