/** The fixed text that frames the theme stylesheet. */
module Framing {

  // The comment lines of the header: a rule of 44 "=", the title (which
  // opens with the artist-palette emoji U+1F3A8) and the warning. Each is written as a concatenation of short literals, the only form in
  // which the solver can look for a character inside it.

  const Rule: string := "/* =====" + "==========" + "==========" + "==========" + "========= */"
  const Title: string := "/* \U{1F3A8} Design Tokens " + "- Auto-generated " + "from tokens.json */"
  const Warning: string := "/* DO NOT EDIT " + "MANUALLY - Run: " + "npm run tokens */"

  /** The six lines that open the stylesheet, ending with `@theme {`. */
  const Header: seq<string> := [Rule, Title, Warning, Rule, "", "@theme {"]

  /** The two lines that close it. */
  const Footer: seq<string> := ["}", ""]

  /** The fixed framing lines are single lines. */
  lemma FramingHasNoNewline()
    ensures forall l :: l in Header + Footer ==> '\n' !in l
  {
    RuleHasNoNewline();
    TitleHasNoNewline();
    WarningHasNoNewline();
    assert Header + Footer == [Rule, Title, Warning, Rule, "", "@theme {", "}", ""];
  }

  lemma RuleHasNoNewline()
    ensures '\n' !in Rule
  {
    assert '\n' !in "/* =====";
    assert '\n' !in "==========";
    assert '\n' !in "========= */";
  }

  lemma TitleHasNoNewline()
    ensures '\n' !in Title
  {
    assert '\n' !in "/* \U{1F3A8} Design Tokens ";
    assert '\n' !in "- Auto-generated ";
    assert '\n' !in "from tokens.json */";
  }

  lemma WarningHasNoNewline()
    ensures '\n' !in Warning
  {
    assert '\n' !in "/* DO NOT EDIT ";
    assert '\n' !in "MANUALLY - Run: ";
    assert '\n' !in "npm run tokens */";
  }
}
