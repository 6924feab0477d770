/** The generator as written: a loop over a node's members that pushes one
    line per token and splices in the lines of a recursive call per nested
    group, and a loop over the section table that builds the stylesheet. */
module GenerateCss {
  import opened Tokens
  import opened Framing
  import opened Theme

  /** The declarations for every token below `group`, named from `prefix`
      and the ancestor path `parentKey`. */
  method GenerateCSSVariables(group: Node, prefix: string, parentKey: string) returns (lines: seq<string>)
    ensures lines == Flatten(group, prefix, parentKey)
    decreases group
  {
    var members := Members(group);
    lines := [];
    var i := 0;
    while i < |members|
      invariant 0 <= i <= |members|
      invariant lines == FlattenMembers(members[..i], prefix, parentKey)
    {
      var (key, value) := members[i];
      FlattenMembersStep(members, i, prefix, parentKey);
      match value {
        case Leaf(v, _) =>
          var cssVarName := if parentKey != "" then "--" + prefix + "-" + parentKey + "-" + key
                            else "--" + prefix + "-" + key;
          lines := lines + [Declaration(cssVarName, v)];
        case Group(_) =>
          var nestedKey := if parentKey != "" then parentKey + "-" + key else key;
          var nested := GenerateCSSVariables(value, prefix, nestedKey);
          lines := lines + nested;
        case Scalar(_) =>
      }
      i := i + 1;
    }
    assert members[..i] == members;
  }

  /** One turn of the section loop: the lines a section contributes. */
  method SectionLines(tokens: Document, s: Section) returns (block: seq<string>)
    ensures block == SectionBlock(tokens, s)
  {
    block := [];
    var entry := Lookup(tokens, s.key);
    if entry.Some? && Truthy(entry.value) {
      block := block + [""];
      block := block + [CommentLine(s.comment)];
      var vars := GenerateCSSVariables(entry.value, s.prefix, "");
      block := block + vars;
    }
  }

  /** `sections.forEach(...)`: pushes the block of every section of
      `sections`, in order, after `cssLines`. */
  method PushSections(tokens: Document, sections: seq<Section>, cssLines: seq<string>) returns (lines: seq<string>)
    ensures lines == cssLines + Body(tokens, sections)
  {
    lines := cssLines;
    for i := 0 to |sections|
      invariant lines == cssLines + Body(tokens, sections[..i])
    {
      var block := SectionLines(tokens, sections[i]);
      BodyStep(tokens, sections, i, cssLines);
      lines := lines + block;
    }
    assert sections[..|sections|] == sections;
  }

  /** The stylesheet text for a parsed token document. */
  method GenerateThemeCSS(tokens: Document) returns (css: string)
    ensures css == ThemeCss(tokens)
  {
    var cssLines := Header;
    cssLines := PushSections(tokens, Sections, cssLines);
    cssLines := cssLines + ["}"];
    cssLines := cssLines + [""];
    assert cssLines == Header + Body(tokens, Sections) + Footer;
    css := JoinLines(cssLines);
  }
}
