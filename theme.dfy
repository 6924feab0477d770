/** The theme stylesheet assembled from a token document: fixed header,
    one block per section of the fixed section table that the document
    holds, closing brace; lines joined with newlines. */
module Theme {
  import opened Tokens
  import opened Framing

  datatype Option<T> = None | Some(value: T)

  /** One row of the section table: the document key, the name prefix of
      its declarations and the label of its comment line. */
  datatype Section = Section(key: string, prefix: string, comment: string)

  /** The fixed section table, in emission order. */
  const Sections: seq<Section> := [
    Section("colors", "color", "Colors"),
    Section("spacing", "spacing", "Spacing"),
    Section("fontSize", "font-size", "Font Sizes"),
    Section("fontWeight", "font-weight", "Font Weights"),
    Section("lineHeight", "line-height", "Line Heights"),
    Section("borderRadius", "radius", "Border Radius"),
    Section("shadow", "shadow", "Shadows")
  ]

  /** A parsed document: its top-level members in iteration order. */
  type Document = seq<(string, Node)>

  /** `tokens[key]`: the member stored under `key`, if any. */
  function Lookup(doc: Document, key: string): (r: Option<Node>)
    ensures r.Some? ==> (key, r.value) in doc
    ensures r.None? ==> forall m :: m in doc ==> m.0 != key
  {
    if doc == [] then None
    else if doc[0].0 == key then Some(doc[0].1)
    else Lookup(doc[1..], key)
  }

  /** JSON objects as parsed: no key occurs twice. */
  ghost predicate UniqueKeys(doc: Document)
  {
    forall i, j :: 0 <= i < j < |doc| ==> doc[i].0 != doc[j].0
  }

  /** The comment line that opens a section block. */
  function CommentLine(comment: string): string
  {
    "  /* " + comment + " */"
  }

  /** Whether the document holds a truthy value for the section. */
  predicate Present(doc: Document, s: Section)
  {
    Lookup(doc, s.key).Some? && Truthy(Lookup(doc, s.key).value)
  }

  /** The lines one section contributes: nothing when the section is missing
      or falsy, else a blank line, its comment line and its declarations. */
  function SectionBlock(doc: Document, s: Section): seq<string>
  {
    if Present(doc, s) then ["", CommentLine(s.comment)] + Flatten(Lookup(doc, s.key).value, s.prefix, "")
    else []
  }

  /** The blocks of the sections `secs`, in table order. */
  function Body(doc: Document, secs: seq<Section>): seq<string>
  {
    if secs == [] then [] else SectionBlock(doc, secs[0]) + Body(doc, secs[1..])
  }

  /** All lines of the stylesheet. */
  function ThemeLines(doc: Document): (r: seq<string>)
    ensures |r| >= |Header| + |Footer| && r[..|Header|] == Header && r[|r| - |Footer|..] == Footer
  {
    Header + Body(doc, Sections) + Footer
  }

  /** `lines.join("\n")`. */
  function JoinLines(lines: seq<string>): string
  {
    if lines == [] then "" else if |lines| == 1 then lines[0] else lines[0] + "\n" + JoinLines(lines[1..])
  }

  /** The stylesheet text. */
  function ThemeCss(doc: Document): string
  {
    JoinLines(ThemeLines(doc))
  }

  /** `text.split("\n")`: the pieces between newlines; never empty. */
  function SplitLines(text: string): (r: seq<string>)
    ensures |r| >= 1
  {
    if text == [] then [""]
    else if text[0] == '\n' then [""] + SplitLines(text[1..])
    else var r := SplitLines(text[1..]); [[text[0]] + r[0]] + r[1..]
  }

  /** Each line followed by a newline. */
  function Terminated(lines: seq<string>): string
  {
    if lines == [] then "" else lines[0] + "\n" + Terminated(lines[1..])
  }

  // ---------------------------------------------------------------------
  // Lemmas: sections

  lemma {:induction false} BodyAppend(doc: Document, a: seq<Section>, b: seq<Section>)
    ensures Body(doc, a + b) == Body(doc, a) + Body(doc, b)
    decreases a
  {
    if a == [] {
      assert a + b == b;
    } else {
      assert (a + b)[0] == a[0];
      assert (a + b)[1..] == a[1..] + b;
      BodyAppend(doc, a[1..], b);
    }
  }

  /** Processing one more section of the table appends its block to
      whatever precedes the body. */
  lemma BodyStep(doc: Document, secs: seq<Section>, i: nat, before: seq<string>)
    requires i < |secs|
    ensures before + Body(doc, secs[..i]) + SectionBlock(doc, secs[i]) == before + Body(doc, secs[..i + 1])
  {
    assert secs[..i + 1] == secs[..i] + [secs[i]];
    BodyAppend(doc, secs[..i], [secs[i]]);
    assert [secs[i]][1..] == [];
  }

  /** A missing or falsy section contributes nothing; a present one a blank
      line, its comment line and one declaration per token it holds. */
  lemma SectionBlockCount(doc: Document, s: Section)
    ensures !Present(doc, s) ==> SectionBlock(doc, s) == []
    ensures Present(doc, s) ==>
      |SectionBlock(doc, s)| == 2 + LeafCount(Members(Lookup(doc, s.key).value))
      && SectionBlock(doc, s)[..2] == ["", CommentLine(s.comment)]
  {
    if Present(doc, s) {
      FlattenCount(Members(Lookup(doc, s.key).value), s.prefix, "");
    }
  }

  /** Under unique keys, a lookup finds exactly the member stored under the
      key, wherever it stands. */
  lemma {:induction false} LookupFinds(doc: Document, key: string, v: Node)
    requires UniqueKeys(doc)
    ensures Lookup(doc, key) == Some(v) <==> (key, v) in doc
    decreases doc
  {
    if doc != [] {
      if doc[0].0 != key {
        assert UniqueKeys(doc[1..]) by {
          forall i, j | 0 <= i < j < |doc[1..]| ensures doc[1..][i].0 != doc[1..][j].0 {
            assert doc[1..][i] == doc[i + 1] && doc[1..][j] == doc[j + 1];
          }
        }
        LookupFinds(doc[1..], key, v);
        assert (key, v) in doc <==> (key, v) in doc[1..] by {
          assert doc == [doc[0]] + doc[1..];
        }
      }
    }
  }

  /** Two documents holding the same members find the same value under
      every key, whatever the order of their members. */
  lemma LookupOrderIndependent(d1: Document, d2: Document, key: string)
    requires UniqueKeys(d1) && UniqueKeys(d2)
    requires multiset(d1) == multiset(d2)
    ensures Lookup(d1, key) == Lookup(d2, key)
  {
    forall m ensures m in d1 <==> m in d2 {
      assert m in d1 <==> m in multiset(d1);
      assert m in d2 <==> m in multiset(d2);
    }
    match Lookup(d1, key)
    case Some(v) =>
      LookupFinds(d1, key, v);
      LookupFinds(d2, key, v);
    case None =>
      match Lookup(d2, key)
      case Some(v) =>
        LookupFinds(d2, key, v);
      case None =>
  }

  /** The body depends only on what each section of the table finds. */
  lemma {:induction false} BodyDependsOnLookups(d1: Document, d2: Document, secs: seq<Section>)
    requires forall s :: s in secs ==> Lookup(d1, s.key) == Lookup(d2, s.key)
    ensures Body(d1, secs) == Body(d2, secs)
    decreases secs
  {
    if secs != [] {
      assert secs[0] in secs;
      BodyDependsOnLookups(d1, d2, secs[1..]);
    }
  }

  /** Sections come out in the fixed table order whatever the order of the
      document's members: reordering a document leaves the stylesheet
      unchanged. */
  lemma ThemeOrderIndependent(d1: Document, d2: Document)
    requires UniqueKeys(d1) && UniqueKeys(d2)
    requires multiset(d1) == multiset(d2)
    ensures ThemeCss(d1) == ThemeCss(d2)
  {
    forall s | s in Sections ensures Lookup(d1, s.key) == Lookup(d2, s.key) {
      LookupOrderIndependent(d1, d2, s.key);
    }
    BodyDependsOnLookups(d1, d2, Sections);
  }

  /** Members outside the section table never reach the stylesheet. */
  lemma ForeignMembersIgnored(doc: Document, key: string, n: Node)
    requires forall s :: s in Sections ==> s.key != key
    ensures ThemeCss(doc + [(key, n)]) == ThemeCss(doc)
  {
    forall s | s in Sections ensures Lookup(doc + [(key, n)], s.key) == Lookup(doc, s.key) {
      LookupAppendOther(doc, key, n, s.key);
    }
    BodyDependsOnLookups(doc + [(key, n)], doc, Sections);
  }

  lemma {:induction false} LookupAppendOther(doc: Document, key: string, n: Node, other: string)
    requires other != key
    ensures Lookup(doc + [(key, n)], other) == Lookup(doc, other)
    decreases doc
  {
    if doc == [] {
      assert (doc + [(key, n)])[1..] == [];
    } else {
      assert (doc + [(key, n)])[0] == doc[0];
      assert (doc + [(key, n)])[1..] == doc[1..] + [(key, n)];
      LookupAppendOther(doc[1..], key, n, other);
    }
  }

  // ---------------------------------------------------------------------
  // Lemmas: text

  lemma {:induction false} JoinAfterTerminated(a: seq<string>, b: seq<string>)
    requires b != []
    ensures JoinLines(a + b) == Terminated(a) + JoinLines(b)
    decreases a
  {
    if a == [] {
      assert a + b == b;
    } else {
      assert |a + b| >= 2;
      assert (a + b)[0] == a[0];
      assert (a + b)[1..] == a[1..] + b;
      JoinAfterTerminated(a[1..], b);
    }
  }

  lemma {:induction false} TerminatedAppend(a: seq<string>, b: seq<string>)
    ensures Terminated(a + b) == Terminated(a) + Terminated(b)
    decreases a
  {
    if a == [] {
      assert a + b == b;
    } else {
      assert (a + b)[0] == a[0];
      assert (a + b)[1..] == a[1..] + b;
      TerminatedAppend(a[1..], b);
    }
  }

  /** The stylesheet text is every header line followed by a newline, every
      body line followed by a newline, then "}" and a final newline. */
  lemma ThemeCssText(doc: Document)
    ensures ThemeCss(doc) == Terminated(Header) + Terminated(Body(doc, Sections)) + "}\n"
  {
    var body := Body(doc, Sections);
    assert ThemeCss(doc) == JoinLines(Header + body + Footer);
    JoinAfterTerminated(Header + body, Footer);
    TerminatedAppend(Header, body);
    assert JoinLines(Footer) == "}\n" by {
      assert Footer[1..] == [""];
    }
  }

  lemma {:induction false} SplitNoNewline(s: string)
    requires '\n' !in s
    ensures SplitLines(s) == [s]
    decreases s
  {
    if s != [] {
      assert s == [s[0]] + s[1..];
      SplitNoNewline(s[1..]);
    }
  }

  lemma {:induction false} SplitAfterLine(a: string, b: string)
    requires '\n' !in a
    ensures SplitLines(a + "\n" + b) == [a] + SplitLines(b)
    decreases a
  {
    if a == [] {
      assert a + "\n" + b == ['\n'] + b;
      assert (['\n'] + b)[1..] == b;
    } else {
      assert (a + "\n" + b)[0] == a[0];
      assert (a + "\n" + b)[1..] == a[1..] + "\n" + b;
      assert a == [a[0]] + a[1..];
      SplitAfterLine(a[1..], b);
    }
  }

  /** Joining lines that hold no newline is undone by splitting. */
  lemma {:induction false} SplitJoin(lines: seq<string>)
    requires lines != []
    requires forall l :: l in lines ==> '\n' !in l
    ensures SplitLines(JoinLines(lines)) == lines
    decreases lines
  {
    assert lines[0] in lines;
    if |lines| == 1 {
      SplitNoNewline(lines[0]);
    } else {
      SplitAfterLine(lines[0], JoinLines(lines[1..]));
      SplitJoin(lines[1..]);
    }
  }

  /** When no body line holds a newline (no token value, key, prefix or
      comment does), splitting the stylesheet text gives back its lines. */
  lemma ThemeCssSplits(doc: Document)
    requires forall l :: l in Body(doc, Sections) ==> '\n' !in l
    ensures SplitLines(ThemeCss(doc)) == ThemeLines(doc)
  {
    var lines := ThemeLines(doc);
    assert lines == Header + Body(doc, Sections) + Footer;
    FramingHasNoNewline();
    SplitJoin(lines);
  }
}
