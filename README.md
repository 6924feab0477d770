# Design tokens to Tailwind `@theme` CSS

A Dafny model of the design-token generator in
`src/shared/design-tokens/generate-css.ts`. The generator reads a nested
token document and writes a stylesheet. Every token becomes one CSS custom
property (section 2 of CSS Custom Properties for Cascading Variables
Level 1) inside an `@theme { … }` block.

- `generateCSSVariables` walks a token group depth-first, in member order.
  A member that is a non-null object with a `value` key is a token. It
  yields one line `  --{prefix}-{path}-{key}: {value};`, where the path
  part is left out when the path is empty. Any other object is a nested
  group: the generator recurses into it with the path extended by `-key`.
  Strings, numbers, booleans and `null` yield nothing.
- `generateThemeCSS` starts from six fixed header lines ending in
  `@theme {`. It walks a fixed table of seven sections (`colors`→`color`,
  `spacing`, `fontSize`→`font-size`, `fontWeight`→`font-weight`,
  `lineHeight`→`line-height`, `borderRadius`→`radius`, `shadow`). For each
  section whose value in the document is truthy, it pushes a blank line, a
  comment line `  /* {label} */` and that section's declarations. It then
  pushes `}` and an empty line, and joins everything with `"\n"`.

Files:

- `tokens.dfy` (module `Tokens`): the parsed tree (`Node`), the generator's
  meaning as recursive functions (`FlattenMembers`, `FlattenMember`,
  `Flatten`, `VarName`, `NestedKey`), and independent reference definitions.
  The references are the tokens found with their key paths (`Leaves`), a
  leaf count (`LeafCount`) and the hyphen-joined name (`JoinHyphen`,
  `TokenName`). The lemmas connect the generator to these references.
- `framing.dfy` (module `Framing`): the header and footer lines.
- `theme.dfy` (module `Theme`): the section table, `tokens[key]`
  (`Lookup`), the section blocks, the stylesheet lines and text, and
  `split("\n")` as the inverse of the join.
- `generate_css.dfy` (module `GenerateCss`): the two functions as written.
  Each is a loop that pushes onto a line list, proved equal to the
  functional definitions above.
- `names.dfy` (module `Naming`): when generated names are unique, and a
  concrete collision when they are not.

The input is the already-parsed document. A JSON object is a sequence of
`(key, node)` pairs in `Object.entries` order. A node is one of:

- `Leaf(value, rest)`: an object with a `value` key. `rest` holds its other
  members, such as `type`.
- `Group(members)`: any other object.
- `Scalar(truthy)`: a string, number, boolean or `null`. `truthy` is its
  JavaScript truthiness.

Where the code and the design description disagree, the model follows the code:

- The code decides "token" only by the presence of a `value` key. A group
  holding a child literally named `value` is therefore treated as a token
  and is not descended into. The model does the same (`LeafIsOpaque`). It
  does not reject such input, although the design notes suggest rejecting
  it.
- The design promises that distinct tokens never share a name. The code
  does not check this. The model proves the promise only when every key is
  non-empty, contains no `-` and is unique within its object
  (`Naming.DistinctNames`). `Naming.HyphenatedKeysCollide` shows two tokens
  that get the same name otherwise.
- "Section present" in the code means JavaScript-truthy. A section holding
  `0`, `""`, `false` or `null` is skipped. A section holding a truthy
  non-object, such as a non-empty string, still gets its blank line and
  comment line, but no declarations.
- An empty key is swallowed while the path is still empty, because
  `parentKey ? … : key` tests for an empty string. After that, an empty key
  adds an extra `-`. `ExtendFromRootIsJoin` states this exactly.

## Model

| member | source | states |
|---|---|---|
| `GenerateCss.GenerateCSSVariables` | src/shared/design-tokens/generate-css.ts:27-50 | The loop over `Object.entries(group)` returns exactly `Flatten(group, prefix, parentKey)`. It pushes one line per token and splices each recursive call's lines in at that member's place. |
| `GenerateCss.SectionLines` | src/shared/design-tokens/generate-css.ts:81-87 | One turn of `sections.forEach` yields that section's block. The block is empty when `tokens[key]` is missing or falsy. Otherwise it is a blank line, the comment line and the section's declarations. |
| `GenerateCss.PushSections` | src/shared/design-tokens/generate-css.ts:81-87 | Walking the section table appends every section's block after the lines already pushed, in table order. |
| `GenerateCss.GenerateThemeCSS` | src/shared/design-tokens/generate-css.ts:55-93 | The text built (header, section loop, `}`, `""`, `join("\n")`) equals `ThemeCss(tokens)`. The parsed document is the input; no file is read. |
| `Tokens.VarNameIsNestedKey` | src/shared/design-tokens/generate-css.ts:37-39 | Both naming branches equal `"--" + prefix + "-"` followed by the path a nested group at the same key would get (`NestedKey`). At the section root (empty `parentKey`) this is `--{prefix}-{key}`. |
| `Tokens.FlattenMembersAppend` | src/shared/design-tokens/generate-css.ts:34-47 | The output for a concatenation of members is the output for each part, in order. |
| `Tokens.FlattenMembersStep` | src/shared/design-tokens/generate-css.ts:34-47 | One more loop iteration appends exactly that member's lines. |
| `Tokens.GroupSplicedInPlace` | src/shared/design-tokens/generate-css.ts:42-46 | A nested group's full output, flattened with the extended path, appears between its earlier and later siblings' output. This is depth-first pre-order. |
| `Tokens.EmptyGroupIsNeutral` | src/shared/design-tokens/generate-css.ts:32-49 | An empty group yields no lines. Inserting one anywhere among siblings leaves the output unchanged. |
| `Tokens.LeafIsOpaque` | src/shared/design-tokens/generate-css.ts:35-41 | A token yields exactly one declaration with its `value` verbatim, whatever nested objects it also holds. |
| `Tokens.FlattenMembersIsRender` | src/shared/design-tokens/generate-css.ts:34-47 | The output is one declaration per token reachable through groups, in depth-first member order. Each is named `--{prefix}-` plus the path built from `parentKey` through the token's keys, with the value verbatim. |
| `Tokens.FlattenMemberIsRender` | src/shared/design-tokens/generate-css.ts:35-46 | The same, for one member: a token yields its own declaration, a group yields its tokens seen through its key, anything else yields nothing. |
| `Tokens.RenderUnder` | src/shared/design-tokens/generate-css.ts:44-45 | Rendering the tokens of a group seen from one level up equals rendering them with the path the recursive call receives. |
| `Tokens.LeafCountIsLeaves` | src/shared/design-tokens/generate-css.ts:34-47 | The found tokens number exactly the independently counted leaves. |
| `Tokens.FlattenCount` | src/shared/design-tokens/generate-css.ts:34-47 | The number of lines emitted for a group equals the number of tokens reachable through groups. Scalars and `null` count nothing, and a token's own members are never counted. |
| `Tokens.ExtendFromRootIsJoin` | src/shared/design-tokens/generate-css.ts:44 | Starting from the empty path, the step-by-step path equals the token's keys joined with `-` once leading empty keys are dropped. |
| `Tokens.ExtendIsJoin` | src/shared/design-tokens/generate-css.ts:44 | From a non-empty path, each step appends `-` and the key, so the result is the hyphen join of the path and all keys. |
| `Tokens.SectionLine` | src/shared/design-tokens/generate-css.ts:37-41 | Line `i` of a section is `"  " + TokenName(prefix, path) + ": " + value + ";"` for the `i`-th token found. |
| `Theme.Lookup` | src/shared/design-tokens/generate-css.ts:82 | `tokens[key]` returns a member actually stored under `key`. When it returns nothing, no member has that key. |
| `Theme.LookupFinds` | src/shared/design-tokens/generate-css.ts:82 | With unique keys, `tokens[key]` returns `v` if and only if `(key, v)` is a member of the document. |
| `Theme.LookupOrderIndependent` | src/shared/design-tokens/generate-css.ts:82 | Two documents with the same members in any order give the same `tokens[key]`. |
| `Theme.ThemeLines` | src/shared/design-tokens/generate-css.ts:61-90 | The line list always starts with the six header lines ending in `@theme {` and always ends with `}` and `""`. |
| `Theme.BodyAppend` | src/shared/design-tokens/generate-css.ts:81-87 | The blocks for a concatenation of section lists are the blocks of each part, in order. |
| `Theme.BodyStep` | src/shared/design-tokens/generate-css.ts:81-87 | Processing one more section appends exactly its block to what was pushed before. |
| `Theme.SectionBlockCount` | src/shared/design-tokens/generate-css.ts:82-86 | A missing or falsy section adds no lines. A present one adds `""` and `"  /* {comment} */"` first, and exactly 2 plus its token count lines in all. |
| `Theme.BodyDependsOnLookups` | src/shared/design-tokens/generate-css.ts:81-87 | The section blocks depend only on what `tokens[key]` returns for each section of the table. |
| `Theme.ThemeOrderIndependent` | src/shared/design-tokens/generate-css.ts:71-87 | Sections come out in the fixed table order whatever the document's key order: reordering the document's members leaves the stylesheet unchanged. |
| `Theme.ForeignMembersIgnored` | src/shared/design-tokens/generate-css.ts:71-87 | A top-level member whose key is not in the section table never affects the stylesheet. |
| `Theme.JoinAfterTerminated` | src/shared/design-tokens/generate-css.ts:92 | Joining `a + b` (with `b` non-empty) writes every line of `a` followed by a newline, then the join of `b`. |
| `Theme.TerminatedAppend` | src/shared/design-tokens/generate-css.ts:92 | Newline-terminating a concatenation concatenates the terminated parts. |
| `Theme.ThemeCssText` | src/shared/design-tokens/generate-css.ts:61-92 | The text is each header line plus `"\n"`, then each body line plus `"\n"`, then `"}\n"`. |
| `Theme.SplitNoNewline` | src/shared/design-tokens/generate-css.ts:92 | Splitting a string without a newline gives that one string. |
| `Theme.SplitAfterLine` | src/shared/design-tokens/generate-css.ts:92 | Splitting `a + "\n" + b`, with `a` newline-free, gives `a` followed by the split of `b`. |
| `Theme.SplitJoin` | src/shared/design-tokens/generate-css.ts:92 | `split("\n")` undoes `join("\n")` on a non-empty list of newline-free lines. |
| `Theme.ThemeCssSplits` | src/shared/design-tokens/generate-css.ts:61-92 | When no body line holds a newline, splitting the stylesheet text gives back exactly its line list. |
| `Framing.FramingHasNoNewline` | src/shared/design-tokens/generate-css.ts:61-68 | None of the fixed header or footer lines holds a newline. |
| `Naming.LeavesShape` | src/shared/design-tokens/generate-css.ts:34-46 | With good keys, every found token's path is non-empty, made of good keys, and starts with a key of the group. |
| `Naming.MemberLeavesShape` | src/shared/design-tokens/generate-css.ts:35-46 | With good keys, every token below a member has a path of good keys that starts with that member's key. |
| `Naming.PathsDistinct` | src/shared/design-tokens/generate-css.ts:34-46 | With keys unique within each object, distinct tokens are found at distinct key paths. |
| `Naming.MemberPathsDistinct` | src/shared/design-tokens/generate-css.ts:42-46 | Under one member, distinct tokens have distinct paths. |
| `Naming.JoinInjective` | src/shared/design-tokens/generate-css.ts:37-39 | Joining non-empty, hyphen-free keys with `-` is injective. |
| `Naming.HyphenAfterFirst` | src/shared/design-tokens/generate-css.ts:38 | Joining two or more keys puts a `-` right after the first key. |
| `Naming.DistinctNames` | src/shared/design-tokens/generate-css.ts:37-39 | When every key is non-empty, hyphen-free and unique in its object, no two tokens of a section share a custom-property name. |
| `Naming.HyphenatedKeysCollide` | src/shared/design-tokens/generate-css.ts:37-45 | Without that condition names collide: a token `a-b` and a token `b` inside group `a` both become `--{prefix}-a-b`. |

## Left out

- File reading and writing are not modelled: `fs.readFileSync`, `JSON.parse`, `fs.writeFileSync`, and the `console.log` calls of `writeThemeCSS`. So is the module-path setup (`fileURLToPath`, `path.dirname`). The model starts from the parsed document, and `GenerateThemeCSS` returns the text rather than writing it.
- What happens when reading or parsing fails (an exception, so no file is written) is not modelled: it happens before the modelled code runs.
- JSON parsing is not modelled, nor the `Object.entries` rule that integer-like keys come first. Each object is a sequence of members already in iteration order.
- Duplicate keys in one JSON object are not modelled. `Lookup` takes the first member with the key. The order-independence lemmas assume unique keys, as a parsed object has them.
- JavaScript's conversion of a non-string `value` inside the template literal is not modelled. A token's `value` is a string.
- Arrays are not a separate case. JavaScript treats an array as an object without a `value` key, so it is a group whose keys are its indices; write it as a `Group` with keys `"0"`, `"1"`, ….
- `Members` leaves out a token's own `value` member. This matters only when a token object is itself a section's value. That member is a string, so it never yields a line wherever it stands.
- `vite.config.ts` is static build and dev-proxy configuration and is not part of this model.
