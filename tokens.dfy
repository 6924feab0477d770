/** The design-token tree and the specification of its flattening into
    CSS custom-property declarations. */
module Tokens {

  /** A parsed token document node.
      - Leaf: a non-null object that has a `value` member (a token). `value`
        is its text; `rest` holds the object's other members in iteration
        order (normally just `type`). The flattener never looks inside `rest`
        when the leaf is met below a section root.
      - Group: any other non-null object; its members in iteration order.
      - Scalar: a string, number, boolean or null; `truthy` is its JavaScript
        truthiness, which only the section test reads. */
  datatype Node =
    | Leaf(value: string, rest: seq<(string, Node)>)
    | Group(members: seq<(string, Node)>)
    | Scalar(truthy: bool)

  /** The members `Object.entries` yields for a node, in iteration order. The
      `value` member of a leaf is a string and yields no line wherever it
      stands, so it is left out; the entries of a string are its characters,
      which yield no line either. */
  function Members(n: Node): seq<(string, Node)>
  {
    match n
    case Leaf(_, rest) => rest
    case Group(ms) => ms
    case Scalar(_) => []
  }

  /** JavaScript truthiness of a node: every object is truthy. */
  predicate Truthy(n: Node)
  {
    match n
    case Scalar(t) => t
    case _ => true
  }

  /** The ancestor path handed to the recursive call for a nested group at
      `key`: an empty (falsy) path is replaced, otherwise extended by "-". */
  function NestedKey(parentKey: string, key: string): string
  {
    if parentKey != "" then parentKey + "-" + key else key
  }

  /** The custom-property name of a leaf at `key` under `parentKey`, with the
      two cases the generator distinguishes. */
  function VarName(prefix: string, parentKey: string, key: string): string
  {
    if parentKey != "" then "--" + prefix + "-" + parentKey + "-" + key
    else "--" + prefix + "-" + key
  }

  /** One emitted declaration line. */
  function Declaration(name: string, value: string): string
  {
    "  " + name + ": " + value + ";"
  }

  /** The lines emitted for the members `ms` of a group, in member order; a
      nested group's lines are spliced in at its position. */
  function FlattenMembers(ms: seq<(string, Node)>, prefix: string, parentKey: string): seq<string>
    decreases ms
  {
    if ms == [] then [] else FlattenMember(ms[0], prefix, parentKey) + FlattenMembers(ms[1..], prefix, parentKey)
  }

  /** The lines emitted for one member: a leaf gives one declaration, a group
      is descended into with a longer path, anything else gives nothing. */
  function FlattenMember(m: (string, Node), prefix: string, parentKey: string): seq<string>
    decreases m
  {
    match m.1
    case Leaf(v, _) => [Declaration(VarName(prefix, parentKey, m.0), v)]
    case Group(cs) => FlattenMembers(cs, prefix, NestedKey(parentKey, m.0))
    case Scalar(_) => []
  }

  /** The lines emitted when the generator is called on node `n`. */
  function Flatten(n: Node, prefix: string, parentKey: string): seq<string>
  {
    FlattenMembers(Members(n), prefix, parentKey)
  }

  // ---------------------------------------------------------------------
  // Reference definitions: the tokens reachable from a group, by key path

  /** A token reached from a group: the keys leading to it and its value. */
  datatype Found = Found(path: seq<string>, value: string)

  /** Every leaf reachable from the members `ms` through groups, depth-first
      in member order, with its key path relative to `ms`. */
  function Leaves(ms: seq<(string, Node)>): seq<Found>
    decreases ms
  {
    if ms == [] then [] else MemberLeaves(ms[0]) + Leaves(ms[1..])
  }

  function MemberLeaves(m: (string, Node)): seq<Found>
    decreases m
  {
    match m.1
    case Leaf(v, _) => [Found([m.0], v)]
    case Group(cs) => Under(m.0, Leaves(cs))
    case Scalar(_) => []
  }

  /** The same tokens seen from one level up, through `key`. */
  function Under(key: string, fs: seq<Found>): (r: seq<Found>)
    ensures |r| == |fs|
    ensures forall i :: 0 <= i < |fs| ==> r[i] == Found([key] + fs[i].path, fs[i].value)
  {
    seq(|fs|, i requires 0 <= i < |fs| => Found([key] + fs[i].path, fs[i].value))
  }

  /** The number of leaves reachable from `ms` through groups, counted
      independently of any path or name. */
  function LeafCount(ms: seq<(string, Node)>): nat
    decreases ms
  {
    if ms == [] then 0 else MemberLeafCount(ms[0]) + LeafCount(ms[1..])
  }

  function MemberLeafCount(m: (string, Node)): nat
    decreases m
  {
    match m.1
    case Leaf(_, _) => 1
    case Group(cs) => LeafCount(cs)
    case Scalar(_) => 0
  }

  /** The path string reached from `parentKey` by descending through `keys`,
      one NestedKey step per key. */
  function Extend(parentKey: string, keys: seq<string>): string
    decreases keys
  {
    if keys == [] then parentKey else Extend(NestedKey(parentKey, keys[0]), keys[1..])
  }

  /** Reference naming: the keys with every leading empty key dropped, joined
      with "-". */
  function DropLeadingEmpty(keys: seq<string>): (r: seq<string>)
    ensures r == [] || r[0] != ""
    ensures |r| <= |keys| && r == keys[|keys| - |r|..]
  {
    if keys == [] || keys[0] != "" then keys else DropLeadingEmpty(keys[1..])
  }

  function JoinHyphen(keys: seq<string>): string
  {
    if keys == [] then "" else if |keys| == 1 then keys[0] else keys[0] + "-" + JoinHyphen(keys[1..])
  }

  /** Reference name of a token found at `path` below a section root. */
  function TokenName(prefix: string, path: seq<string>): string
  {
    "--" + prefix + "-" + JoinHyphen(DropLeadingEmpty(path))
  }

  /** The declaration each found token is rendered to, under `parentKey`. */
  function Render(fs: seq<Found>, prefix: string, parentKey: string): (r: seq<string>)
    ensures |r| == |fs|
    ensures forall i :: 0 <= i < |fs| ==>
      r[i] == Declaration("--" + prefix + "-" + Extend(parentKey, fs[i].path), fs[i].value)
  {
    seq(|fs|, i requires 0 <= i < |fs| =>
      Declaration("--" + prefix + "-" + Extend(parentKey, fs[i].path), fs[i].value))
  }

  // ---------------------------------------------------------------------
  // Lemmas

  /** Both naming branches are "--", the prefix, "-" and the path the leaf
      would hand down as a group. */
  lemma VarNameIsNestedKey(prefix: string, parentKey: string, key: string)
    ensures VarName(prefix, parentKey, key) == "--" + prefix + "-" + NestedKey(parentKey, key)
  {
    if parentKey != "" {
      calc {
        VarName(prefix, parentKey, key);
        ("--" + prefix + "-") + (parentKey + "-" + key);
      }
    }
  }

  /** Flattening distributes over concatenation of member lists: each
      member's output is spliced in at its position. */
  lemma {:induction false} FlattenMembersAppend(a: seq<(string, Node)>, b: seq<(string, Node)>, prefix: string, parentKey: string)
    ensures FlattenMembers(a + b, prefix, parentKey) == FlattenMembers(a, prefix, parentKey) + FlattenMembers(b, prefix, parentKey)
    decreases a
  {
    if a == [] {
      assert a + b == b;
    } else {
      assert (a + b)[0] == a[0];
      assert (a + b)[1..] == a[1..] + b;
      FlattenMembersAppend(a[1..], b, prefix, parentKey);
    }
  }

  /** Flattening a prefix of the members one member longer appends that
      member's lines. */
  lemma FlattenMembersStep(ms: seq<(string, Node)>, i: nat, prefix: string, parentKey: string)
    requires i < |ms|
    ensures FlattenMembers(ms[..i + 1], prefix, parentKey)
         == FlattenMembers(ms[..i], prefix, parentKey) + FlattenMember(ms[i], prefix, parentKey)
  {
    assert ms[..i + 1] == ms[..i] + [ms[i]];
    FlattenMembersAppend(ms[..i], [ms[i]], prefix, parentKey);
  }

  /** An empty group yields nothing, and inserting one among siblings leaves
      the siblings' output unchanged. */
  lemma EmptyGroupIsNeutral(before: seq<(string, Node)>, key: string, after: seq<(string, Node)>, prefix: string, parentKey: string)
    ensures Flatten(Group([]), prefix, parentKey) == []
    ensures FlattenMembers(before + [(key, Group([]))] + after, prefix, parentKey)
         == FlattenMembers(before + after, prefix, parentKey)
  {
    var empty := [(key, Group([]))];
    assert FlattenMembers(empty, prefix, parentKey) == [] by {
      assert empty[1..] == [];
      assert FlattenMember(empty[0], prefix, parentKey) == [];
    }
    FlattenMembersAppend(before + [(key, Group([]))], after, prefix, parentKey);
    FlattenMembersAppend(before, [(key, Group([]))], prefix, parentKey);
    FlattenMembersAppend(before, after, prefix, parentKey);
  }

  /** Order preservation: a nested group's full output is spliced in at the
      group's position among its siblings, between the output of the members
      before it and the output of the members after it. */
  lemma GroupSplicedInPlace(before: seq<(string, Node)>, key: string, cs: seq<(string, Node)>,
                            after: seq<(string, Node)>, prefix: string, parentKey: string)
    ensures FlattenMembers(before + [(key, Group(cs))] + after, prefix, parentKey)
         == FlattenMembers(before, prefix, parentKey)
          + FlattenMembers(cs, prefix, NestedKey(parentKey, key))
          + FlattenMembers(after, prefix, parentKey)
  {
    var g := [(key, Group(cs))];
    assert FlattenMembers(g, prefix, parentKey) == FlattenMembers(cs, prefix, NestedKey(parentKey, key)) by {
      assert g[1..] == [];
    }
    FlattenMembersAppend(before + g, after, prefix, parentKey);
    FlattenMembersAppend(before, g, prefix, parentKey);
  }

  /** A token is never descended into: whatever else the token object holds,
      it yields exactly its own declaration. */
  lemma LeafIsOpaque(key: string, v: string, rest: seq<(string, Node)>, prefix: string, parentKey: string)
    ensures FlattenMembers([(key, Leaf(v, rest))], prefix, parentKey)
         == [Declaration("--" + prefix + "-" + NestedKey(parentKey, key), v)]
  {
    VarNameIsNestedKey(prefix, parentKey, key);
  }

  lemma RenderAppend(a: seq<Found>, b: seq<Found>, prefix: string, parentKey: string)
    ensures Render(a + b, prefix, parentKey) == Render(a, prefix, parentKey) + Render(b, prefix, parentKey)
  {
  }

  /** Seen from one level up, the path string of a token below `key` is the
      one its group was flattened with. */
  lemma RenderUnder(key: string, fs: seq<Found>, prefix: string, parentKey: string)
    ensures Render(Under(key, fs), prefix, parentKey) == Render(fs, prefix, NestedKey(parentKey, key))
  {
    forall i | 0 <= i < |fs|
      ensures Extend(parentKey, [key] + fs[i].path) == Extend(NestedKey(parentKey, key), fs[i].path)
    {
      assert ([key] + fs[i].path)[1..] == fs[i].path;
    }
  }

  /** The generator's output is exactly one declaration per reachable token,
      in depth-first member order, named "--" + prefix + "-" followed by the
      path reached from `parentKey` through the token's keys. */
  lemma {:induction false} FlattenMembersIsRender(ms: seq<(string, Node)>, prefix: string, parentKey: string)
    ensures FlattenMembers(ms, prefix, parentKey) == Render(Leaves(ms), prefix, parentKey)
    decreases ms
  {
    if ms != [] {
      FlattenMemberIsRender(ms[0], prefix, parentKey);
      FlattenMembersIsRender(ms[1..], prefix, parentKey);
      RenderAppend(MemberLeaves(ms[0]), Leaves(ms[1..]), prefix, parentKey);
    }
  }

  lemma {:induction false} FlattenMemberIsRender(m: (string, Node), prefix: string, parentKey: string)
    ensures FlattenMember(m, prefix, parentKey) == Render(MemberLeaves(m), prefix, parentKey)
    decreases m
  {
    match m.1
    case Leaf(v, _) =>
      VarNameIsNestedKey(prefix, parentKey, m.0);
      assert [m.0][1..] == [];
      assert Extend(parentKey, [m.0]) == NestedKey(parentKey, m.0);
    case Group(cs) =>
      FlattenMembersIsRender(cs, prefix, NestedKey(parentKey, m.0));
      RenderUnder(m.0, Leaves(cs), prefix, NestedKey(parentKey, m.0));
      RenderUnder(m.0, Leaves(cs), prefix, parentKey);
    case Scalar(_) =>
  }

  /** Completeness: the number of emitted lines is the number of reachable
      tokens, and so is the number of found tokens. */
  lemma {:induction false} LeafCountIsLeaves(ms: seq<(string, Node)>)
    ensures |Leaves(ms)| == LeafCount(ms)
    decreases ms
  {
    if ms != [] {
      MemberLeafCountIsLeaves(ms[0]);
      LeafCountIsLeaves(ms[1..]);
    }
  }

  lemma {:induction false} MemberLeafCountIsLeaves(m: (string, Node))
    ensures |MemberLeaves(m)| == MemberLeafCount(m)
    decreases m
  {
    match m.1
    case Leaf(_, _) =>
    case Group(cs) => LeafCountIsLeaves(cs);
    case Scalar(_) =>
  }

  lemma FlattenCount(ms: seq<(string, Node)>, prefix: string, parentKey: string)
    ensures |FlattenMembers(ms, prefix, parentKey)| == LeafCount(ms)
  {
    FlattenMembersIsRender(ms, prefix, parentKey);
    LeafCountIsLeaves(ms);
  }

  /** The path string built step by step from the section root is the
      reference join of the keys once leading empty keys are dropped: an empty
      key is swallowed only while the path is still empty. */
  lemma {:induction false} ExtendFromRootIsJoin(keys: seq<string>)
    ensures Extend("", keys) == JoinHyphen(DropLeadingEmpty(keys))
    decreases keys
  {
    if keys != [] {
      if keys[0] == "" {
        assert NestedKey("", keys[0]) == "";
        ExtendFromRootIsJoin(keys[1..]);
      } else {
        ExtendIsJoin(keys[0], keys[1..]);
      }
    }
  }

  lemma {:induction false} ExtendIsJoin(parentKey: string, keys: seq<string>)
    requires parentKey != ""
    ensures Extend(parentKey, keys) == JoinHyphen([parentKey] + keys)
    decreases keys
  {
    if keys != [] {
      var next := parentKey + "-" + keys[0];
      assert NestedKey(parentKey, keys[0]) == next;
      ExtendIsJoin(next, keys[1..]);
      JoinHyphenHead(parentKey, keys);
    }
  }

  /** Joining with a non-empty first key glued on by "-" to the second. */
  lemma JoinHyphenHead(first: string, keys: seq<string>)
    requires keys != []
    ensures JoinHyphen([first + "-" + keys[0]] + keys[1..]) == JoinHyphen([first] + keys)
  {
    var l := [first + "-" + keys[0]] + keys[1..];
    var r := [first] + keys;
    assert r[1..] == keys;
    if |keys| == 1 {
      assert JoinHyphen(l) == first + "-" + keys[0];
    } else {
      assert l[1..] == keys[1..];
      assert JoinHyphen(keys) == keys[0] + "-" + JoinHyphen(keys[1..]);
    }
  }

  /** Every line a section emits is a declaration whose name is the section
      prefix followed by the token's keys joined with "-" (leading empty keys
      dropped) and whose value is the token's value verbatim. */
  lemma SectionLine(root: Node, prefix: string, i: nat)
    requires i < |Flatten(root, prefix, "")|
    ensures |Leaves(Members(root))| == |Flatten(root, prefix, "")|
    ensures Flatten(root, prefix, "")[i]
         == Declaration(TokenName(prefix, Leaves(Members(root))[i].path), Leaves(Members(root))[i].value)
  {
    FlattenMembersIsRender(Members(root), prefix, "");
    ExtendFromRootIsJoin(Leaves(Members(root))[i].path);
  }
}
