/** When the generated custom-property names are unique: distinct tokens
    get distinct names as long as every key is non-empty, holds no "-" and
    is unique within its object. Without that, names can collide. */
module Naming {
  import opened Tokens

  /** A key that can neither vanish from a path nor be confused with two. */
  predicate GoodKey(k: string)
  {
    k != "" && '-' !in k
  }

  /** Every key below the members `ms`, down through groups, is good and
      unique among its siblings. Members of a token are never read, so they
      are unconstrained. */
  ghost predicate WellKeyed(ms: seq<(string, Node)>)
    decreases ms
  {
    ms == [] ||
    (MemberWellKeyed(ms[0])
     && (forall j :: 1 <= j < |ms| ==> ms[j].0 != ms[0].0)
     && WellKeyed(ms[1..]))
  }

  ghost predicate MemberWellKeyed(m: (string, Node))
    decreases m
  {
    GoodKey(m.0) && (m.1.Group? ==> WellKeyed(m.1.members))
  }

  function Keys(ms: seq<(string, Node)>): set<string>
  {
    set m | m in ms :: m.0
  }

  /** Under good keys every found token has a path of good keys whose first
      key is one of the members' keys. */
  lemma {:induction false} LeavesShape(ms: seq<(string, Node)>)
    requires WellKeyed(ms)
    ensures forall f :: f in Leaves(ms) ==>
      f.path != [] && f.path[0] in Keys(ms) && forall k :: k in f.path ==> GoodKey(k)
    decreases ms
  {
    if ms != [] {
      MemberLeavesShape(ms[0]);
      LeavesShape(ms[1..]);
      assert Keys(ms[1..]) <= Keys(ms) by {
        forall k | k in Keys(ms[1..]) ensures k in Keys(ms) {
          var m :| m in ms[1..] && m.0 == k;
          assert m in ms;
        }
      }
      assert ms[0] in ms;
    }
  }

  lemma {:induction false} MemberLeavesShape(m: (string, Node))
    requires MemberWellKeyed(m)
    ensures forall f :: f in MemberLeaves(m) ==>
      f.path != [] && f.path[0] == m.0 && forall k :: k in f.path ==> GoodKey(k)
    decreases m
  {
    match m.1
    case Leaf(v, _) =>
    case Group(cs) =>
      LeavesShape(cs);
      forall f | f in MemberLeaves(m)
        ensures f.path != [] && f.path[0] == m.0 && forall k :: k in f.path ==> GoodKey(k)
      {
        var i :| 0 <= i < |Leaves(cs)| && f == Under(m.0, Leaves(cs))[i];
        assert Leaves(cs)[i] in Leaves(cs);
      }
    case Scalar(_) =>
  }

  /** Under good keys, distinct tokens are found at distinct paths. */
  lemma {:induction false} PathsDistinct(ms: seq<(string, Node)>)
    requires WellKeyed(ms)
    ensures forall i, j :: 0 <= i < j < |Leaves(ms)| ==> Leaves(ms)[i].path != Leaves(ms)[j].path
    decreases ms
  {
    if ms != [] {
      var head: seq<Found>, tail: seq<Found> := MemberLeaves(ms[0]), Leaves(ms[1..]);
      assert Leaves(ms) == head + tail;
      MemberPathsDistinct(ms[0]);
      PathsDistinct(ms[1..]);
      MemberLeavesShape(ms[0]);
      LeavesShape(ms[1..]);
      assert ms[0].0 !in Keys(ms[1..]);
      forall i, j | 0 <= i < j < |head + tail| ensures (head + tail)[i].path != (head + tail)[j].path {
        if j < |head| {
        } else if i < |head| {
          assert head[i] in head;
          assert tail[j - |head|] in tail;
        } else {
          assert (head + tail)[i] == tail[i - |head|];
        }
      }
    }
  }

  lemma {:induction false} MemberPathsDistinct(m: (string, Node))
    requires MemberWellKeyed(m)
    ensures forall i, j :: 0 <= i < j < |MemberLeaves(m)| ==> MemberLeaves(m)[i].path != MemberLeaves(m)[j].path
    decreases m
  {
    match m.1
    case Leaf(v, _) =>
    case Group(cs) =>
      PathsDistinct(cs);
      var fs := Leaves(cs);
      forall i, j | 0 <= i < j < |fs| ensures Under(m.0, fs)[i].path != Under(m.0, fs)[j].path {
        assert ([m.0] + fs[i].path)[1..] == fs[i].path;
        assert ([m.0] + fs[j].path)[1..] == fs[j].path;
      }
    case Scalar(_) =>
  }

  /** Joining good keys with "-" loses nothing: the keys can be read back. */
  lemma {:induction false} JoinInjective(a: seq<string>, b: seq<string>)
    requires a != [] && b != []
    requires forall k :: k in a ==> GoodKey(k)
    requires forall k :: k in b ==> GoodKey(k)
    requires JoinHyphen(a) == JoinHyphen(b)
    ensures a == b
    decreases a
  {
    assert a[0] in a && b[0] in b;
    if |a| == 1 && |b| == 1 {
    } else if |a| == 1 {
      HyphenAfterFirst(b);
    } else if |b| == 1 {
      HyphenAfterFirst(a);
    } else {
      var ja, jb := JoinHyphen(a), JoinHyphen(b);
      assert ja == a[0] + "-" + JoinHyphen(a[1..]);
      assert jb == b[0] + "-" + JoinHyphen(b[1..]);
      assert |a[0]| == |b[0]| by {
        if |a[0]| < |b[0]| {
          HyphenAfterFirst(a);
          assert false;
        } else if |b[0]| < |a[0]| {
          HyphenAfterFirst(b);
          assert false;
        }
      }
      assert a[0] == ja[..|a[0]|] == jb[..|b[0]|] == b[0];
      assert JoinHyphen(a[1..]) == ja[|a[0]| + 1..] == jb[|b[0]| + 1..] == JoinHyphen(b[1..]);
      forall k | k in a[1..] ensures GoodKey(k) { assert k in a; }
      forall k | k in b[1..] ensures GoodKey(k) { assert k in b; }
      JoinInjective(a[1..], b[1..]);
      assert a == [a[0]] + a[1..] && b == [b[0]] + b[1..];
    }
  }

  /** Joining two or more keys puts a "-" right after the first. */
  lemma HyphenAfterFirst(keys: seq<string>)
    requires |keys| > 1
    ensures |JoinHyphen(keys)| > |keys[0]| && JoinHyphen(keys)[|keys[0]|] == '-'
  {
    assert JoinHyphen(keys) == keys[0] + "-" + JoinHyphen(keys[1..]);
  }

  /** The uniqueness the design promises: when every key is good, no two
      tokens of a section share a custom-property name. */
  lemma DistinctNames(root: Node, prefix: string)
    requires WellKeyed(Members(root))
    ensures forall i, j :: 0 <= i < j < |Leaves(Members(root))| ==>
      TokenName(prefix, Leaves(Members(root))[i].path) != TokenName(prefix, Leaves(Members(root))[j].path)
  {
    var fs := Leaves(Members(root));
    PathsDistinct(Members(root));
    LeavesShape(Members(root));
    forall i, j | 0 <= i < j < |fs| ensures TokenName(prefix, fs[i].path) != TokenName(prefix, fs[j].path) {
      var p, q := fs[i].path, fs[j].path;
      assert fs[i] in fs && fs[j] in fs;
      assert p[0] in p && q[0] in q;
      assert DropLeadingEmpty(p) == p && DropLeadingEmpty(q) == q;
      if TokenName(prefix, p) == TokenName(prefix, q) {
        var n := |"--" + prefix + "-"|;
        assert JoinHyphen(p) == TokenName(prefix, p)[n..];
        assert JoinHyphen(q) == TokenName(prefix, q)[n..];
        JoinInjective(p, q);
      }
    }
  }

  /** Without good keys the promise fails: a token keyed "a-b" and a token
      "b" inside a group "a" are both named "--<prefix>-a-b". */
  lemma HyphenatedKeysCollide(prefix: string, v: string, w: string)
    ensures var lines := Flatten(Group([("a-b", Leaf(v, [])), ("a", Group([("b", Leaf(w, []))]))]), prefix, "");
      lines == [Declaration("--" + prefix + "-a-b", v), Declaration("--" + prefix + "-a-b", w)]
  {
    var inner := [("b", Leaf(w, []))];
    assert FlattenMembers(inner, prefix, "a") == [Declaration("--" + prefix + "-a-b", w)] by {
      assert inner[1..] == [];
      assert VarName(prefix, "a", "b") == "--" + prefix + "-" + "a" + "-" + "b";
      assert "--" + prefix + "-" + "a" + "-" + "b" == "--" + prefix + "-a-b";
    }
    var ms := [("a-b", Leaf(v, [])), ("a", Group(inner))];
    assert ms[1..][1..] == [];
    assert VarName(prefix, "", "a-b") == "--" + prefix + "-a-b";
    assert FlattenMember(ms[0], prefix, "") == [Declaration("--" + prefix + "-a-b", v)];
    assert FlattenMembers(ms[1..], prefix, "") == [Declaration("--" + prefix + "-a-b", w)];
  }
}
