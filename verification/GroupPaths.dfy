/** Resolving the model's group hierarchy.

    Groups name their subgroups; a group's path is its parent's path and its own label; a scalar
    belongs at the longest common prefix of the paths of the groups that reference it. An empty
    parent name counts as no parent, as in the source. */
module GroupPaths {

  import opened Asap2Blocks
  import opened Common

  type Path = seq<string>

  datatype Kind = Measurement | Characteristic

  datatype Key = Key(kind: Kind, scalar: string)

  datatype Problem = TruncatedGroup | DuplicateGroup | MultipleParents | CyclicHierarchy | UnknownParent

  type Verdict<T> = Result<T, Problem>

  datatype Hierarchy = Hierarchy(groups: map<string, Block>, parents: map<string, string>)

  const MODEL_GROUP := "SIMRT_ModelHierarchy_"

  predicate IsModelGroup(name: string) {
    && |name| > |MODEL_GROUP| && name[..|MODEL_GROUP|] == MODEL_GROUP
    && forall i :: |MODEL_GROUP| <= i < |name| ==> '0' <= name[i] <= '9'
  }

  predicate IsGroup(block: Block) { block.kind == "GROUP" }

  predicate Named(block: Block, name: string) { IsGroup(block) && |block.tokens| >= 2 && block.tokens[0] == name }

  predicate IsReference(kind: string) { kind == "REF_MEASUREMENT" || kind == "REF_CHARACTERISTIC" }

  function KindOf(kind: string): Kind { if kind == "REF_MEASUREMENT" then Measurement else Characteristic }

  predicate Cites(child: Block, key: Key) {
    IsReference(child.kind) && KindOf(child.kind) == key.kind && key.scalar in child.tokens
  }

  /** A group with these child blocks references the scalar. */
  predicate Refers(children: seq<Block>, key: Key) { exists c :: c in children && Cites(c, key) }

  /** A group with these child blocks names the subgroup. */
  predicate Lists(children: seq<Block>, sub: string) {
    exists c :: c in children && c.kind == "SUB_GROUP" && sub in c.tokens
  }

  // ----- what makes a set of groups acceptable

  ghost predicate Complete(blocks: seq<Block>) {
    forall b :: b in blocks && IsGroup(b) ==> |b.tokens| >= 2
  }

  ghost predicate NamesDiffer(blocks: seq<Block>) {
    forall i, j, name :: 0 <= i < j < |blocks| && Named(blocks[i], name) ==> !Named(blocks[j], name)
  }

  ghost predicate OneParentEach(blocks: seq<Block>) {
    forall a, b, x, y, sub {:trigger Named(a, x), Named(b, y), Lists(a.children, sub), Lists(b.children, sub)} ::
      a in blocks && b in blocks && Named(a, x) && Named(b, y) && Lists(a.children, sub) && Lists(b.children, sub) ==> x == y
  }

  ghost predicate WellFormed(blocks: seq<Block>) { Complete(blocks) && NamesDiffer(blocks) && OneParentEach(blocks) }

  /** The hierarchy holds exactly the groups among `blocks` and exactly the parents they give. */
  ghost predicate Describes(h: Hierarchy, blocks: seq<Block>) {
    && (forall b, name :: b in blocks && Named(b, name) ==> name in h.groups && h.groups[name] == b)
    && (forall name :: name in h.groups ==> h.groups[name] in blocks && Named(h.groups[name], name))
    && (forall name, sub :: name in h.groups && Lists(h.groups[name].children, sub) ==>
      sub in h.parents && h.parents[sub] == name)
    && (forall sub :: sub in h.parents ==>
      h.parents[sub] in h.groups && Lists(h.groups[h.parents[sub]].children, sub))
  }

  // ----- ancestors and paths

  function Label(h: Hierarchy, name: string): string
    requires name in h.groups
  {
    if IsModelGroup(name) && |h.groups[name].tokens| >= 2 then h.groups[name].tokens[1] else name
  }

  predicate HasParent(h: Hierarchy, name: string) { name in h.parents && h.parents[name] != "" }

  /** The group `n` parents above, if the chain is that long. */
  ghost predicate Above(h: Hierarchy, name: string, n: nat, ancestor: string)
    decreases n
  {
    if n == 0 then name == ancestor
    else name in h.parents && Above(h, h.parents[name], n - 1, ancestor)
  }

  /** The nearest `n` ancestors all have a name that is not empty. */
  ghost predicate AllNamed(h: Hierarchy, name: string, n: nat)
    decreases n
  {
    n == 0 || (HasParent(h, name) && AllNamed(h, h.parents[name], n - 1))
  }

  /** The group is its own ancestor. */
  ghost predicate Cycle(h: Hierarchy, name: string) { exists n: nat :: n > 0 && Above(h, name, n, name) }

  /** It is, and no group on that cycle has an empty name. */
  ghost predicate NamedCycle(h: Hierarchy, name: string) {
    exists n: nat :: n > 0 && Above(h, name, n, name) && AllNamed(h, name, n)
  }

  ghost predicate Cyclic(h: Hierarchy) { exists name :: name in h.groups && Cycle(h, name) }

  ghost predicate NamedCyclic(h: Hierarchy) { exists name :: name in h.groups && NamedCycle(h, name) }

  /** What the resolver follows: `n` parents, none of them with an empty name. */
  ghost predicate Climbs(h: Hierarchy, name: string, n: nat, ancestor: string)
    decreases n
  {
    if n == 0 then name == ancestor
    else HasParent(h, name) && Climbs(h, h.parents[name], n - 1, ancestor)
  }

  lemma {:induction false} ClimbsNamed(h: Hierarchy, name: string, n: nat, ancestor: string)
    ensures Climbs(h, name, n, ancestor) <==> Above(h, name, n, ancestor) && AllNamed(h, name, n)
    decreases n
  {
    if n > 0 && HasParent(h, name) { ClimbsNamed(h, h.parents[name], n - 1, ancestor); }
  }

  lemma NamedCycleClimbs(h: Hierarchy, name: string)
    ensures NamedCycle(h, name) <==> exists n: nat :: n > 0 && Climbs(h, name, n, name)
  {
    if n: nat :| n > 0 && Climbs(h, name, n, name) {
      ClimbsNamed(h, name, n, name);
      assert Above(h, name, n, name) && AllNamed(h, name, n);
    }
    if NamedCycle(h, name) {
      var n: nat :| n > 0 && Above(h, name, n, name) && AllNamed(h, name, n);
      ClimbsNamed(h, name, n, name);
    }
  }

  /** Without a group of empty name every cycle is one the resolver refuses. */
  lemma CyclesAreNamed(h: Hierarchy)
    requires "" !in h.groups && forall sub :: sub in h.parents ==> h.parents[sub] in h.groups
    ensures Cyclic(h) <==> NamedCyclic(h)
  {
    forall name, n: nat | Above(h, name, n, name)
      ensures AllNamed(h, name, n)
    {
      ChainIsNamed(h, name, n, name);
    }
  }

  lemma {:induction false} ChainIsNamed(h: Hierarchy, name: string, n: nat, ancestor: string)
    requires "" !in h.groups && forall sub :: sub in h.parents ==> h.parents[sub] in h.groups
    requires Above(h, name, n, ancestor)
    ensures AllNamed(h, name, n)
    decreases n
  {
    if n > 0 { ChainIsNamed(h, h.parents[name], n - 1, ancestor); }
  }

  /** `path` is the parent's path and the group's own label. */
  ghost predicate IsPath(h: Hierarchy, name: string, path: Path)
    decreases |path|
  {
    && path != [] && name in h.groups && path[|path|-1] == Label(h, name)
    && if HasParent(h, name) then IsPath(h, h.parents[name], path[..|path|-1]) else |path| == 1
  }

  /** The last step of a path is the title of a group that the model itself wrote, numbered behind a
      fixed prefix, and the name of any other group. */
  lemma PathEndsWith(h: Hierarchy, name: string, path: Path, number: string)
    requires IsPath(h, name, path) && |h.groups[name].tokens| >= 2
    ensures name == "SIMRT_ModelHierarchy_" + number && number != "" && Digits(number) ==> path[|path|-1] == h.groups[name].tokens[1]
    ensures (forall n :: n != "" && Digits(n) ==> name != "SIMRT_ModelHierarchy_" + n) ==> path[|path|-1] == name
  {
    if name == MODEL_GROUP + number && number != "" && Digits(number) {
      assert forall i :: |MODEL_GROUP| <= i < |name| ==> name[i] == number[i - |MODEL_GROUP|];
    }
    if IsModelGroup(name) {
      var n := name[|MODEL_GROUP|..];
      assert name == MODEL_GROUP + n && Digits(n);
    }
  }

  predicate Digits(s: string) { forall i :: 0 <= i < |s| ==> '0' <= s[i] <= '9' }

  /** A reference block cites the scalars it lists, as what its kind says. */
  lemma CitesIff(child: Block, scalar: string)
    ensures Cites(child, Key(Measurement, scalar)) <==> child.kind == "REF_MEASUREMENT" && scalar in child.tokens
    ensures Cites(child, Key(Characteristic, scalar)) <==> child.kind == "REF_CHARACTERISTIC" && scalar in child.tokens
  {
    assert "REF_MEASUREMENT"[4] != "REF_CHARACTERISTIC"[4];
  }

  ghost predicate HasPath(h: Hierarchy, name: string) { exists path :: IsPath(h, name, path) }

  lemma {:induction false} PathIsUnique(h: Hierarchy, name: string, p: Path, q: Path)
    requires IsPath(h, name, p) && IsPath(h, name, q)
    ensures p == q
    decreases |p|
  {
    if HasParent(h, name) { PathIsUnique(h, h.parents[name], p[..|p|-1], q[..|q|-1]); }
    assert p == p[..|p|-1] + [p[|p|-1]] && q == q[..|q|-1] + [q[|q|-1]];
  }

  /** A group with a path is below fewer groups than the path is long. */
  lemma {:induction false} PathEndsChain(h: Hierarchy, name: string, path: Path, n: nat, ancestor: string)
    requires IsPath(h, name, path) && Climbs(h, name, n, ancestor)
    ensures n < |path|
    decreases n
  {
    if n > 0 { PathEndsChain(h, h.parents[name], path[..|path|-1], n - 1, ancestor); }
  }

  lemma {:induction false} ClimbsOn(h: Hierarchy, a: string, n: nat, b: string, m: nat, c: string)
    requires Climbs(h, a, n, b) && Climbs(h, b, m, c)
    ensures Climbs(h, a, n + m, c)
    decreases n
  {
    if n > 0 { ClimbsOn(h, h.parents[a], n - 1, b, m, c); }
  }

  lemma {:induction false} CycleRepeats(h: Hierarchy, name: string, n: nat, times: nat)
    requires n > 0 && Climbs(h, name, n, name)
    ensures exists m: nat :: m >= times && Climbs(h, name, m, name)
    decreases times
  {
    if times == 0 {
      assert Climbs(h, name, 0, name);
    } else {
      CycleRepeats(h, name, n, times - 1);
      var m: nat :| m >= times - 1 && Climbs(h, name, m, name);
      ClimbsOn(h, name, n, name, m, name);
    }
  }

  /** No group on a cycle has a path. */
  lemma PathMeansNoCycle(h: Hierarchy, name: string, path: Path)
    requires IsPath(h, name, path)
    ensures !NamedCycle(h, name)
  {
    NamedCycleClimbs(h, name);
    if NamedCycle(h, name) {
      var n: nat :| n > 0 && Climbs(h, name, n, name);
      CycleRepeats(h, name, n, |path|);
      var m: nat :| m >= |path| && Climbs(h, name, m, name);
      PathEndsChain(h, name, path, m, name);
    }
  }

  /** A listed group's path extends the path of the group that lists it exactly when that group's
      name is not empty. */
  lemma ExtendsParentIffNamed(h: Hierarchy, name: string, p: Path, q: Path)
    requires name in h.parents && IsPath(h, name, p) && IsPath(h, h.parents[name], q)
    ensures p == q + [Label(h, name)] <==> h.parents[name] != ""
  {
    if HasParent(h, name) {
      PathIsUnique(h, h.parents[name], p[..|p|-1], q);
      assert p == p[..|p|-1] + [p[|p|-1]];
    } else {
      assert |p| == 1 < |q + [Label(h, name)]|;
    }
  }

  /** A file whose second group is a subgroup of one with an empty name: it is accepted, and the
      subgroup is placed at the top. */
  lemma EmptyNameIsNoParent()
    ensures
      var blocks := [Block("GROUP", ["", "Car"], [Block("SUB_GROUP", ["Wheel"], [])]), Block("GROUP", ["Wheel", "Wheel"], [])];
      var h := Hierarchy(map["" := blocks[0], "Wheel" := blocks[1]], map["Wheel" := ""]);
      && WellFormed(blocks) && Describes(h, blocks) && !NamedCyclic(h)
      && IsPath(h, "Wheel", ["Wheel"]) && IsPath(h, "", [""]) && h.parents["Wheel"] == ""
  {
    var child := Block("SUB_GROUP", ["Wheel"], []);
    var blocks := [Block("GROUP", ["", "Car"], [child]), Block("GROUP", ["Wheel", "Wheel"], [])];
    var h := Hierarchy(map["" := blocks[0], "Wheel" := blocks[1]], map["Wheel" := ""]);
    assert !IsModelGroup("Wheel") && !IsModelGroup("");
    assert blocks[0].children == [child] && child in blocks[0].children && blocks[0] in blocks && blocks[1] in blocks;
    assert forall sub :: Lists(blocks[0].children, sub) <==> sub == "Wheel";
    assert forall sub :: !Lists(blocks[1].children, sub);
    assert Describes(h, blocks);
    assert WellFormed(blocks);
    NamelessIsAcyclic(h);
  }

  /** A file with one group that lists itself under its empty name: a cycle, and accepted. */
  lemma EmptyNameHidesCycle()
    ensures
      var blocks := [Block("GROUP", ["", "Car"], [Block("SUB_GROUP", [""], [])])];
      var h := Hierarchy(map["" := blocks[0]], map["" := ""]);
      WellFormed(blocks) && Describes(h, blocks) && Cyclic(h) && !NamedCyclic(h)
  {
    var child := Block("SUB_GROUP", [""], []);
    var blocks := [Block("GROUP", ["", "Car"], [child])];
    var h := Hierarchy(map["" := blocks[0]], map["" := ""]);
    assert blocks[0].children == [child] && child in blocks[0].children && blocks[0] in blocks;
    assert forall sub :: Lists(blocks[0].children, sub) <==> sub == "";
    assert Describes(h, blocks) && WellFormed(blocks);
    assert Above(h, "", 0, "") && Above(h, "", 1, "");
    NamelessIsAcyclic(h);
  }

  lemma NamelessIsAcyclic(h: Hierarchy)
    requires forall sub :: sub in h.parents ==> h.parents[sub] == ""
    ensures !NamedCyclic(h)
  {
    forall name, n: nat | n > 0
      ensures !AllNamed(h, name, n)
    {
      assert !HasParent(h, name);
    }
  }

  ghost predicate PathsOk(h: Hierarchy, paths: map<string, Path>) {
    forall name :: name in paths ==> IsPath(h, name, paths[name])
  }

  /** Every group being resolved is below the one at hand. */
  ghost predicate Below(h: Hierarchy, visiting: set<string>, name: string) {
    forall v :: v in visiting ==> v in h.groups && exists n: nat :: n > 0 && Climbs(h, v, n, name)
  }

  /** A group met again while it is being resolved is on a cycle. */
  lemma MetAgain(h: Hierarchy, visiting: set<string>, name: string)
    requires Below(h, visiting, name) && name in visiting
    ensures NamedCyclic(h)
  {
    var n: nat :| n > 0 && Climbs(h, name, n, name);
    ClimbsNamed(h, name, n, name);
    assert Above(h, name, n, name) && AllNamed(h, name, n);
    assert NamedCycle(h, name);
  }

  /** The parent of the group at hand is above everything being resolved, the group included. */
  lemma BelowParent(h: Hierarchy, visiting: set<string>, name: string)
    requires Below(h, visiting, name) && name in h.groups && HasParent(h, name)
    ensures Below(h, visiting + {name}, h.parents[name])
  {
    var up := h.parents[name];
    assert Climbs(h, up, 0, up) && Climbs(h, name, 1, up);
    forall v | v in visiting
      ensures exists n: nat :: n > 0 && Climbs(h, v, n, up)
    {
      var n: nat :| n > 0 && Climbs(h, v, n, name);
      ClimbsOn(h, v, n, name, 1, up);
    }
  }

  /** The memoised recursion: it ends on every hierarchy, answers with the path, and refuses
      only what has no path. */
  method PathFor(h: Hierarchy, name: string, visiting: set<string>, known: map<string, Path>)
    returns (r: Verdict<Path>, paths: map<string, Path>)
    requires name in h.groups && PathsOk(h, known) && Below(h, visiting, name)
    ensures PathsOk(h, paths)
    ensures forall n :: n in known ==> n in paths && paths[n] == known[n]
    ensures r.Ok? ==> name in paths && paths[name] == r.value
    ensures r.Err? ==> r.error == CyclicHierarchy || r.error == UnknownParent
    ensures r.Err? && r.error == CyclicHierarchy ==> NamedCyclic(h)
    ensures r.Err? && r.error == UnknownParent ==>
      exists n :: n in h.parents && h.parents[n] !in h.groups
    decreases h.groups.Keys - visiting
  {
    hide Label, IsModelGroup, NamedCyclic;
    paths := known;
    if name in paths { return Ok(paths[name]), paths; }
    if name in visiting {
      MetAgain(h, visiting, name);
      return Err(CyclicHierarchy), paths;
    }
    var prefix := [];
    if HasParent(h, name) {
      if h.parents[name] !in h.groups { return Err(UnknownParent), paths; }
      BelowParent(h, visiting, name);
      r, paths := PathFor(h, h.parents[name], visiting + {name}, paths);
      if r.Err? { return; }
      prefix := r.value;
    }
    var path := prefix + [Label(h, name)];
    assert path[..|path|-1] == prefix;
    assert IsPath(h, name, path);
    KnownIsPath(h, name, path, paths);
    paths := paths[name := path];
    r := Ok(path);
  }

  lemma KnownIsPath(h: Hierarchy, name: string, path: Path, paths: map<string, Path>)
    requires IsPath(h, name, path) && PathsOk(h, paths)
    ensures PathsOk(h, paths[name := path])
    ensures name in paths ==> paths[name] == path
  {
    if name in paths { PathIsUnique(h, name, path, paths[name]); }
  }

  lemma {:induction false} ClimbsOrCycles(h: Hierarchy, name: string, visiting: set<string>)
    requires name in h.groups && Below(h, visiting, name) && !NamedCyclic(h)
    requires forall sub :: sub in h.parents ==> h.parents[sub] in h.groups
    ensures HasPath(h, name)
    decreases h.groups.Keys - visiting
  {
    if name in visiting {
      MetAgain(h, visiting, name);
      assert false;
    }
    var prefix := [];
    if HasParent(h, name) {
      BelowParent(h, visiting, name);
      ClimbsOrCycles(h, h.parents[name], visiting + {name});
      prefix :| IsPath(h, h.parents[name], prefix);
    }
    var path := prefix + [Label(h, name)];
    assert path[..|path|-1] == prefix;
    assert IsPath(h, name, path);
  }

  /** Every group has a path exactly when each cycle of parents passes through an empty name. */
  lemma PathsIffAcyclic(h: Hierarchy)
    requires forall sub :: sub in h.parents ==> h.parents[sub] in h.groups
    ensures (forall name :: name in h.groups ==> HasPath(h, name)) <==> !NamedCyclic(h)
  {
    if NamedCyclic(h) {
      var name :| name in h.groups && NamedCycle(h, name);
      forall path | IsPath(h, name, path)
        ensures false
      {
        PathMeansNoCycle(h, name, path);
      }
    } else {
      forall name | name in h.groups
        ensures HasPath(h, name)
      {
        ClimbsOrCycles(h, name, {});
      }
    }
  }

  // ----- gathering the groups

  method AdoptAll(tokens: seq<string>, name: string, before: map<string, string>) returns (r: Verdict<map<string, string>>)
    ensures r.Ok? ==>
      && (forall sub :: sub in r.value <==> sub in before || sub in tokens)
      && (forall sub :: sub in before ==> r.value[sub] == before[sub])
      && (forall sub :: sub in tokens ==> r.value[sub] == name)
    ensures r.Err? ==> r.error == MultipleParents && exists sub :: sub in before && sub in tokens && before[sub] != name
  {
    var parents := before;
    for i := 0 to |tokens|
      invariant forall sub :: sub in parents <==> sub in before || sub in tokens[..i]
      invariant forall sub :: sub in before ==> parents[sub] == before[sub]
      invariant forall sub :: sub in tokens[..i] ==> parents[sub] == name
    {
      var sub := tokens[i];
      assert sub in tokens && tokens[..i + 1] == tokens[..i] + [sub];
      if sub in parents && parents[sub] != name { return Err(MultipleParents); }
      parents := parents[sub := name];
    }
    assert tokens[..|tokens|] == tokens;
    r := Ok(parents);
  }

  ghost predicate Adopted(before: map<string, string>, after: map<string, string>, name: string, children: seq<Block>) {
    && (forall sub :: sub in after <==> sub in before || Lists(children, sub))
    && (forall sub :: sub in before ==> sub in after && after[sub] == before[sub])
    && (forall sub :: Lists(children, sub) ==> after[sub] == name)
  }

  lemma ListsOneMore(children: seq<Block>, child: Block, sub: string)
    ensures Lists(children + [child], sub) <==> Lists(children, sub) || (child.kind == "SUB_GROUP" && sub in child.tokens)
  {
    assert forall c :: c in children ==> c in children + [child];
    assert child in children + [child];
  }

  method AdoptChildren(children: seq<Block>, name: string, before: map<string, string>) returns (r: Verdict<map<string, string>>)
    ensures r.Ok? ==> Adopted(before, r.value, name, children)
    ensures r.Err? ==> r.error == MultipleParents && exists sub :: sub in before && Lists(children, sub) && before[sub] != name
  {
    var parents := before;
    for i := 0 to |children|
      invariant Adopted(before, parents, name, children[..i])
    {
      var child := children[i];
      assert children[..i + 1] == children[..i] + [child];
      forall sub ensures Lists(children[..i + 1], sub) <==> Lists(children[..i], sub) || (child.kind == "SUB_GROUP" && sub in child.tokens) {
        ListsOneMore(children[..i], child, sub);
      }
      if child.kind == "SUB_GROUP" {
        var more := AdoptAll(child.tokens, name, parents);
        if more.Err? {
          assert forall sub :: sub in child.tokens ==> Lists(children, sub);
          return Err(more.error);
        }
        parents := more.value;
      }
    }
    assert children[..|children|] == children;
    r := Ok(parents);
  }

  /** One more block that is no group changes nothing. */
  lemma NoGroup(h: Hierarchy, blocks: seq<Block>, block: Block)
    requires Describes(h, blocks) && WellFormed(blocks) && !IsGroup(block)
    ensures Describes(h, blocks + [block]) && WellFormed(blocks + [block])
  {
    assert forall b :: b in blocks + [block] && IsGroup(b) ==> b in blocks;
  }

  lemma OneMoreGroup(h: Hierarchy, blocks: seq<Block>, block: Block, name: string, parents: map<string, string>)
    requires Describes(h, blocks) && WellFormed(blocks) && Named(block, name) && name !in h.groups
    requires Adopted(h.parents, parents, name, block.children)
    ensures Describes(Hierarchy(h.groups[name := block], parents), blocks + [block])
    ensures WellFormed(blocks + [block])
  {
    hide Lists, OneParentEach;
    var more := Hierarchy(h.groups[name := block], parents);
    assert Describes(more, blocks + [block]);
    hide Adopted;
    OneParentMore(more, blocks + [block]);
    assert NamesDiffer(blocks + [block]) by { NewName(h, blocks, block, name); }
  }

  lemma NewName(h: Hierarchy, blocks: seq<Block>, block: Block, name: string)
    requires Describes(h, blocks) && NamesDiffer(blocks) && Named(block, name) && name !in h.groups
    ensures NamesDiffer(blocks + [block])
  {
    hide Lists;
    forall i, j, other | 0 <= i < j < |blocks| + 1 && Named((blocks + [block])[i], other)
      ensures !Named((blocks + [block])[j], other)
    {
      assert blocks[i] in blocks;
    }
  }

  lemma OneParentMore(h: Hierarchy, blocks: seq<Block>)
    requires Describes(h, blocks)
    ensures OneParentEach(blocks)
  {
    forall a, b, x, y, sub |
      a in blocks && b in blocks && Named(a, x) && Named(b, y) && Lists(a.children, sub) && Lists(b.children, sub)
      ensures x == y
    {
      assert h.groups[x] == a && h.groups[y] == b;
      assert Lists(h.groups[x].children, sub) && Lists(h.groups[y].children, sub);
      assert sub in h.parents && h.parents[sub] == x && h.parents[sub] == y;
    }
  }

  /** The first loop of the resolver. */
  method Gather(blocks: seq<Block>) returns (r: Verdict<Hierarchy>, names: seq<string>)
    ensures r.Ok? <==> WellFormed(blocks)
    ensures r.Ok? ==> Describes(r.value, blocks) && forall name :: name in names <==> name in r.value.groups
    ensures r.Err? && r.error == TruncatedGroup ==> !Complete(blocks)
    ensures r.Err? && r.error == DuplicateGroup ==> !NamesDiffer(blocks)
    ensures r.Err? && r.error == MultipleParents ==> !OneParentEach(blocks)
    ensures r.Err? ==> r.error == TruncatedGroup || r.error == DuplicateGroup || r.error == MultipleParents
  {
    hide Adopted, WellFormed, Describes, NamesDiffer, OneParentEach, Complete;
    var h := Hierarchy(map[], map[]);
    names := [];
    EmptyIsDescribed();
    for i := 0 to |blocks|
      invariant Describes(h, blocks[..i]) && WellFormed(blocks[..i])
      invariant forall name :: name in names <==> name in h.groups
    {
      var block := blocks[i];
      assert blocks[..i + 1] == blocks[..i] + [block];
      if !IsGroup(block) {
        NoGroup(h, blocks[..i], block);
      } else {
        if |block.tokens| < 2 {
          NotComplete(blocks, block);
          return Err(TruncatedGroup), names;
        }
        var name := block.tokens[0];
        if name in h.groups {
          SameName(h, blocks, i, name);
          return Err(DuplicateGroup), names;
        }
        var parents := AdoptChildren(block.children, name, h.parents);
        if parents.Err? {
          var sub :| sub in h.parents && Lists(block.children, sub) && h.parents[sub] != name;
          TwoParents(h, blocks, i, name, sub);
          return Err(MultipleParents), names;
        }
        OneMoreGroup(h, blocks[..i], block, name, parents.value);
        h := Hierarchy(h.groups[name := block], parents.value);
        names := names + [name];
      }
    }
    assert blocks[..|blocks|] == blocks;
    r := Ok(h);
  }

  lemma EmptyIsDescribed()
    ensures Describes(Hierarchy(map[], map[]), []) && WellFormed([])
  {
  }

  lemma NotComplete(blocks: seq<Block>, block: Block)
    requires block in blocks && IsGroup(block) && |block.tokens| < 2
    ensures !Complete(blocks) && !WellFormed(blocks)
  {
  }

  lemma SameName(h: Hierarchy, blocks: seq<Block>, i: nat, name: string)
    requires i < |blocks| && Describes(h, blocks[..i]) && Named(blocks[i], name) && name in h.groups
    ensures !NamesDiffer(blocks) && !WellFormed(blocks)
  {
    var k :| 0 <= k < i && blocks[..i][k] == h.groups[name];
    assert Named(blocks[k], name);
  }

  lemma TwoParents(h: Hierarchy, blocks: seq<Block>, i: nat, name: string, sub: string)
    requires i < |blocks| && Describes(h, blocks[..i]) && Named(blocks[i], name)
    requires sub in h.parents && Lists(blocks[i].children, sub) && h.parents[sub] != name
    ensures !OneParentEach(blocks) && !WellFormed(blocks)
  {
    var other := h.groups[h.parents[sub]];
    assert other in blocks[..i] && other in blocks && Named(other, h.parents[sub]);
    assert blocks[i] in blocks;
  }

  // ----- where a scalar belongs

  type Citation = (Key, Path)

  predicate Starts(q: Path, p: Path) { q <= p }

  /** `common` is the longest prefix of both. */
  ghost predicate IsCommon(common: Path, a: Path, b: Path) {
    common <= a && common <= b && forall q :: Starts(q, a) && Starts(q, b) ==> q <= common
  }

  /** `q` is a prefix of every path the scalar is cited at. */
  ghost predicate Shared(cited: iset<Citation>, key: Key, q: Path) {
    forall p {:trigger (key, p) in cited} :: (key, p) in cited ==> q <= p
  }

  /** Exactly the cited scalars have a place: the longest path shared by all their citations. */
  ghost predicate Placed(cited: iset<Citation>, members: map<Key, Path>) {
    && (forall key :: key in members <==> exists p :: (key, p) in cited)
    && (forall key :: key in members ==> Shared(cited, key, members[key]))
    && (forall key, q {:trigger Shared(cited, key, q)} :: key in members && Shared(cited, key, q) ==> q <= members[key])
  }

  /** The loop that narrows a place to the common ancestor. */
  method CommonPrefix(previous: Path, path: Path) returns (common: Path)
    ensures IsCommon(common, previous, path)
  {
    var length := 0;
    while length < |previous| && length < |path| && previous[length] == path[length]
      invariant length <= |previous| && length <= |path| && previous[..length] == path[..length]
    {
      length := length + 1;
    }
    common := previous[..length];
    forall q | Starts(q, previous) && Starts(q, path)
      ensures q <= common
    {
      assert forall k :: 0 <= k < |q| ==> q[k] == previous[k] && q[k] == path[k];
    }
  }

  lemma FirstCitation(cited: iset<Citation>, members: map<Key, Path>, key: Key, path: Path)
    requires Placed(cited, members) && key !in members
    ensures Placed(cited + iset{(key, path)}, members[key := path])
  {
    var more := cited + iset{(key, path)};
    assert (key, path) in more;
    forall k, q | k in members && Shared(more, k, q)
      ensures q <= members[k]
    {
      assert Shared(cited, k, q);
    }
  }

  lemma NextCitation(cited: iset<Citation>, members: map<Key, Path>, key: Key, path: Path, common: Path)
    requires Placed(cited, members) && key in members
    requires IsCommon(common, members[key], path)
    ensures Placed(cited + iset{(key, path)}, members[key := common])
  {
    var more := cited + iset{(key, path)};
    assert (key, path) in more;
    assert forall p :: (key, p) in cited ==> common <= members[key] <= p;
    forall k, q | k in members && Shared(more, k, q)
      ensures q <= members[key := common][k]
    {
      assert Shared(cited, k, q);
      if k == key { assert Starts(q, members[key]) && Starts(q, path); }
    }
  }

  method PlaceAll(kind: Kind, tokens: seq<string>, path: Path, before: map<Key, Path>, ghost cited: iset<Citation>)
    returns (members: map<Key, Path>, ghost more: iset<Citation>)
    requires Placed(cited, before)
    ensures Placed(more, members)
    ensures forall k, p :: (k, p) in more <==> (k, p) in cited || (p == path && k.kind == kind && k.scalar in tokens)
  {
    hide Placed;
    members, more := before, cited;
    for i := 0 to |tokens|
      invariant Placed(more, members)
      invariant forall k, p :: (k, p) in more <==> (k, p) in cited || (p == path && k.kind == kind && k.scalar in tokens[..i])
    {
      var key := Key(kind, tokens[i]);
      assert tokens[..i + 1] == tokens[..i] + [tokens[i]];
      if key !in members {
        FirstCitation(more, members, key, path);
        members := members[key := path];
      } else {
        var common := CommonPrefix(members[key], path);
        NextCitation(more, members, key, path, common);
        members := members[key := common];
      }
      more := more + iset{(key, path)};
    }
    assert tokens[..|tokens|] == tokens;
  }

  lemma RefersOneMore(children: seq<Block>, child: Block, key: Key)
    ensures Refers(children + [child], key) <==> Refers(children, key) || Cites(child, key)
  {
    assert forall c :: c in children ==> c in children + [child];
    assert child in children + [child];
  }

  method PlaceGroup(children: seq<Block>, path: Path, before: map<Key, Path>, ghost cited: iset<Citation>)
    returns (members: map<Key, Path>, ghost more: iset<Citation>)
    requires Placed(cited, before)
    ensures Placed(more, members)
    ensures forall k, p :: (k, p) in more <==> (k, p) in cited || (p == path && Refers(children, k))
  {
    hide Placed;
    members, more := before, cited;
    for i := 0 to |children|
      invariant Placed(more, members)
      invariant forall k, p :: (k, p) in more <==> (k, p) in cited || (p == path && Refers(children[..i], k))
    {
      var child := children[i];
      assert children[..i + 1] == children[..i] + [child];
      forall k ensures Refers(children[..i + 1], k) <==> Refers(children[..i], k) || Cites(child, k) {
        RefersOneMore(children[..i], child, k);
      }
      if IsReference(child.kind) {
        members, more := PlaceAll(KindOf(child.kind), child.tokens, path, members, more);
      }
    }
    assert children[..|children|] == children;
  }

  // ----- the whole resolver

  /** The group references the scalar and has the path. */
  ghost predicate CitedBy(h: Hierarchy, name: string, key: Key, p: Path) {
    name in h.groups && Refers(h.groups[name].children, key) && IsPath(h, name, p)
  }

  /** A scalar has a place exactly when some group references it, and its place is the longest
      common prefix of the paths of all groups that do. */
  ghost predicate AtCommonAncestor(h: Hierarchy, members: map<Key, Path>) {
    && (forall key :: key in members <==> exists name, p :: CitedBy(h, name, key, p))
    && (forall key, name, p :: key in members && CitedBy(h, name, key, p) ==> members[key] <= p)
    && (forall key, q :: key in members && Bounds(h, key, q) ==> q <= members[key])
  }

  ghost predicate Bounds(h: Hierarchy, key: Key, q: Path) { forall name, p :: CitedBy(h, name, key, p) ==> q <= p }

  lemma PlacedAtAncestor(h: Hierarchy, cited: iset<Citation>, members: map<Key, Path>)
    requires Placed(cited, members)
    requires forall key, p :: (key, p) in cited <==> exists name :: CitedBy(h, name, key, p)
    ensures AtCommonAncestor(h, members)
  {
    forall key, name, p | key in members && CitedBy(h, name, key, p)
      ensures members[key] <= p
    {
      assert (key, p) in cited;
    }
    forall key, q | key in members && Bounds(h, key, q)
      ensures q <= members[key]
    {
      assert Shared(cited, key, q);
    }
    forall key ensures key in members <==> exists name, p :: CitedBy(h, name, key, p) {
      if key in members {
        var p :| (key, p) in cited;
        var name :| CitedBy(h, name, key, p);
      }
      if name, p :| CitedBy(h, name, key, p) { assert (key, p) in cited; }
    }
  }

  /** Resolving group paths and placing every scalar. */
  method Resolve(blocks: seq<Block>) returns (r: Verdict<map<Key, Path>>, ghost h: Hierarchy)
    ensures WellFormed(blocks) ==> Describes(h, blocks)
    ensures r.Ok? <==> WellFormed(blocks) && !NamedCyclic(h)
    ensures r.Ok? ==> AtCommonAncestor(h, r.value)
    ensures r.Err? && WellFormed(blocks) ==> r.error == CyclicHierarchy
    ensures r.Err? && !WellFormed(blocks) ==>
      r.error == TruncatedGroup || r.error == DuplicateGroup || r.error == MultipleParents
  {
    hide WellFormed, Complete, NamesDiffer, OneParentEach, Placed, AtCommonAncestor, IsPath, NamedCyclic, Refers;
    var gathered, names := Gather(blocks);
    if gathered.Err? { return Err(gathered.error), Hierarchy(map[], map[]); }
    h := gathered.value;
    var hierarchy := gathered.value;
    var paths: map<string, Path> := map[];
    var members: map<Key, Path> := map[];
    ghost var cited: iset<Citation> := iset{};
    NothingPlaced();
    for i := 0 to |names|
      invariant PathsOk(h, paths) && Placed(cited, members)
      invariant forall key, p :: (key, p) in cited <==> CitedAmong(h, names[..i], key, p)
      invariant forall name :: name in names[..i] ==> HasPath(h, name)
    {
      var name := names[i];
      assert name in names && names[..i + 1] == names[..i] + [name];
      var path;
      path, paths := PathFor(hierarchy, name, {}, paths);
      if path.Err? { return Err(path.error), h; }
      ghost var before := cited;
      members, cited := PlaceGroup(hierarchy.groups[name].children, path.value, members, cited);
      CitesAtPath(h, names[..i], name, path.value);
    }
    assert names[..|names|] == names;
    assert forall name :: name in h.groups ==> HasPath(h, name);
    PathsIffAcyclic(h);
    PlacedAtAncestor(h, cited, members);
    r := Ok(members);
  }

  /** A file with a model group and two subgroups: what both subgroups reference belongs to the
      model group, by its title, and what one references belongs to that one. */
  lemma SharedBelongsAbove(h: Hierarchy, members: map<Key, Path>)
    requires Describes(h, ExampleBlocks()) && AtCommonAncestor(h, members)
    ensures members == map[Key(Measurement, "speed") := ["Engine"], Key(Characteristic, "gain") := ["Engine", "Control"]]
  {
    hide Describes, IsPath, IsModelGroup, Refers, ExampleBlocks, AtCommonAncestor;
    ExampleGroups(h);
    ExamplePaths(h);
    ExampleRefers();
    ExamplePlaces(h, members);
  }

  lemma ExampleRefers()
    ensures
      var blocks := ExampleBlocks();
      && |blocks| == 3
      && (forall key :: !Refers(blocks[0].children, key))
      && (forall key :: Refers(blocks[1].children, key) <==> key == Key(Measurement, "speed"))
      && (forall key :: Refers(blocks[2].children, key) <==> key == Key(Measurement, "speed") || key == Key(Characteristic, "gain"))
  {
    var blocks := ExampleBlocks();
    assert blocks[1].children[0] in blocks[1].children && blocks[2].children[0] in blocks[2].children && blocks[2].children[1] in blocks[2].children;
  }

  function ExampleBlocks(): (blocks: seq<Block>)
    ensures |blocks| == 3
  {
    [Block("GROUP", ["SIMRT_ModelHierarchy_0", "Engine"], [Block("SUB_GROUP", ["Sensors", "Control"], [])]),
     Block("GROUP", ["Sensors", ""], [Block("REF_MEASUREMENT", ["speed"], [])]),
     Block("GROUP", ["Control", ""], [Block("REF_MEASUREMENT", ["speed"], []), Block("REF_CHARACTERISTIC", ["gain"], [])])]
  }

  lemma ExampleGroups(h: Hierarchy)
    requires Describes(h, ExampleBlocks())
    ensures
      var blocks := ExampleBlocks();
      && h.groups == map["SIMRT_ModelHierarchy_0" := blocks[0], "Sensors" := blocks[1], "Control" := blocks[2]]
      && h.parents == map["Sensors" := "SIMRT_ModelHierarchy_0", "Control" := "SIMRT_ModelHierarchy_0"]
  {
    var blocks, g := ExampleBlocks(), ExampleHierarchy();
    ExampleDescribed();
    hide Describes, ExampleBlocks;
    SameHierarchy(blocks, g, blocks, h);
  }

  function ExampleHierarchy(): Hierarchy {
    var blocks := ExampleBlocks();
    Hierarchy(
      map["SIMRT_ModelHierarchy_0" := blocks[0], "Sensors" := blocks[1], "Control" := blocks[2]],
      map["Sensors" := "SIMRT_ModelHierarchy_0", "Control" := "SIMRT_ModelHierarchy_0"])
  }

  lemma ExampleDescribed()
    ensures Describes(ExampleHierarchy(), ExampleBlocks())
  {
    var blocks := ExampleBlocks();
    assert blocks[0] in blocks && blocks[1] in blocks && blocks[2] in blocks;
    ExampleLists();
    hide Lists;
  }

  lemma ExampleLists()
    ensures
      var blocks := ExampleBlocks();
      && (forall sub :: Lists(blocks[0].children, sub) <==> sub == "Sensors" || sub == "Control")
      && (forall sub :: !Lists(blocks[1].children, sub) && !Lists(blocks[2].children, sub))
  {
    var blocks := ExampleBlocks();
    assert blocks[0].children[0] in blocks[0].children;
  }

  lemma ExamplePaths(h: Hierarchy)
    requires
      var blocks := ExampleBlocks();
      && h.groups == map["SIMRT_ModelHierarchy_0" := blocks[0], "Sensors" := blocks[1], "Control" := blocks[2]]
      && h.parents == map["Sensors" := "SIMRT_ModelHierarchy_0", "Control" := "SIMRT_ModelHierarchy_0"]
    ensures forall p :: IsPath(h, "SIMRT_ModelHierarchy_0", p) <==> p == ["Engine"]
    ensures forall p :: IsPath(h, "Sensors", p) <==> p == ["Engine", "Sensors"]
    ensures forall p :: IsPath(h, "Control", p) <==> p == ["Engine", "Control"]
  {
    var top := "SIMRT_ModelHierarchy_0";
    assert IsModelGroup(top) && !IsModelGroup("Sensors") && !IsModelGroup("Control");
    assert IsPath(h, top, ["Engine"]);
    assert ["Engine", "Sensors"][..1] == ["Engine"] && ["Engine", "Control"][..1] == ["Engine"];
    assert IsPath(h, "Sensors", ["Engine", "Sensors"]) && IsPath(h, "Control", ["Engine", "Control"]);
    forall p | IsPath(h, top, p) ensures p == ["Engine"] { PathIsUnique(h, top, p, ["Engine"]); }
    forall p | IsPath(h, "Sensors", p) ensures p == ["Engine", "Sensors"] { PathIsUnique(h, "Sensors", p, ["Engine", "Sensors"]); }
    forall p | IsPath(h, "Control", p) ensures p == ["Engine", "Control"] { PathIsUnique(h, "Control", p, ["Engine", "Control"]); }
  }

  lemma OnlyEngine(p: Path)
    requires ["Engine"] <= p && p <= ["Engine", "Sensors"] && p <= ["Engine", "Control"]
    ensures p == ["Engine"]
  {
    var a, b := ["Engine", "Sensors"], ["Engine", "Control"];
    assert a[1][0] != b[1][0];
    assert a[..|p|] == p == b[..|p|];
  }

  lemma ExamplePlaces(h: Hierarchy, members: map<Key, Path>)
    requires AtCommonAncestor(h, members)
    requires forall key, name, p :: CitedBy(h, name, key, p) <==>
      || (name == "Sensors" && p == ["Engine", "Sensors"] && key == Key(Measurement, "speed"))
      || (name == "Control" && p == ["Engine", "Control"] && key in {Key(Measurement, "speed"), Key(Characteristic, "gain")})
    ensures members == map[Key(Measurement, "speed") := ["Engine"], Key(Characteristic, "gain") := ["Engine", "Control"]]
  {
    hide CitedBy;
    var speed, gain := Key(Measurement, "speed"), Key(Characteristic, "gain");
    assert CitedBy(h, "Sensors", speed, ["Engine", "Sensors"]) && CitedBy(h, "Control", speed, ["Engine", "Control"]);
    assert CitedBy(h, "Control", gain, ["Engine", "Control"]);
    assert Bounds(h, speed, ["Engine"]) && Bounds(h, gain, ["Engine", "Control"]);
    OnlyEngine(members[speed]);
    assert members[gain] == ["Engine", "Control"];
    assert members.Keys == {speed, gain};
  }

  lemma NothingPlaced()
    ensures Placed(iset{}, map[])
  {
  }

  ghost predicate CitedAmong(h: Hierarchy, names: seq<string>, key: Key, p: Path) {
    exists name :: name in names && CitedBy(h, name, key, p)
  }

  lemma CitesAtPath(h: Hierarchy, names: seq<string>, name: string, path: Path)
    requires IsPath(h, name, path)
    ensures name in h.groups && HasPath(h, name)
    ensures forall key, p ::
      CitedAmong(h, names + [name], key, p)
      <==> CitedAmong(h, names, key, p) || (p == path && Refers(h.groups[name].children, key))
  {
    hide Refers;
    forall key, p
      ensures CitedAmong(h, names + [name], key, p)
        <==> CitedAmong(h, names, key, p) || (p == path && Refers(h.groups[name].children, key))
    {
      if CitedBy(h, name, key, p) { PathIsUnique(h, name, p, path); }
      assert CitedBy(h, name, key, p) <==> p == path && Refers(h.groups[name].children, key);
      assert name in names + [name] && forall n :: n in names ==> n in names + [name];
    }
  }

  // ----- the order of the groups does not matter

  lemma {:induction false} TwoPlaces(blocks: seq<Block>, x: Block)
    requires multiset(blocks)[x] >= 2
    ensures exists i, j :: 0 <= i < j < |blocks| && blocks[i] == x && blocks[j] == x
  {
    var most, last := blocks[..|blocks|-1], blocks[|blocks|-1];
    assert blocks == most + [last];
    if multiset(most)[x] >= 2 {
      TwoPlaces(most, x);
      var i, j :| 0 <= i < j < |most| && most[i] == x && most[j] == x;
      assert blocks[i] == x && blocks[j] == x;
    } else {
      assert last == x && x in most;
      var i :| 0 <= i < |most| && most[i] == x;
      assert blocks[i] == x && blocks[|blocks|-1] == x;
    }
  }

  lemma Doubled(blocks: seq<Block>, i: nat, j: nat)
    requires i < j < |blocks| && blocks[i] == blocks[j]
    ensures multiset(blocks)[blocks[i]] >= 2
  {
    assert blocks == blocks[..j] + [blocks[j]] + blocks[j + 1..];
    assert blocks[..j][i] == blocks[i] && blocks[i] in blocks[..j];
  }

  lemma SameBlocks(a: seq<Block>, b: seq<Block>)
    requires multiset(a) == multiset(b)
    ensures forall x :: x in a <==> x in b
  {
    assert forall x :: x in a <==> x in multiset(a);
    assert forall x :: x in b <==> x in multiset(b);
  }

  lemma WellFormedReordered(a: seq<Block>, b: seq<Block>)
    requires multiset(a) == multiset(b) && WellFormed(a)
    ensures WellFormed(b)
  {
    SameBlocks(a, b);
    assert OneParentEach(b) by { ParentsReordered(a, b); }
    forall i, j, name | 0 <= i < j < |b| && Named(b[i], name)
      ensures !Named(b[j], name)
    {
      hide Lists;
      if b[i] == b[j] {
        Doubled(b, i, j);
        TwoPlaces(a, b[i]);
      } else {
        OwnNames(a, b[i], b[j], name);
      }
    }
  }

  lemma OwnNames(blocks: seq<Block>, x: Block, y: Block, name: string)
    requires NamesDiffer(blocks) && x in blocks && y in blocks && x != y
    ensures Named(x, name) ==> !Named(y, name)
  {
    hide Named;
    var k :| 0 <= k < |blocks| && blocks[k] == x;
    var l :| 0 <= l < |blocks| && blocks[l] == y;
    assert k < l || l < k;
  }

  lemma ParentsReordered(a: seq<Block>, b: seq<Block>)
    requires OneParentEach(a) && forall x :: x in a <==> x in b
    ensures OneParentEach(b)
  {
    hide Lists, Named;
  }

  lemma SameHierarchy(a: seq<Block>, g: Hierarchy, b: seq<Block>, h: Hierarchy)
    requires Describes(g, a) && Describes(h, b) && forall x :: x in a <==> x in b
    ensures g == h
  {
    hide Lists, Named;
    assert g.groups == h.groups;
    forall sub
      ensures sub in g.parents <==> sub in h.parents
      ensures sub in g.parents ==> sub in h.parents && g.parents[sub] == h.parents[sub]
    {
      if sub in g.parents { assert Lists(h.groups[g.parents[sub]].children, sub); }
      if sub in h.parents { assert Lists(g.groups[h.parents[sub]].children, sub); }
    }
    assert g.parents == h.parents;
  }

  lemma OnePlace(h: Hierarchy, m: map<Key, Path>, n: map<Key, Path>)
    requires AtCommonAncestor(h, m) && AtCommonAncestor(h, n)
    ensures m == n
  {
    hide CitedBy;
    forall key | key in m
      ensures m[key] == n[key]
    {
      assert Bounds(h, key, m[key]) && Bounds(h, key, n[key]);
      assert m[key] <= n[key] && n[key] <= m[key];
    }
  }

  /** The same groups in any order are accepted or refused alike, and place every scalar alike. */
  lemma OrderIrrelevant(a: seq<Block>, g: Hierarchy, m: map<Key, Path>, b: seq<Block>, h: Hierarchy, n: map<Key, Path>)
    requires multiset(a) == multiset(b)
    ensures WellFormed(a) <==> WellFormed(b)
    ensures Describes(g, a) && Describes(h, b) ==> g == h && (NamedCyclic(g) <==> NamedCyclic(h))
    ensures Describes(g, a) && Describes(h, b) && AtCommonAncestor(g, m) && AtCommonAncestor(h, n) ==> m == n
  {
    hide Describes, WellFormed, AtCommonAncestor, NamedCyclic;
    SameBlocks(a, b);
    if WellFormed(a) { WellFormedReordered(a, b); }
    if WellFormed(b) { WellFormedReordered(b, a); }
    if Describes(g, a) && Describes(h, b) {
      SameHierarchy(a, g, b, h);
      if AtCommonAncestor(g, m) && AtCommonAncestor(h, n) { OnePlace(g, m, n); }
    }
  }
}
