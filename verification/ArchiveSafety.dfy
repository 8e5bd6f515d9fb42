/** What every nested archive scan keeps: an exact and bounded budget, a bounded depth, and verdicts that name a leaf. */
module ArchiveSafety {
  import opened Common
  import opened ArchiveScan
  import opened Statements
  import HunkFile

  // ------------------------------------------------ the budget is exact

  /** Expanded bytes of all archives in a result tree. */
  function BytesIn(n: Node): nat
    decreases n
  {
    (if n.archive.Some? then n.archive.value.expanded else 0) + BytesInAll(n.children)
  }

  function BytesInAll(ns: seq<Node>): nat
    decreases ns
  {
    if ns == [] then 0 else BytesIn(ns[0]) + BytesInAll(ns[1..])
  }

  /** Members of all archives in a result tree. */
  function MembersIn(n: Node): nat
    decreases n
  {
    (if n.archive.Some? then n.archive.value.members else 0) + MembersInAll(n.children)
  }

  function MembersInAll(ns: seq<Node>): nat
    decreases ns
  {
    if ns == [] then 0 else MembersIn(ns[0]) + MembersInAll(ns[1..])
  }

  /** The budget grew by exactly what the archives of these results hold. */
  predicate Spent(before: Budget, bytes: nat, members: nat, after: Budget) {
    after == Plus(before, bytes, members)
  }

  lemma {:induction false} ImageKeepsArchive(lib: Library, n: Node, image: Data)
    ensures WithImage(lib, n, image).archive == n.archive
    ensures WithImage(lib, n, image).children == n.children
    ensures WithImage(lib, n, image).name == n.name
  {
  }

  lemma {:induction false} PropagatedKeepsTree(n: Node, children: seq<Node>)
    ensures Propagated(n, children) == n.(infected := Propagated(n, children).infected, detection := Propagated(n, children).detection)
    decreases |children|
  {
    if children != [] {
      PropagatedKeepsTree(n, children[1..]);
    }
  }

  lemma {:induction false} DiskSpends(lib: Library, n: Node, data: Data, b: Budget)
    requires n.archive == None && n.children == []
    ensures var s := DiskSpec(lib, n, data, b); Spent(b, BytesIn(s.node), MembersIn(s.node), s.left)
  {
    hide WithImage;
    match lib.expandDisk(n.format, data, MAX_EXPANDED - b.expanded)
    case None =>
    case Some(image) => ImageKeepsArchive(lib, n.(archive := Some(Archive(|image|, 1, ["adf"]))), image);
  }

  lemma {:induction false} ContainerHolds(n: Node, ms: seq<Member>, children: seq<Node>)
    ensures var c := Container(n, ms, children);
            && c.children == children && c.archive == Some(Archive(TotalSize(ms), |ms|, Formats(children)))
            && c.hit == n.hit && c.bootblockSha == n.bootblockSha && c.error == n.error && c.name == n.name
            && BytesIn(c) == TotalSize(ms) + BytesInAll(children)
            && MembersIn(c) == |ms| + MembersInAll(children)
  {
    hide TotalSize, Propagated;
    PropagatedKeepsTree(n.(archive := Some(Archive(TotalSize(ms), |ms|, Formats(children))), children := children), children);
  }

  lemma {:induction false} MemberSpends(lib: Library, m: Member, depth: nat, b: Budget)
    ensures var s := MemberSpec(lib, m, depth, b); Spent(b, BytesIn(s.node), MembersIn(s.node), s.left)
    decreases Levels(depth), 0
  {
    hide WithImage, DiskSpec, Unpack, Container, BytesIn, MembersIn, HunkFile.AnalyzeSpec;
    var n := Unscanned(lib, m);
    PlainCosts(n);
    if n.format == "adf" {
      ImageKeepsArchive(lib, n, m.data);
      PlainCosts(WithImage(lib, n, m.data));
    } else if n.format in PACKED_DISKS {
      DiskSpends(lib, n, m.data, b);
    } else if n.format in ARCHIVES && depth < MAX_DEPTH {
      UnpackSpends(lib, n, m.data, b);
      match Unpack(lib, n, m.data, b)
      case NotUnpacked(why) => PlainCosts(n.(error := Some(why)));
      case Unpacked(ms, left) =>
        MembersSpend(lib, ms, depth + 1, left);
        ContainerHolds(n, ms, MembersSpec(lib, ms, depth + 1, left).nodes);
    } else {
      PlainCosts(n.(error := Some(TooDeep)));
      PlainCosts(n.(hunk := Some(HunkFile.AnalyzeSpec(m.data))));
    }
  }

  lemma {:induction false} PlainCosts(n: Node)
    requires n.archive == None && n.children == []
    ensures BytesIn(n) == 0 && MembersIn(n) == 0
  {
  }

  lemma {:induction false} UnpackSpends(lib: Library, n: Node, data: Data, b: Budget)
    ensures var u := Unpack(lib, n, data, b);
            u.Unpacked? ==> u.left == Plus(b, TotalSize(u.members), |u.members|)
  {
    hide TotalSize;
  }

  /** After any scan the budget has grown by exactly the sum over all archives in the results. */
  lemma {:induction false} MembersSpend(lib: Library, ms: seq<Member>, depth: nat, b: Budget)
    ensures var s := MembersSpec(lib, ms, depth, b);
            Spent(b, BytesInAll(s.nodes), MembersInAll(s.nodes), s.left)
    decreases Levels(depth), |ms| + 1
  {
    hide MemberSpec, BytesIn, MembersIn;
    if ms != [] {
      var first := MemberSpec(lib, ms[0], depth, b);
      MemberSpends(lib, ms[0], depth, b);
      MembersSpend(lib, ms[1..], depth, first.left);
      var rest := MembersSpec(lib, ms[1..], depth, first.left).nodes;
      assert ([first.node] + rest)[1..] == rest;
    }
  }

  // ------------------------------------------------ the budget is bounded, and reservations never fail

  predicate InLimits(b: Budget) {
    0 <= b.expanded <= MAX_EXPANDED && 0 <= b.members <= MAX_MEMBERS
  }

  /** No result in the tree was refused after it had been decoded. */
  predicate NeverRefused(n: Node)
    decreases n
  {
    n.error != Some(ReserveFailed) && NeverRefusedAll(n.children)
  }

  predicate NeverRefusedAll(ns: seq<Node>)
    decreases ns
  {
    ns == [] || (NeverRefused(ns[0]) && NeverRefusedAll(ns[1..]))
  }

  lemma {:induction false} PlainNotRefused(n: Node)
    requires n.error != Some(ReserveFailed) && n.children == []
    ensures NeverRefused(n)
  {
  }

  lemma {:induction false} DiskWithinLimits(lib: Library, n: Node, data: Data, b: Budget)
    requires Bounded(lib) && InLimits(b) && n.error == None && n.children == []
    ensures var s := DiskSpec(lib, n, data, b); InLimits(s.left) && NeverRefused(s.node)
  {
    match lib.expandDisk(n.format, data, MAX_EXPANDED - b.expanded)
    case None => PlainNotRefused(DiskSpec(lib, n, data, b).node);
    case Some(image) =>
      assert |image| <= MAX_EXPANDED - b.expanded;
      PlainNotRefused(DiskSpec(lib, n, data, b).node);
  }

  lemma {:induction false} UnpackWithinLimits(lib: Library, n: Node, data: Data, b: Budget)
    requires Bounded(lib) && InLimits(b)
    ensures var u := Unpack(lib, n, data, b);
            if u.Unpacked? then InLimits(u.left) else u.why == DecodeFailed
  {
    hide TotalSize;
    match lib.expandArchive(n.format, data, MAX_EXPANDED - b.expanded, MAX_MEMBERS - b.members)
    case None =>
    case Some(ms) => assert TotalSize(ms) <= MAX_EXPANDED - b.expanded && |ms| <= MAX_MEMBERS - b.members;
  }

  lemma {:induction false} MemberWithinLimits(lib: Library, m: Member, depth: nat, b: Budget)
    requires Bounded(lib) && InLimits(b)
    ensures var s := MemberSpec(lib, m, depth, b); InLimits(s.left) && NeverRefused(s.node)
    decreases Levels(depth), 0
  {
    hide Bounded, DiskSpec, Unpack, Container, HunkFile.AnalyzeSpec;
    var n := Unscanned(lib, m);
    PlainNotRefused(n);
    if n.format == "adf" {
      PlainNotRefused(WithImage(lib, n, m.data));
    } else if n.format in PACKED_DISKS {
      DiskWithinLimits(lib, n, m.data, b);
    } else if n.format in ARCHIVES && depth < MAX_DEPTH {
      UnpackWithinLimits(lib, n, m.data, b);
      match Unpack(lib, n, m.data, b)
      case NotUnpacked(why) => PlainNotRefused(n.(error := Some(why)));
      case Unpacked(ms, left) =>
        MembersWithinLimits(lib, ms, depth + 1, left);
        ContainerHolds(n, ms, MembersSpec(lib, ms, depth + 1, left).nodes);
    } else {
      PlainNotRefused(n.(error := Some(TooDeep)));
      PlainNotRefused(n.(hunk := Some(HunkFile.AnalyzeSpec(m.data))));
    }
  }

  /** The budget never leaves its limits, and what a limited decoder returned always fits what was left. */
  lemma {:induction false} MembersWithinLimits(lib: Library, ms: seq<Member>, depth: nat, b: Budget)
    requires Bounded(lib) && InLimits(b)
    ensures var s := MembersSpec(lib, ms, depth, b); InLimits(s.left) && NeverRefusedAll(s.nodes)
    decreases Levels(depth), |ms| + 1
  {
    hide Bounded, MemberSpec, NeverRefused;
    if ms != [] {
      var first := MemberSpec(lib, ms[0], depth, b);
      MemberWithinLimits(lib, ms[0], depth, b);
      MembersWithinLimits(lib, ms[1..], depth, first.left);
      var rest := MembersSpec(lib, ms[1..], depth, first.left).nodes;
      assert ([first.node] + rest)[1..] == rest;
    }
  }

  // ------------------------------------------------ depth and size of the result tree

  function Height(n: Node): nat
    decreases n
  {
    1 + HeightAll(n.children)
  }

  function HeightAll(ns: seq<Node>): nat
    decreases ns
  {
    if ns == [] then 0
    else if Height(ns[0]) >= HeightAll(ns[1..]) then Height(ns[0])
    else HeightAll(ns[1..])
  }

  /** Results in a tree. */
  function NodesIn(n: Node): nat
    decreases n
  {
    1 + NodesInAll(n.children)
  }

  function NodesInAll(ns: seq<Node>): nat
    decreases ns
  {
    if ns == [] then 0 else NodesIn(ns[0]) + NodesInAll(ns[1..])
  }

  lemma {:induction false} MemberShape(lib: Library, m: Member, depth: nat, b: Budget)
    ensures var n := MemberSpec(lib, m, depth, b).node;
            Height(n) <= Levels(depth) + 1 && NodesIn(n) <= 1 + MembersIn(n)
    decreases Levels(depth), 0
  {
    hide Unpack, Container, HunkFile.AnalyzeSpec;
    var n := Unscanned(lib, m);
    if n.format in ARCHIVES && n.format !in PACKED_DISKS && n.format != "adf" && depth < MAX_DEPTH {
      match Unpack(lib, n, m.data, b)
      case NotUnpacked(why) =>
      case Unpacked(ms, left) =>
        MembersShape(lib, ms, depth + 1, left);
        ContainerHolds(n, ms, MembersSpec(lib, ms, depth + 1, left).nodes);
    }
  }

  /** Nesting stops at the depth limit, and every nested result is one of the members that were paid for. */
  lemma {:induction false} MembersShape(lib: Library, ms: seq<Member>, depth: nat, b: Budget)
    ensures var ns := MembersSpec(lib, ms, depth, b).nodes;
            |ns| == |ms| && HeightAll(ns) <= Levels(depth) + 1 && NodesInAll(ns) <= |ms| + MembersInAll(ns)
    decreases Levels(depth), |ms| + 1
  {
    hide MemberSpec, Height, NodesIn, MembersIn;
    if ms != [] {
      var first := MemberSpec(lib, ms[0], depth, b);
      MemberShape(lib, ms[0], depth, b);
      MembersShape(lib, ms[1..], depth, first.left);
      var rest := MembersSpec(lib, ms[1..], depth, first.left).nodes;
      assert ([first.node] + rest)[1..] == rest;
    }
  }

  /**
   A whole file: the final budget is the exact sum over every archive in the result, within 32 MiB and
   1024 members; no reservation failed; at most three levels of results, all of them paid for.
   */
  lemma {:induction false} ScanIsAccounted(lib: Library, name: string, data: Data)
    requires Bounded(lib) && FileSpec(lib, name, data).Some?
    ensures var s := FileSpec(lib, name, data).value;
            && s.left == Budget(BytesIn(s.node), MembersIn(s.node))
            && BytesIn(s.node) <= 33554432 && MembersIn(s.node) <= 1024
            && NeverRefused(s.node)
            && Height(s.node) <= 3
            && NodesIn(s.node) <= 1 + MembersIn(s.node)
  {
    hide MembersSpec, Container, WithImage, Bounded, BytesIn, MembersIn, Height, NodesIn, NeverRefused, HunkFile.AnalyzeSpec;
    var n := Unscanned(lib, Member(name, data));
    LeafFile(n);
    LeafFile(n.(hunk := Some(HunkFile.AnalyzeSpec(data))));
    if n.format == "adf" {
      ImageFile(lib, n, data);
    } else if n.format in PACKED_DISKS {
      OuterDiskBounded(lib, n, data);
      var image := lib.expandDisk(n.format, data, MAX_EXPANDED).value;
      ImageFile(lib, n.(archive := Some(Archive(|image|, 1, ["adf"]))), image);
    } else if n.format in FLUX_IMAGES {
      ImageFile(lib, n, lib.derive(n.format, data).value);
    } else if n.format in ARCHIVES && n.format != "adf" {
      OuterArchiveBounded(lib, n, data);
      var ms := lib.expandArchive(n.format, data, MAX_EXPANDED, MAX_MEMBERS).value;
      var b := Budget(TotalSize(ms), |ms|);
      MembersSpend(lib, ms, 1, b);
      MembersWithinLimits(lib, ms, 1, b);
      MembersShape(lib, ms, 1, b);
      ContainerHolds(n, ms, MembersSpec(lib, ms, 1, b).nodes);
      ContainerShape(n, ms, MembersSpec(lib, ms, 1, b).nodes);
    }
  }

  lemma {:induction false} OuterArchiveBounded(lib: Library, n: Node, data: Data)
    requires Bounded(lib) && lib.expandArchive(n.format, data, MAX_EXPANDED, MAX_MEMBERS).Some?
    ensures var ms := lib.expandArchive(n.format, data, MAX_EXPANDED, MAX_MEMBERS).value;
            TotalSize(ms) <= MAX_EXPANDED && |ms| <= MAX_MEMBERS
  {
    hide TotalSize;
  }

  lemma {:induction false} OuterDiskBounded(lib: Library, n: Node, data: Data)
    requires Bounded(lib) && lib.expandDisk(n.format, data, MAX_EXPANDED).Some?
    ensures |lib.expandDisk(n.format, data, MAX_EXPANDED).value| <= MAX_EXPANDED
  {
  }

  lemma {:induction false} ContainerShape(n: Node, ms: seq<Member>, children: seq<Node>)
    requires n.error == None && NeverRefusedAll(children)
    ensures var c := Container(n, ms, children);
            NeverRefused(c) && Height(c) == 1 + HeightAll(children) && NodesIn(c) == 1 + NodesInAll(children)
  {
    hide Container, NeverRefusedAll;
    ContainerHolds(n, ms, children);
  }

  lemma {:induction false} LeafFile(n: Node)
    requires n.children == [] && n.error != Some(ReserveFailed)
    ensures && Height(n) == 1 && NodesIn(n) == 1 && NeverRefused(n)
            && BytesIn(n) == (if n.archive.Some? then n.archive.value.expanded else 0)
            && MembersIn(n) == (if n.archive.Some? then n.archive.value.members else 0)
  {
  }

  lemma {:induction false} ImageFile(lib: Library, n: Node, image: Data)
    requires n.children == [] && n.error == None
    ensures var r := WithImage(lib, n, image);
            && r.archive == n.archive && Height(r) == 1 && NodesIn(r) == 1 && NeverRefused(r)
            && BytesIn(r) == (if n.archive.Some? then n.archive.value.expanded else 0)
            && MembersIn(r) == (if n.archive.Some? then n.archive.value.members else 0)
  {
    hide BytesIn, MembersIn, Height, NodesIn, NeverRefused;
    LeafFile(WithImage(lib, n, image));
  }

  // ------------------------------------------------ verdicts

  /** An infected bootblock and the names on the way to it. */
  datatype Leaf = Leaf(path: seq<string>, node: Node)

  function Under(name: string, leaves: seq<Leaf>): (r: seq<Leaf>)
    ensures |r| == |leaves|
    ensures forall i :: 0 <= i < |r| ==> r[i] == Leaf([name] + leaves[i].path, leaves[i].node)
  {
    seq(|leaves|, i requires 0 <= i < |leaves| => Leaf([name] + leaves[i].path, leaves[i].node))
  }

  /** All results whose own bootblock is known to be malicious, depth first. */
  function InfectedLeaves(n: Node): seq<Leaf>
    decreases n
  {
    (if IsMalicious(n.hit) then [Leaf([n.name], n)] else []) + Under(n.name, LeavesOfAll(n.children))
  }

  function LeavesOfAll(ns: seq<Node>): seq<Leaf>
    decreases ns
  {
    if ns == [] then [] else InfectedLeaves(ns[0]) + LeavesOfAll(ns[1..])
  }

  /** The detection text for a virus found at the end of a path. */
  function Spell(path: seq<string>, virus: string): string {
    if |path| <= 1 then "bootblock:" + virus else "archive-member:" + path[1] + ":" + Spell(path[1..], virus)
  }

  function SpellLeaf(leaf: Leaf): string
    requires leaf.node.hit.Some?
  {
    Spell(leaf.path, leaf.node.hit.value.name)
  }

  ghost predicate Genuine(leaves: seq<Leaf>) {
    forall l :: l in leaves ==> l.path != [] && IsMalicious(l.node.hit)
  }

  lemma {:induction false} LeavesAreGenuine(n: Node)
    ensures Genuine(InfectedLeaves(n))
    ensures forall l :: l in InfectedLeaves(n) ==> l.path[0] == n.name
    decreases n
  {
    AllLeavesAreGenuine(n.children);
    var below := LeavesOfAll(n.children);
    forall l | l in Under(n.name, below) ensures l.path != [] && IsMalicious(l.node.hit) && l.path[0] == n.name {
      var i :| 0 <= i < |below| && l == Under(n.name, below)[i];
      assert below[i] in below;
    }
  }

  lemma {:induction false} AllLeavesAreGenuine(ns: seq<Node>)
    ensures Genuine(LeavesOfAll(ns))
    decreases ns
  {
    if ns != [] {
      LeavesAreGenuine(ns[0]);
      AllLeavesAreGenuine(ns[1..]);
    }
  }

  /** The verdict and the detection of one result say whether, and where, there is an infected leaf at or below it. */
  ghost predicate VerdictFits(n: Node) {
    && n.infected == (InfectedLeaves(n) != [])
    && (n.infected ==> InfectedLeaves(n)[0].node.hit.Some? && n.detection == SpellLeaf(InfectedLeaves(n)[0]))
    && (!n.infected ==> n.detection == "")
  }

  predicate NodeHashes(n: Node) {
    IsSha256(n.sha) && (n.bootblockSha.Some? ==> IsSha256(n.bootblockSha.value))
  }

  /** Images and archives are different results, matches come from the database, and hashes are hashes. */
  ghost predicate Shaped(lib: Library, n: Node) {
    && (Hashing(lib) ==> NodeHashes(n))
    && (n.children != [] ==> n.bootblockSha == None)
    && n.hit == (if n.bootblockSha.Some? then lib.lookup(n.bootblockSha.value) else None)
  }

  /** Both hold throughout the tree. */
  ghost predicate Told(lib: Library, n: Node)
    decreases n
  {
    VerdictFits(n) && Shaped(lib, n) && ToldAll(lib, n.children)
  }

  ghost predicate ToldAll(lib: Library, ns: seq<Node>)
    decreases ns
  {
    ns == [] || (Told(lib, ns[0]) && ToldAll(lib, ns[1..]))
  }

  /** A result before its payload is looked at, whatever else it records. */
  ghost predicate Untouched(lib: Library, n: Node) {
    !n.infected && n.detection == "" && n.hit == None && n.bootblockSha == None && (Hashing(lib) ==> IsSha256(n.sha))
  }

  lemma {:induction false} PlainIsTold(lib: Library, n: Node)
    requires Untouched(lib, n) && n.children == []
    ensures Told(lib, n)
  {
    assert InfectedLeaves(n) == [];
  }

  lemma {:induction false} ImageIsTold(lib: Library, n: Node, image: Data)
    requires Untouched(lib, n) && n.children == []
    ensures Told(lib, WithImage(lib, n, image))
  {
    var r := WithImage(lib, n, image);
    assert LeavesOfAll(r.children) == [] && Under(r.name, LeavesOfAll(r.children)) == [];
    if IsMalicious(r.hit) {
      assert InfectedLeaves(r) == [Leaf([r.name], r)];
      assert Spell([r.name], r.hit.value.name) == "bootblock:" + r.hit.value.name;
    }
  }

  /** The first infected child leads to the first leaf below. */
  lemma {:induction false} FirstInfectedChild(lib: Library, n: Node, children: seq<Node>)
    requires ToldAll(lib, children) && !n.infected && n.detection == ""
    ensures var p := Propagated(n, children); var leaves := Under(n.name, LeavesOfAll(children));
            && p.infected == (leaves != [])
            && (p.infected ==> leaves[0].node.hit.Some? && p.detection == SpellLeaf(leaves[0]))
            && (!p.infected ==> p.detection == "")
    decreases |children|
  {
    hide VerdictFits, Shaped, InfectedLeaves, Genuine, Spell;
    if children != [] {
      FirstInfectedChild(lib, n, children[1..]);
      var child := children[0];
      VerdictOf(child);
      if child.infected {
        var leaf := InfectedLeaves(child)[0];
        assert LeavesOfAll(children)[0] == leaf;
        LeavesAreGenuine(child);
        assert leaf in InfectedLeaves(child);
        ChildLeaf(n.name, leaf, child.name);
      } else {
        assert LeavesOfAll(children) == LeavesOfAll(children[1..]);
      }
    }
  }

  lemma {:induction false} VerdictOf(n: Node)
    requires VerdictFits(n)
    ensures n.infected == (InfectedLeaves(n) != [])
    ensures n.infected ==> InfectedLeaves(n)[0].node.hit.Some? && n.detection == SpellLeaf(InfectedLeaves(n)[0])
  {
    hide InfectedLeaves, Spell;
  }

  lemma {:induction false} ChildLeaf(name: string, leaf: Leaf, child: string)
    requires leaf.node.hit.Some? && leaf.path != [] && leaf.path[0] == child
    ensures SpellLeaf(Leaf([name] + leaf.path, leaf.node)) == "archive-member:" + child + ":" + SpellLeaf(leaf)
  {
    assert ([name] + leaf.path)[1..] == leaf.path;
  }

  lemma {:induction false} ContainerIsTold(lib: Library, n: Node, ms: seq<Member>, children: seq<Node>)
    requires ToldAll(lib, children) && Untouched(lib, n)
    ensures Told(lib, Container(n, ms, children))
  {
    hide Propagated, TotalSize, LeavesOfAll, ToldAll, Spell;
    var filled := n.(archive := Some(Archive(TotalSize(ms), |ms|, Formats(children))), children := children);
    PropagatedKeepsTree(filled, children);
    FirstInfectedChild(lib, filled, children);
    var c := Container(n, ms, children);
    assert InfectedLeaves(c) == Under(c.name, LeavesOfAll(children));
  }

  lemma {:induction false} MemberIsTold(lib: Library, m: Member, depth: nat, b: Budget)
    ensures Told(lib, MemberSpec(lib, m, depth, b).node)
    decreases Levels(depth), 0
  {
    hide Told, WithImage, Unpack, Container, HunkFile.AnalyzeSpec;
    var n := Unscanned(lib, m);
    PlainIsTold(lib, n);
    if n.format == "adf" {
      ImageIsTold(lib, n, m.data);
    } else if n.format in PACKED_DISKS {
      DiskIsTold(lib, n, m.data, b);
    } else if n.format in ARCHIVES && depth < MAX_DEPTH {
      match Unpack(lib, n, m.data, b)
      case NotUnpacked(why) => PlainIsTold(lib, n.(error := Some(why)));
      case Unpacked(ms, left) =>
        MembersAreTold(lib, ms, depth + 1, left);
        ContainerIsTold(lib, n, ms, MembersSpec(lib, ms, depth + 1, left).nodes);
    } else {
      PlainIsTold(lib, n.(error := Some(TooDeep)));
      PlainIsTold(lib, n.(hunk := Some(HunkFile.AnalyzeSpec(m.data))));
    }
  }

  lemma {:induction false} DiskIsTold(lib: Library, n: Node, data: Data, b: Budget)
    requires Untouched(lib, n) && n.children == []
    ensures Told(lib, DiskSpec(lib, n, data, b).node)
  {
    hide Told, WithImage;
    PlainIsTold(lib, n.(error := Some(Blocked)));
    PlainIsTold(lib, n.(error := Some(DecodeFailed)));
    PlainIsTold(lib, n.(error := Some(ReserveFailed)));
    match lib.expandDisk(n.format, data, MAX_EXPANDED - b.expanded)
    case None =>
    case Some(image) => ImageIsTold(lib, n.(archive := Some(Archive(|image|, 1, ["adf"]))), image);
  }

  lemma {:induction false} MembersAreTold(lib: Library, ms: seq<Member>, depth: nat, b: Budget)
    ensures ToldAll(lib, MembersSpec(lib, ms, depth, b).nodes)
    decreases Levels(depth), |ms| + 1
  {
    hide MemberSpec, Told;
    if ms != [] {
      var first := MemberSpec(lib, ms[0], depth, b);
      MemberIsTold(lib, ms[0], depth, b);
      MembersAreTold(lib, ms[1..], depth, first.left);
      var rest := MembersSpec(lib, ms[1..], depth, first.left).nodes;
      assert ([first.node] + rest)[1..] == rest;
    }
  }

  /**
   Everywhere in a scan result a container is infected exactly when some leaf at or below it is, and its
   detection spells the path to the first such leaf.
   */
  lemma {:induction false} VerdictsNameLeaves(lib: Library, name: string, data: Data)
    requires FileSpec(lib, name, data).Some?
    ensures Told(lib, FileSpec(lib, name, data).value.node)
  {
    hide Told, WithImage, Container, MembersSpec, HunkFile.AnalyzeSpec;
    var n := Unscanned(lib, Member(name, data));
    PlainIsTold(lib, n);
    PlainIsTold(lib, n.(hunk := Some(HunkFile.AnalyzeSpec(data))));
    if n.format == "adf" {
      ImageIsTold(lib, n, data);
    } else if n.format in PACKED_DISKS {
      var image := lib.expandDisk(n.format, data, MAX_EXPANDED).value;
      ImageIsTold(lib, n.(archive := Some(Archive(|image|, 1, ["adf"]))), image);
    } else if n.format in FLUX_IMAGES {
      ImageIsTold(lib, n, lib.derive(n.format, data).value);
    } else if n.format in ARCHIVES {
      var ms := lib.expandArchive(n.format, data, MAX_EXPANDED, MAX_MEMBERS).value;
      MembersAreTold(lib, ms, 1, Budget(TotalSize(ms), |ms|));
      ContainerIsTold(lib, n, ms, MembersSpec(lib, ms, 1, Budget(TotalSize(ms), |ms|)).nodes);
    }
  }
}
