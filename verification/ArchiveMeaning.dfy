/**
 What a scan must find, told from the files alone: which disk images lie within reach of the limits, and
 what the result says about every member on the way.  A file is infected exactly when one of these images is.
 */
module ArchiveMeaning {
  import opened Common
  import opened ArchiveScan
  import opened ArchiveSafety
  import HunkFile

  // ------------------------------------------------ the images within reach

  /** A disk image and the names on the way to it. */
  datatype Spot = Spot(path: seq<string>, image: Data)

  /** The images found, and what has been expanded so far: bytes and members. */
  datatype Reach = Reach(images: seq<Spot>, bytes: int, members: int)

  function SizeOf(ms: seq<Member>): nat {
    if ms == [] then 0 else SizeOf(ms[..|ms| - 1]) + |ms[|ms| - 1].data|
  }

  function Below(name: string, images: seq<Spot>): (r: seq<Spot>)
    ensures |r| == |images| && forall i :: 0 <= i < |r| ==> r[i] == Spot([name] + images[i].path, images[i].image)
  {
    seq(|images|, i requires 0 <= i < |images| => Spot([name] + images[i].path, images[i].image))
  }

  /** The disk image packed in a file, if there is room for it. */
  function PackedDisk(lib: Library, format: string, data: Data, bytes: int, members: int): Option<Data> {
    if 0 <= bytes < 33554432 && 0 <= members < 1024 then
      match lib.expandDisk(format, data, 33554432 - bytes)
      case None => None
      case Some(image) => if bytes + |image| <= 33554432 then Some(image) else None
    else None
  }

  /** The members of an archive, if there is room for them. */
  function PackedMembers(lib: Library, format: string, data: Data, bytes: int, members: int): Option<seq<Member>> {
    if 0 <= bytes < 33554432 && 0 <= members < 1024 then
      match lib.expandArchive(format, data, 33554432 - bytes, 1024 - members)
      case None => None
      case Some(ms) => if bytes + SizeOf(ms) <= 33554432 && members + |ms| <= 1024 then Some(ms) else None
    else None
  }

  function MemberReach(lib: Library, m: Member, depth: nat, bytes: int, members: int): Reach
    decreases if depth < 2 then 2 - depth else 0, 0
  {
    var format := lib.detect(m.name, m.data);
    if format == "adf" then Reach([Spot([m.name], m.data)], bytes, members)
    else if format == "adz" || format == "dms" then
      match PackedDisk(lib, format, m.data, bytes, members)
      case None => Reach([], bytes, members)
      case Some(image) => Reach([Spot([m.name], image)], bytes + |image|, members + 1)
    else if (format == "zip" || format == "lha" || format == "lzx") && depth < 2 then
      match PackedMembers(lib, format, m.data, bytes, members)
      case None => Reach([], bytes, members)
      case Some(ms) =>
        var inner := AllReach(lib, ms, depth + 1, bytes + SizeOf(ms), members + |ms|);
        inner.(images := Below(m.name, inner.images))
    else Reach([], bytes, members)
  }

  function AllReach(lib: Library, ms: seq<Member>, depth: nat, bytes: int, members: int): Reach
    decreases if depth < 2 then 2 - depth else 0, |ms| + 1
  {
    if ms == [] then Reach([], bytes, members)
    else
      var first := MemberReach(lib, ms[0], depth, bytes, members);
      var rest := AllReach(lib, ms[1..], depth, first.bytes, first.members);
      rest.(images := first.images + rest.images)
  }

  // ------------------------------------------------ what is said about a member

  predicate Malicious(hit: Option<Match>) {
    hit.Some? && hit.value.status == "known-malicious"
  }

  /** A disk image that is known to be malicious by its bootblock. */
  predicate Infected(lib: Library, image: Data) {
    lib.analyze(image).Readable? && Malicious(lib.lookup(lib.analyze(image).bootblockSha))
  }

  /** The result says of an image what the analysis and the database say. */
  predicate ImageShown(lib: Library, n: Node, image: Data) {
    match lib.analyze(image)
    case Unreadable =>
      && n.error == Some(BadImage) && n.bootblockSha == None && n.filesystem == None && n.hit == None
      && !n.infected && n.detection == ""
    case Readable(sha, filesystem) =>
      && n.error == None && n.bootblockSha == Some(sha) && n.filesystem == filesystem && n.hit == lib.lookup(sha)
      && n.infected == Malicious(n.hit)
      && n.detection == if Malicious(n.hit) then "bootblock:" + n.hit.value.name else ""
  }

  /** The result says nothing about any image. */
  predicate NoImage(n: Node) {
    n.bootblockSha == None && n.filesystem == None && n.hit == None
  }

  predicate Innocent(n: Node) {
    NoImage(n) && !n.infected && n.detection == ""
  }

  predicate Flat(n: Node) {
    n.archive == None && n.children == [] && n.hunk == None
  }

  /** The verdict comes from the first infected child, if there is one. */
  ghost predicate FirstDecides(n: Node) {
    && (n.infected <==> exists i :: 0 <= i < |n.children| && n.children[i].infected)
    && (forall i :: 0 <= i < |n.children| && n.children[i].infected && (forall j :: 0 <= j < i ==> !n.children[j].infected) ==>
          n.detection == "archive-member:" + n.children[i].name + ":" + n.children[i].detection)
    && (!n.infected ==> n.detection == "")
  }

  function FormatsOf(children: seq<Node>): (formats: seq<string>)
    ensures |formats| == |children|
  {
    seq(|children|, i requires 0 <= i < |children| => children[i].format)
  }

  /** A disk packed in a file: why it could not be looked at, or what was found on it. */
  ghost predicate DiskShown(lib: Library, n: Node, data: Data, bytes: int, members: int) {
    && n.children == [] && n.hunk == None
    && if !(0 <= bytes < 33554432 && 0 <= members < 1024) then n.error == Some(Blocked) && n.archive == None && Innocent(n)
       else
         match lib.expandDisk(n.format, data, 33554432 - bytes)
         case None => n.error == Some(DecodeFailed) && n.archive == None && Innocent(n)
         case Some(image) =>
           if bytes + |image| > 33554432 then n.error == Some(ReserveFailed) && n.archive == None && Innocent(n)
           else n.archive == Some(Archive(|image|, 1, ["adf"])) && ImageShown(lib, n, image)
  }

  /** An archive: why it was not unpacked, or its members. */
  ghost predicate ArchiveShown(lib: Library, n: Node, data: Data, depth: nat, bytes: int, members: int)
    decreases n, 0
  {
    && n.hunk == None && NoImage(n)
    && if depth >= 2 then n.error == Some(TooDeep) && n.archive == None && n.children == [] && Innocent(n)
       else if !(0 <= bytes < 33554432 && 0 <= members < 1024) then
         n.error == Some(DecodeFailed) && n.archive == None && n.children == [] && Innocent(n)
       else
         match lib.expandArchive(n.format, data, 33554432 - bytes, 1024 - members)
         case None => n.error == Some(DecodeFailed) && n.archive == None && n.children == [] && Innocent(n)
         case Some(ms) =>
           if bytes + SizeOf(ms) > 33554432 || members + |ms| > 1024 then
             n.error == Some(ReserveFailed) && n.archive == None && n.children == [] && Innocent(n)
           else
             && n.error == None && n.archive == Some(Archive(SizeOf(ms), |ms|, FormatsOf(n.children)))
             && AllShown(lib, ms, depth + 1, bytes + SizeOf(ms), members + |ms|, n.children)
             && FirstDecides(n)
  }

  /** What the result says of one file, given what had been expanded before. */
  ghost predicate Shown(lib: Library, m: Member, depth: nat, bytes: int, members: int, n: Node)
    decreases n, 1
  {
    && n.name == m.name && n.size == |m.data| && n.sha == lib.sha(m.data) && n.format == lib.detect(m.name, m.data)
    && if n.format == "adf" then Flat(n) && ImageShown(lib, n, m.data)
       else if n.format == "adz" || n.format == "dms" then DiskShown(lib, n, m.data, bytes, members)
       else if n.format == "zip" || n.format == "lha" || n.format == "lzx" then ArchiveShown(lib, n, m.data, depth, bytes, members)
       else
         && Innocent(n) && n.archive == None && n.children == [] && n.error == None
         && n.hunk == if n.format == "amiga-hunk-executable" then Some(HunkFile.AnalyzeSpec(m.data)) else None
  }

  /** One result for every member, in order. */
  ghost predicate AllShown(lib: Library, ms: seq<Member>, depth: nat, bytes: int, members: int, ns: seq<Node>)
    decreases ns, 0
  {
    |ns| == |ms|
    && (ms != [] ==>
          && Shown(lib, ms[0], depth, bytes, members, ns[0])
          && var first := MemberReach(lib, ms[0], depth, bytes, members);
             AllShown(lib, ms[1..], depth, first.bytes, first.members, ns[1..]))
  }

  // ------------------------------------------------ the scan says just that

  lemma {:induction false} SizeIsTotal(ms: seq<Member>)
    ensures SizeOf(ms) == TotalSize(ms)
  {
    if ms != [] {
      var last := |ms| - 1;
      SizeIsTotal(ms[..last]);
      assert ms == ms[..last] + [ms[last]];
      TotalOfTwo(ms[..last], [ms[last]]);
      assert [ms[last]][1..] == [];
    }
  }

  lemma {:induction false} TotalOfTwo(a: seq<Member>, b: seq<Member>)
    ensures TotalSize(a + b) == TotalSize(a) + TotalSize(b)
  {
    if a == [] {
      assert a + b == b;
    } else {
      assert (a + b)[1..] == a[1..] + b;
      TotalOfTwo(a[1..], b);
    }
  }

  lemma {:induction false} WithImageShows(lib: Library, n: Node, image: Data)
    requires n.error == None && Innocent(n)
    ensures var r := WithImage(lib, n, image);
            && ImageShown(lib, r, image)
            && r.(error := None, infected := false, detection := "", bootblockSha := None, filesystem := None, hit := None) == n
  {
  }

  lemma {:induction false} DiskIsShown(lib: Library, n: Node, data: Data, b: Budget)
    requires n.error == None && Innocent(n) && Flat(n)
    ensures var s := DiskSpec(lib, n, data, b);
            && s.node.name == n.name && s.node.size == n.size && s.node.sha == n.sha && s.node.format == n.format
            && DiskShown(lib, s.node, data, b.expanded, b.members)
            && s.left == match PackedDisk(lib, n.format, data, b.expanded, b.members)
                         case None => b
                         case Some(image) => Budget(b.expanded + |image|, b.members + 1)
  {
    hide WithImage, ImageShown;
    if HasRoom(b) {
      match lib.expandDisk(n.format, data, MAX_EXPANDED - b.expanded)
      case None =>
      case Some(image) => WithImageShows(lib, n.(archive := Some(Archive(|image|, 1, ["adf"]))), image);
    }
  }

  lemma {:induction false} FirstOfChildren(n: Node, children: seq<Node>, k: nat)
    requires k <= |children| && !n.infected && n.detection == ""
    ensures var p := Propagated(n, children[k..]);
            && (p.infected <==> exists i :: k <= i < |children| && children[i].infected)
            && (forall i :: k <= i < |children| && children[i].infected && (forall j :: k <= j < i ==> !children[j].infected) ==>
                  p.detection == "archive-member:" + children[i].name + ":" + children[i].detection)
            && (!p.infected ==> p.detection == "")
    decreases |children| - k
  {
    if k < |children| {
      assert children[k..][0] == children[k] && children[k..][1..] == children[k + 1..];
      FirstOfChildren(n, children, k + 1);
    }
  }

  lemma {:induction false} ContainerShows(n: Node, ms: seq<Member>, children: seq<Node>)
    requires n.error == None && Innocent(n) && Flat(n)
    ensures var c := Container(n, ms, children);
            && c.name == n.name && c.size == n.size && c.sha == n.sha && c.format == n.format
            && c.children == children && c.error == None && c.hunk == None && NoImage(c)
            && c.archive == Some(Archive(SizeOf(ms), |ms|, FormatsOf(children)))
            && FirstDecides(c)
  {
    hide TotalSize, SizeOf, Propagated;
    SizeIsTotal(ms);
    assert Formats(children) == FormatsOf(children);
    var filled := n.(archive := Some(Archive(TotalSize(ms), |ms|, Formats(children))), children := children);
    PropagatedKeepsTree(filled, children);
    assert children[0..] == children;
    FirstOfChildren(filled, children, 0);
  }

  lemma {:induction false} MemberIsShown(lib: Library, m: Member, depth: nat, b: Budget)
    ensures var s := MemberSpec(lib, m, depth, b);
            var r := MemberReach(lib, m, depth, b.expanded, b.members);
            Shown(lib, m, depth, b.expanded, b.members, s.node) && s.left == Budget(r.bytes, r.members)
    decreases Levels(depth), 1
  {
    hide WithImage, DiskSpec, DiskShown, ImageShown, Container, FirstDecides, SizeOf, TotalSize, HunkFile.AnalyzeSpec, PackedDisk, PackedMembers,
         Unpack, ArchiveShown;
    var n := Unscanned(lib, m);
    if n.format == "adf" {
      WithImageShows(lib, n, m.data);
    } else if n.format in PACKED_DISKS {
      DiskIsShown(lib, n, m.data, b);
    } else if n.format in ARCHIVES {
      ArchiveIsShown(lib, m, depth, b);
    }
  }

  /** The archive case. */
  lemma {:induction false} ArchiveIsShown(lib: Library, m: Member, depth: nat, b: Budget)
    requires lib.detect(m.name, m.data) in ARCHIVES
    ensures var s := MemberSpec(lib, m, depth, b);
            var r := MemberReach(lib, m, depth, b.expanded, b.members);
            && s.node.name == m.name && s.node.size == |m.data| && s.node.sha == lib.sha(m.data)
            && s.node.format == lib.detect(m.name, m.data)
            && ArchiveShown(lib, s.node, m.data, depth, b.expanded, b.members) && s.left == Budget(r.bytes, r.members)
    decreases Levels(depth), 0
  {
    hide WithImage, DiskSpec, Container, FirstDecides, SizeOf, TotalSize, HunkFile.AnalyzeSpec, MembersSpec, AllReach, AllShown;
    var n := Unscanned(lib, m);
    if depth < MAX_DEPTH && HasRoom(b) {
      match lib.expandArchive(n.format, m.data, MAX_EXPANDED - b.expanded, MAX_MEMBERS - b.members)
      case None =>
      case Some(ms) =>
        SizeIsTotal(ms);
        if Fits(b, TotalSize(ms), |ms|) {
          var left := Plus(b, TotalSize(ms), |ms|);
          MembersAreShown(lib, ms, depth + 1, left);
          ContainerShows(n, ms, MembersSpec(lib, ms, depth + 1, left).nodes);
        }
    }
  }

  lemma {:induction false} MembersAreShown(lib: Library, ms: seq<Member>, depth: nat, b: Budget)
    ensures var s := MembersSpec(lib, ms, depth, b);
            var r := AllReach(lib, ms, depth, b.expanded, b.members);
            AllShown(lib, ms, depth, b.expanded, b.members, s.nodes) && s.left == Budget(r.bytes, r.members)
    decreases Levels(depth), |ms| + 2
  {
    hide MemberSpec, MemberReach, Shown;
    if ms != [] {
      MemberIsShown(lib, ms[0], depth, b);
      var first := MemberSpec(lib, ms[0], depth, b);
      MembersAreShown(lib, ms[1..], depth, first.left);
      var rest := MembersSpec(lib, ms[1..], depth, first.left).nodes;
      assert ([first.node] + rest)[1..] == rest && ([first.node] + rest)[0] == first.node;
    }
  }

  // ------------------------------------------------ verdicts against images

  /** The malicious ones among some images, in order. */
  function InfectedOf(lib: Library, images: seq<Spot>): seq<Spot> {
    if images == [] then []
    else (if Infected(lib, images[0].image) then [images[0]] else []) + InfectedOf(lib, images[1..])
  }

  lemma {:induction false} InfectedOfTwo(lib: Library, a: seq<Spot>, b: seq<Spot>)
    ensures InfectedOf(lib, a + b) == InfectedOf(lib, a) + InfectedOf(lib, b)
  {
    hide Infected;
    if a == [] {
      assert a + b == b;
    } else {
      assert (a + b)[1..] == a[1..] + b;
      InfectedOfTwo(lib, a[1..], b);
    }
  }

  lemma {:induction false} InfectedBelow(lib: Library, name: string, images: seq<Spot>)
    ensures InfectedOf(lib, Below(name, images)) == Below(name, InfectedOf(lib, images))
  {
    hide Infected;
    if images != [] {
      assert Below(name, images)[1..] == Below(name, images[1..]);
      InfectedBelow(lib, name, images[1..]);
    }
  }

  /** Each infected result belongs to the malicious image at the same place in the list. */
  ghost predicate Belongs(lib: Library, leaf: Leaf, f: Spot) {
    && leaf.path == f.path && lib.analyze(f.image).Readable?
    && leaf.node.bootblockSha == Some(lib.analyze(f.image).bootblockSha)
    && leaf.node.hit == lib.lookup(lib.analyze(f.image).bootblockSha)
  }

  ghost predicate Belong(lib: Library, leaves: seq<Leaf>, images: seq<Spot>) {
    |leaves| == |images| && forall i :: 0 <= i < |leaves| ==> Belongs(lib, leaves[i], images[i])
  }

  lemma {:induction false} BelongTwo(lib: Library, a: seq<Leaf>, b: seq<Leaf>, c: seq<Spot>, d: seq<Spot>)
    requires Belong(lib, a, c) && Belong(lib, b, d)
    ensures Belong(lib, a + b, c + d)
  {
    hide Belongs;
  }

  lemma {:induction false} BelongBelow(lib: Library, name: string, leaves: seq<Leaf>, images: seq<Spot>)
    requires Belong(lib, leaves, images)
    ensures Belong(lib, Under(name, leaves), Below(name, images))
  {
    forall i | 0 <= i < |leaves| ensures Belongs(lib, Under(name, leaves)[i], Below(name, images)[i]) {
      assert Belongs(lib, leaves[i], images[i]);
    }
  }

  /** A shown image is a leaf exactly if it is malicious. */
  lemma {:induction false} ImageLeaf(lib: Library, n: Node, image: Data)
    requires ImageShown(lib, n, image) && n.children == []
    ensures Belong(lib, InfectedLeaves(n), InfectedOf(lib, [Spot([n.name], image)]))
    ensures n.infected <==> Infected(lib, image)
  {
    assert LeavesOfAll(n.children) == [] && Under(n.name, LeavesOfAll(n.children)) == [];
    assert [Spot([n.name], image)][1..] == [];
    assert InfectedOf(lib, []) == [];
  }

  lemma {:induction false} NoLeaf(lib: Library, n: Node)
    requires n.hit == None && n.children == []
    ensures Belong(lib, InfectedLeaves(n), InfectedOf(lib, []))
  {
    assert Under(n.name, LeavesOfAll(n.children)) == [];
  }

  lemma {:induction false} ShownLeaves(lib: Library, m: Member, depth: nat, bytes: int, members: int, n: Node)
    requires Shown(lib, m, depth, bytes, members, n)
    ensures Belong(lib, InfectedLeaves(n), InfectedOf(lib, MemberReach(lib, m, depth, bytes, members).images))
    decreases n, 1
  {
    hide ImageShown, FirstDecides, HunkFile.AnalyzeSpec, InfectedLeaves, InfectedOf, Belong, AllReach, AllShown, SizeOf, Innocent;
    if n.format == "adf" {
      ImageLeaf(lib, n, m.data);
    } else if n.format == "adz" || n.format == "dms" {
      DiskLeaves(lib, m, bytes, members, n);
    } else if n.format == "zip" || n.format == "lha" || n.format == "lzx" {
      if depth < 2 && PackedMembers(lib, n.format, m.data, bytes, members).Some? {
        var ms := PackedMembers(lib, n.format, m.data, bytes, members).value;
        AllShownLeaves(lib, ms, depth + 1, bytes + SizeOf(ms), members + |ms|, n.children);
        var inner := AllReach(lib, ms, depth + 1, bytes + SizeOf(ms), members + |ms|);
        InfectedBelow(lib, n.name, inner.images);
        BelongBelow(lib, n.name, LeavesOfAll(n.children), InfectedOf(lib, inner.images));
        ContainerLeaves(n);
      } else {
        NoLeaf(lib, n);
      }
    } else {
      NoLeaf(lib, n) by { assert n.hit == None by { InnocentHasNone(n); } }
    }
  }

  lemma {:induction false} InnocentHasNone(n: Node)
    requires Innocent(n)
    ensures n.hit == None
  {
  }

  lemma {:induction false} DiskLeaves(lib: Library, m: Member, bytes: int, members: int, n: Node)
    requires DiskShown(lib, n, m.data, bytes, members) && n.name == m.name
    ensures Belong(lib, InfectedLeaves(n), InfectedOf(lib,
              match PackedDisk(lib, n.format, m.data, bytes, members) case None => [] case Some(image) => [Spot([m.name], image)]))
  {
    hide ImageShown, InfectedLeaves, InfectedOf, Belong;
    match PackedDisk(lib, n.format, m.data, bytes, members)
    case None => NoLeaf(lib, n);
    case Some(image) => ImageLeaf(lib, n, image);
  }

  lemma {:induction false} ContainerLeaves(n: Node)
    requires n.hit == None
    ensures InfectedLeaves(n) == Under(n.name, LeavesOfAll(n.children))
  {
  }

  lemma {:induction false} AllShownLeaves(lib: Library, ms: seq<Member>, depth: nat, bytes: int, members: int, ns: seq<Node>)
    requires AllShown(lib, ms, depth, bytes, members, ns)
    ensures Belong(lib, LeavesOfAll(ns), InfectedOf(lib, AllReach(lib, ms, depth, bytes, members).images))
    decreases ns, 0
  {
    hide Shown, MemberReach, InfectedLeaves, Infected, Belongs;
    if ms != [] {
      var first := MemberReach(lib, ms[0], depth, bytes, members);
      var rest := AllReach(lib, ms[1..], depth, first.bytes, first.members);
      ShownLeaves(lib, ms[0], depth, bytes, members, ns[0]);
      AllShownLeaves(lib, ms[1..], depth, first.bytes, first.members, ns[1..]);
      InfectedOfTwo(lib, first.images, rest.images);
      BelongTwo(lib, InfectedLeaves(ns[0]), LeavesOfAll(ns[1..]), InfectedOf(lib, first.images), InfectedOf(lib, rest.images));
    }
  }

  // ------------------------------------------------ whole files

  /** The images a file gives, or none where the scan fails. */
  function FileReach(lib: Library, name: string, data: Data): Option<seq<Spot>> {
    var format := lib.detect(name, data);
    if format == "adf" then Some([Spot([name], data)])
    else if format == "adz" || format == "dms" then
      match lib.expandDisk(format, data, 33554432)
      case None => None
      case Some(image) => Some([Spot([name], image)])
    else if format == "ipf" || format == "fdi" then
      match lib.derive(format, data)
      case None => None
      case Some(image) => Some(if image == [] then [] else [Spot([name], image)])
    else if format == "zip" || format == "lha" || format == "lzx" then
      match lib.expandArchive(format, data, 33554432, 1024)
      case None => None
      case Some(ms) => Some(Below(name, AllReach(lib, ms, 1, SizeOf(ms), |ms|).images))
    else Some([])
  }

  /** The result for a whole file: an image that cannot be analysed makes the scan fail. */
  ghost predicate FileShown(lib: Library, name: string, data: Data, r: Option<Node>) {
    var format := lib.detect(name, data);
    if r == None then
      || FileReach(lib, name, data) == None
      || (format !in {"zip", "lha", "lzx"} && FileReach(lib, name, data).value != []
          && lib.analyze(FileReach(lib, name, data).value[0].image) == Unreadable)
    else
      var n := r.value;
      && FileReach(lib, name, data).Some?
      && n.name == name && n.size == |data| && n.sha == lib.sha(data) && n.format == format && n.error == None
      && n.hunk == (if format == "amiga-hunk-executable" then Some(HunkFile.AnalyzeSpec(data)) else None)
      && if format == "zip" || format == "lha" || format == "lzx" then
           var ms := lib.expandArchive(format, data, 33554432, 1024).value;
           && NoImage(n) && n.archive == Some(Archive(SizeOf(ms), |ms|, FormatsOf(n.children)))
           && AllShown(lib, ms, 1, SizeOf(ms), |ms|, n.children) && FirstDecides(n)
         else
           var images := FileReach(lib, name, data).value;
           && n.children == []
           && n.archive == (if format == "adz" || format == "dms" then Some(Archive(|images[0].image|, 1, ["adf"])) else None)
           && if images == [] then Innocent(n) else ImageShown(lib, n, images[0].image)
  }

  lemma {:induction false} FileIsShown(lib: Library, name: string, data: Data)
    ensures FileShown(lib, name, data, match FileSpec(lib, name, data) case None => None case Some(s) => Some(s.node))
  {
    hide WithImage, ImageShown, FirstDecides, HunkFile.AnalyzeSpec, MembersSpec, Container, AllReach, AllShown, SizeOf, TotalSize;
    var n := Unscanned(lib, Member(name, data));
    if n.format == "adf" {
      WithImageShows(lib, n, data);
      WholeImage(lib, n, data);
    } else if n.format in PACKED_DISKS {
      if lib.expandDisk(n.format, data, MAX_EXPANDED).Some? {
        var image := lib.expandDisk(n.format, data, MAX_EXPANDED).value;
        WithImageShows(lib, n.(archive := Some(Archive(|image|, 1, ["adf"]))), image);
        WholeImage(lib, n.(archive := Some(Archive(|image|, 1, ["adf"]))), image);
      }
    } else if n.format in FLUX_IMAGES {
      if lib.derive(n.format, data).Some? {
        WithImageShows(lib, n, lib.derive(n.format, data).value);
        WholeImage(lib, n, lib.derive(n.format, data).value);
      }
    } else if n.format in ARCHIVES {
      if lib.expandArchive(n.format, data, MAX_EXPANDED, MAX_MEMBERS).Some? {
        var ms := lib.expandArchive(n.format, data, MAX_EXPANDED, MAX_MEMBERS).value;
        SizeIsTotal(ms);
        MembersAreShown(lib, ms, 1, Budget(TotalSize(ms), |ms|));
        ContainerShows(n, ms, MembersSpec(lib, ms, 1, Budget(TotalSize(ms), |ms|)).nodes);
      }
    }
  }

  lemma {:induction false} WholeImage(lib: Library, n: Node, image: Data)
    requires n.error == None && Innocent(n)
    ensures WithImage(lib, n, image).error == None <==> lib.analyze(image).Readable?
  {
  }

  /** Text for a virus at the end of a path of names. */
  function Spelled(path: seq<string>, virus: string): string {
    if |path| <= 1 then "bootblock:" + virus else "archive-member:" + path[1] + ":" + Spelled(path[1..], virus)
  }

  lemma {:induction false} SpelledAsLeaf(path: seq<string>, virus: string)
    ensures Spelled(path, virus) == Spell(path, virus)
    decreases |path|
  {
    if |path| > 1 {
      SpelledAsLeaf(path[1..], virus);
    }
  }

  /**
   A scanned file is infected exactly when some disk image within reach of the limits has a bootblock that
   the database calls malicious, and the detection names the way to the first one and its virus.
   */
  lemma {:induction false} InfectedExactly(lib: Library, name: string, data: Data)
    requires FileSpec(lib, name, data).Some?
    ensures FileReach(lib, name, data).Some?
    ensures var n := FileSpec(lib, name, data).value.node;
            var images := InfectedOf(lib, FileReach(lib, name, data).value);
            && Belong(lib, InfectedLeaves(n), images)
            && (n.infected <==> images != [])
            && (n.infected ==> InfectedLeaves(n) != [] && InfectedLeaves(n)[0].node.hit.Some?
                               && n.detection == Spelled(images[0].path, InfectedLeaves(n)[0].node.hit.value.name))
  {
    hide ImageShown, FirstDecides, HunkFile.AnalyzeSpec, FileSpec, InfectedLeaves, InfectedOf, Belongs, Told, Spelled, Spell, Shown, AllShown, AllReach;
    FileIsShown(lib, name, data);
    var n := FileSpec(lib, name, data).value.node;
    FileLeaves(lib, name, data, n);
    VerdictsNameLeaves(lib, name, data);
    VerdictOfTold(lib, n);
    if n.infected {
      var leaf := InfectedLeaves(n)[0];
      SpelledAsLeaf(leaf.path, leaf.node.hit.value.name);
      FirstBelongs(lib, InfectedLeaves(n), InfectedOf(lib, FileReach(lib, name, data).value));
    }
  }

  lemma {:induction false} FirstBelongs(lib: Library, leaves: seq<Leaf>, images: seq<Spot>)
    requires Belong(lib, leaves, images) && leaves != []
    ensures images != [] && leaves[0].path == images[0].path
  {
    assert Belongs(lib, leaves[0], images[0]);
  }

  lemma {:induction false} VerdictOfTold(lib: Library, n: Node)
    requires Told(lib, n)
    ensures n.infected == (InfectedLeaves(n) != [])
    ensures n.infected ==> InfectedLeaves(n)[0].node.hit.Some? && n.detection == SpellLeaf(InfectedLeaves(n)[0])
  {
    hide InfectedLeaves, Spell, Shaped, ToldAll;
  }

  lemma {:induction false} FileLeaves(lib: Library, name: string, data: Data, n: Node)
    requires FileShown(lib, name, data, Some(n))
    ensures FileReach(lib, name, data).Some?
    ensures Belong(lib, InfectedLeaves(n), InfectedOf(lib, FileReach(lib, name, data).value))
  {
    hide ImageShown, FirstDecides, HunkFile.AnalyzeSpec, InfectedLeaves, InfectedOf, Belong, AllReach, AllShown, SizeOf;
    if n.format == "zip" || n.format == "lha" || n.format == "lzx" {
      var ms := lib.expandArchive(n.format, data, 33554432, 1024).value;
      AllShownLeaves(lib, ms, 1, SizeOf(ms), |ms|, n.children);
      var inner := AllReach(lib, ms, 1, SizeOf(ms), |ms|);
      InfectedBelow(lib, name, inner.images);
      BelongBelow(lib, name, LeavesOfAll(n.children), InfectedOf(lib, inner.images));
      ContainerLeaves(n);
    } else {
      var images := FileReach(lib, name, data).value;
      if images == [] {
        NoLeaf(lib, n);
      } else {
        assert images == [Spot([n.name], images[0].image)];
        ImageLeaf(lib, n, images[0].image);
      }
    }
  }
}
