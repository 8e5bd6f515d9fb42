/**
 The nested archive scan (internal/scanner/scanner.go) over one shared budget of expanded bytes and
 members.

 Format detection, decoding, hashing, image analysis and the bootblock database are the members of a
 `Library`; `Bounded` is what the limited decoders of internal/archive promise.
 */
module ArchiveScan {
  import opened Common
  import opened Bytes
  import opened Statements
  import HunkFile

  type Data = seq<Byte>

  const MAX_EXPANDED := 32 * 1024 * 1024
  const MAX_MEMBERS := 1024
  const MAX_DEPTH := 2
  const ARCHIVES := {"zip", "lha", "lzx"}
  const PACKED_DISKS := {"adz", "dms"}
  const FLUX_IMAGES := {"ipf", "fdi"}
  const EXECUTABLE := "amiga-hunk-executable"
  const MALICIOUS := "known-malicious"

  datatype Member = Member(name: string, data: Data)

  /** An entry of the bootblock database. */
  datatype Match = Match(status: string, name: string, family: string, source: string)

  /** `adf.Analyze` and `AnalyzeFilesystemBytes`: an error, or the bootblock's hash and the listing, if any. */
  datatype Image = Unreadable | Readable(bootblockSha: string, filesystem: Option<string>)

  datatype Library = Library(
    detect: (string, Data) -> string,
    sha: Data -> string,
    expandArchive: (string, Data, int, int) -> Option<seq<Member>>,
    expandDisk: (string, Data, int) -> Option<Data>,
    derive: (string, Data) -> Option<Data>,
    analyze: Data -> Image,
    lookup: string -> Option<Match>)

  /** The listing of an archive: what it expands to, and the detected format of each member. */
  datatype Archive = Archive(expanded: nat, members: nat, formats: seq<string>)

  /** `Blocked` (no budget left) and `ReserveFailed` (decoded but not reserved) may share one text in the source. */
  datatype ScanError = BadImage | Blocked | DecodeFailed | ReserveFailed | TooDeep

  /** `MemberResult`; also `Result`, whose members are then the children. */
  datatype Node = Node(
    name: string,
    size: nat,
    sha: string,
    format: string,
    infected: bool,
    detection: string,
    error: Option<ScanError>,
    archive: Option<Archive>,
    children: seq<Node>,
    bootblockSha: Option<string>,
    filesystem: Option<string>,
    hit: Option<Match>,
    hunk: Option<HunkFile.Analysis>)

  function TotalSize(ms: seq<Member>): nat {
    if ms == [] then 0 else |ms[0].data| + TotalSize(ms[1..])
  }

  /** The limited decoders keep within the limits they are given. */
  ghost predicate Bounded(lib: Library) {
    && (forall f, d, bytes, members ::
          lib.expandArchive(f, d, bytes, members).Some? ==>
            && TotalSize(lib.expandArchive(f, d, bytes, members).value) <= bytes
            && |lib.expandArchive(f, d, bytes, members).value| <= members)
    && (forall f, d, bytes :: lib.expandDisk(f, d, bytes).Some? ==> |lib.expandDisk(f, d, bytes).value| <= bytes)
  }

  /** File and bootblock hashes are SHA-256 digests. */
  ghost predicate Hashing(lib: Library) {
    && (forall d :: IsSha256(lib.sha(d)))
    && (forall d :: lib.analyze(d).Readable? ==> IsSha256(lib.analyze(d).bootblockSha))
  }

  // ------------------------------------------------ the budget

  /** Bytes and members handed out so far. */
  datatype Budget = Budget(expanded: int, members: int)

  /** `remainingArchiveBudget` answers `ok`. */
  predicate HasRoom(b: Budget) {
    0 <= b.expanded < MAX_EXPANDED && 0 <= b.members < MAX_MEMBERS
  }

  /** `reserveArchiveBudget` answers `true`. */
  predicate Fits(b: Budget, expanded: int, members: int) {
    && 0 <= expanded && 0 <= members
    && expanded <= MAX_EXPANDED - b.expanded && members <= MAX_MEMBERS - b.members
  }

  function Plus(b: Budget, expanded: int, members: int): Budget {
    Budget(b.expanded + expanded, b.members + members)
  }

  // ------------------------------------------------ one member

  predicate IsMalicious(hit: Option<Match>) {
    hit.Some? && hit.value.status == MALICIOUS
  }

  function Unscanned(lib: Library, m: Member): Node {
    Node(m.name, |m.data|, lib.sha(m.data), lib.detect(m.name, m.data), false, "", None, None, [], None, None, None, None)
  }

  /** `analyzeADFBytes` followed by `copyADFResult`. */
  function WithImage(lib: Library, n: Node, image: Data): Node {
    match lib.analyze(image)
    case Unreadable => n.(error := Some(BadImage))
    case Readable(sha, filesystem) =>
      var hit := lib.lookup(sha);
      n.(bootblockSha := Some(sha), filesystem := filesystem, hit := hit, infected := IsMalicious(hit),
         detection := if IsMalicious(hit) then "bootblock:" + hit.value.name else "")
  }

  datatype Unpacked = NotUnpacked(why: ScanError) | Unpacked(members: seq<Member>, left: Budget)

  /** `decodeArchiveLimited` and the reservation after it. */
  function Unpack(lib: Library, n: Node, data: Data, b: Budget): Unpacked {
    if !HasRoom(b) then NotUnpacked(DecodeFailed)
    else
      match lib.expandArchive(n.format, data, MAX_EXPANDED - b.expanded, MAX_MEMBERS - b.members)
      case None => NotUnpacked(DecodeFailed)
      case Some(ms) =>
        if Fits(b, TotalSize(ms), |ms|) then Unpacked(ms, Plus(b, TotalSize(ms), |ms|))
        else NotUnpacked(ReserveFailed)
  }

  datatype Scanned = Scanned(node: Node, left: Budget)
  datatype ScannedAll = ScannedAll(nodes: seq<Node>, left: Budget)

  /** The `adz` and `dms` cases: one packed disk image, counted as one member. */
  function DiskSpec(lib: Library, n: Node, data: Data, b: Budget): Scanned {
    if !HasRoom(b) then Scanned(n.(error := Some(Blocked)), b)
    else
      match lib.expandDisk(n.format, data, MAX_EXPANDED - b.expanded)
      case None => Scanned(n.(error := Some(DecodeFailed)), b)
      case Some(image) =>
        if Fits(b, |image|, 1) then
          Scanned(WithImage(lib, n.(archive := Some(Archive(|image|, 1, ["adf"]))), image), Plus(b, |image|, 1))
        else Scanned(n.(error := Some(ReserveFailed)), b)
  }

  /** `propagateChildVerdict`: the first infected child decides. */
  function Propagated(n: Node, children: seq<Node>): Node
    decreases |children|
  {
    if children == [] then n
    else if children[0].infected then
      n.(infected := true, detection := "archive-member:" + children[0].name + ":" + children[0].detection)
    else Propagated(n, children[1..])
  }

  function Levels(depth: nat): nat {
    if depth < MAX_DEPTH then MAX_DEPTH - depth else 0
  }

  /** One round of the loop of `scanArchiveMembersDepth` with `scanMemberPayload`. */
  function MemberSpec(lib: Library, m: Member, depth: nat, b: Budget): Scanned
    decreases Levels(depth), 0
  {
    var n := Unscanned(lib, m);
    if n.format == "adf" then Scanned(WithImage(lib, n, m.data), b)
    else if n.format in PACKED_DISKS then DiskSpec(lib, n, m.data, b)
    else if n.format in ARCHIVES then
      if depth >= MAX_DEPTH then Scanned(n.(error := Some(TooDeep)), b)
      else
        match Unpack(lib, n, m.data, b)
        case NotUnpacked(why) => Scanned(n.(error := Some(why)), b)
        case Unpacked(ms, left) =>
          var inner := MembersSpec(lib, ms, depth + 1, left);
          Scanned(Container(n, ms, inner.nodes), inner.left)
    else if n.format == EXECUTABLE then Scanned(n.(hunk := Some(HunkFile.AnalyzeSpec(m.data))), b)
    else Scanned(n, b)
  }

  function Formats(children: seq<Node>): (formats: seq<string>)
    ensures |formats| == |children| && forall i :: 0 <= i < |children| ==> formats[i] == children[i].format
  {
    seq(|children|, i requires 0 <= i < |children| => children[i].format)
  }

  function Container(n: Node, ms: seq<Member>, children: seq<Node>): Node {
    Propagated(n.(archive := Some(Archive(TotalSize(ms), |ms|, Formats(children))), children := children), children)
  }

  function MembersSpec(lib: Library, ms: seq<Member>, depth: nat, b: Budget): ScannedAll
    decreases Levels(depth), |ms| + 1
  {
    if ms == [] then ScannedAll([], b)
    else
      var first := MemberSpec(lib, ms[0], depth, b);
      var rest := MembersSpec(lib, ms[1..], depth, first.left);
      ScannedAll([first.node] + rest.nodes, rest.left)
  }

  /** `ScanFile` once the file is read; `None` is an error.  The budget starts with the outer archive. */
  function FileSpec(lib: Library, name: string, data: Data): Option<Scanned> {
    var m := Member(name, data);
    var n, b := Unscanned(lib, m), Budget(0, 0);
    if n.format == "adf" then Whole(WithImage(lib, n, data), b)
    else if n.format in PACKED_DISKS then
      match lib.expandDisk(n.format, data, MAX_EXPANDED)
      case None => None
      case Some(image) =>
        Whole(WithImage(lib, n.(archive := Some(Archive(|image|, 1, ["adf"]))), image), Budget(|image|, 1))
    else if n.format in FLUX_IMAGES then
      match lib.derive(n.format, data)
      case None => None
      case Some(image) => if image == [] then Some(Scanned(n, b)) else Whole(WithImage(lib, n, image), b)
    else if n.format in ARCHIVES then
      match lib.expandArchive(n.format, data, MAX_EXPANDED, MAX_MEMBERS)
      case None => None
      case Some(ms) =>
        var inner := MembersSpec(lib, ms, 1, Budget(TotalSize(ms), |ms|));
        Some(Scanned(Container(n, ms, inner.nodes), inner.left))
    else if n.format == EXECUTABLE then Some(Scanned(n.(hunk := Some(HunkFile.AnalyzeSpec(data))), b))
    else Some(Scanned(n, b))
  }

  /** At the top an image that cannot be analysed fails the scan. */
  function Whole(n: Node, b: Budget): Option<Scanned> {
    if n.error.Some? then None else Some(Scanned(n, b))
  }

  // ------------------------------------------------ the code

  /** `archiveBudget`, shared by every level of one scan. */
  class ArchiveBudget {
    var expanded: int
    var members: int

    constructor (e: int, m: int)
      ensures expanded == e && members == m
    {
      expanded, members := e, m;
    }

    ghost function View(): Budget
      reads this
    {
      Budget(expanded, members)
    }

    /** `remainingArchiveBudget`. */
    method Remaining() returns (bytes: int, count: int, ok: bool)
      ensures ok == HasRoom(View())
      ensures ok ==> bytes == MAX_EXPANDED - expanded && count == MAX_MEMBERS - members
    {
      if expanded < 0 || members < 0 {
        return 0, 0, false;
      }
      bytes, count := MAX_EXPANDED - expanded, MAX_MEMBERS - members;
      if bytes <= 0 || count <= 0 {
        return 0, 0, false;
      }
      ok := true;
    }

    /** `reserveArchiveBudget`: all or nothing. */
    method Reserve(e: int, m: int) returns (ok: bool)
      modifies this
      ensures ok == Fits(old(View()), e, m)
      ensures View() == if ok then Plus(old(View()), e, m) else old(View())
    {
      if e < 0 || m < 0 {
        return false;
      }
      if e > MAX_EXPANDED - expanded || m > MAX_MEMBERS - members {
        return false;
      }
      expanded, members := expanded + e, members + m;
      ok := true;
    }
  }

  method SumSizes(ms: seq<Member>) returns (total: nat)
    ensures total == TotalSize(ms)
  {
    total := 0;
    var i := 0;
    while i < |ms|
      invariant 0 <= i <= |ms|
      invariant total + TotalSize(ms[i..]) == TotalSize(ms)
    {
      assert ms[i..][0] == ms[i] && ms[i..][1..] == ms[i + 1..];
      total := total + |ms[i].data|;
      i := i + 1;
    }
  }

  /** `propagateChildVerdict` and `propagateMemberVerdict`. */
  method Propagate(n: Node) returns (r: Node)
    ensures r == Propagated(n, n.children)
  {
    var i := 0;
    while i < |n.children|
      invariant 0 <= i <= |n.children|
      invariant Propagated(n, n.children) == Propagated(n, n.children[i..])
    {
      var child := n.children[i];
      assert n.children[i..][0] == child && n.children[i..][1..] == n.children[i + 1..];
      if child.infected {
        return n.(infected := true, detection := "archive-member:" + child.name + ":" + child.detection);
      }
      i := i + 1;
    }
    r := n;
  }

  /** `scanArchiveMembersDepth`. */
  method ScanArchiveMembersDepth(lib: Library, ms: seq<Member>, depth: nat, budget: ArchiveBudget)
    returns (results: seq<Node>)
    modifies budget
    ensures ScannedAll(results, budget.View()) == MembersSpec(lib, ms, depth, old(budget.View()))
    decreases Levels(depth), |ms| + 1
  {
    hide MemberSpec;
    results := [];
    ghost var all := MembersSpec(lib, ms, depth, budget.View());
    var i := 0;
    while i < |ms|
      invariant 0 <= i <= |ms|
      invariant results + MembersSpec(lib, ms[i..], depth, budget.View()).nodes == all.nodes
      invariant MembersSpec(lib, ms[i..], depth, budget.View()).left == all.left
    {
      assert ms[i..][0] == ms[i] && ms[i..][1..] == ms[i + 1..];
      ghost var before := budget.View();
      var node := ScanMemberPayload(lib, ms[i], depth, budget);
      Reassociate(results, node, MembersSpec(lib, ms[i + 1..], depth, budget.View()).nodes);
      results := results + [node];
      i := i + 1;
    }
  }

  lemma {:induction false} Reassociate(a: seq<Node>, n: Node, b: seq<Node>)
    ensures a + ([n] + b) == (a + [n]) + b
  {
  }

  /** `scanMemberPayload`. */
  method ScanMemberPayload(lib: Library, m: Member, depth: nat, budget: ArchiveBudget) returns (node: Node)
    modifies budget
    ensures Scanned(node, budget.View()) == MemberSpec(lib, m, depth, old(budget.View()))
    decreases Levels(depth), 0
  {
    hide WithImage, Propagated, TotalSize, MembersSpec, HunkFile.AnalyzeSpec;
    node := Unscanned(lib, m);
    if node.format == "adf" {
      node := WithImage(lib, node, m.data);
    } else if node.format in PACKED_DISKS {
      node := ScanDisk(lib, node, m.data, budget);
    } else if node.format in ARCHIVES {
      if depth >= MAX_DEPTH {
        node := node.(error := Some(TooDeep));
        return;
      }
      var bytes, count, ok := budget.Remaining();
      var expanded := if ok then lib.expandArchive(node.format, m.data, bytes, count) else None;
      if expanded == None {
        node := node.(error := Some(DecodeFailed));
        return;
      }
      var ms := expanded.value;
      var total := SumSizes(ms);
      var reserved := budget.Reserve(total, |ms|);
      if !reserved {
        node := node.(error := Some(ReserveFailed));
        return;
      }
      var children := ScanArchiveMembersDepth(lib, ms, depth + 1, budget);
      node := Propagate(node.(archive := Some(Archive(total, |ms|, Formats(children))), children := children));
    } else if node.format == EXECUTABLE {
      var hunk := HunkFile.Analyze(m.data);
      node := node.(hunk := Some(hunk));
    }
  }

  method ScanDisk(lib: Library, n: Node, data: Data, budget: ArchiveBudget) returns (node: Node)
    modifies budget
    ensures Scanned(node, budget.View()) == DiskSpec(lib, n, data, old(budget.View()))
  {
    hide WithImage;
    node := n;
    var bytes, count, ok := budget.Remaining();
    if !ok || count < 1 {
      node := node.(error := Some(Blocked));
      return;
    }
    var expanded := lib.expandDisk(n.format, data, bytes);
    if expanded == None {
      node := node.(error := Some(DecodeFailed));
      return;
    }
    var image := expanded.value;
    var reserved := budget.Reserve(|image|, 1);
    if !reserved {
      node := node.(error := Some(ReserveFailed));
      return;
    }
    node := WithImage(lib, node.(archive := Some(Archive(|image|, 1, ["adf"]))), image);
  }

  /** The archive case of `ScanFile`: the budget starts with what the outer archive expanded to. */
  method ScanArchiveFile(lib: Library, name: string, data: Data) returns (result: Option<Node>)
    requires lib.detect(name, data) in ARCHIVES
    ensures result == match FileSpec(lib, name, data) case None => None case Some(s) => Some(s.node)
  {
    hide MembersSpec, Propagated, TotalSize, WithImage;
    var node := Unscanned(lib, Member(name, data));
    var expanded := lib.expandArchive(node.format, data, MAX_EXPANDED, MAX_MEMBERS);
    if expanded == None {
      return None;
    }
    var total := SumSizes(expanded.value);
    var budget := new ArchiveBudget(total, |expanded.value|);
    var children := ScanArchiveMembersDepth(lib, expanded.value, 1, budget);
    node := Propagate(node.(archive := Some(Archive(total, |expanded.value|, Formats(children))), children := children));
    return Some(node);
  }
}
