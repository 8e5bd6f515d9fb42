/**
 The traversal of any disk, corrupt or not, block by block: every hash slot of a directory is followed in order, and along a chain
 every block is looked at in order, whatever is wrong with the ones before it, until the chain ends, loops or leaves the disk.
 */
module AdfWalk {
  import opened Common
  import opened Bytes
  import opened AdfBytes
  import opened AdfImage
  import opened AdfFilesystem
  import Paths

  // ------------------------------------------------ one chain

  /** Different blocks of the disk, each naming the next at byte 496. */
  ghost predicate Linked(image: seq<Byte>, first: nat, ns: seq<nat>) {
    && (forall i :: 0 <= i < |ns| ==> ns[i] != 0 && Inside(image, ns[i]))
    && (forall i, j :: 0 <= i < j < |ns| ==> ns[i] != ns[j])
    && (ns != [] ==> ns[0] == first)
    && (forall i :: 0 < i < |ns| ==> Follows(image, ns, i))
  }

  predicate Follows(image: seq<Byte>, ns: seq<nat>, i: nat)
    requires 0 < i < |ns|
  {
    Inside(image, ns[i - 1]) && ns[i] == Number(image, 512 * ns[i - 1] + 496)
  }

  /** What the last of them names. */
  function Behind(image: seq<Byte>, first: nat, ns: seq<nat>): nat {
    if ns == [] then first
    else if Inside(image, ns[|ns| - 1]) then Number(image, 512 * ns[|ns| - 1] + 496) else 0
  }

  /** The chain goes no further, and why. */
  predicate GoesNoFurther(image: seq<Byte>, ns: seq<nat>, n: nat) {
    n == 0 || n in ns || !Inside(image, n)
  }

  function EndOfChain(st: Walk, ns: seq<nat>, n: nat): Walk {
    if n == 0 then st
    else if n in ns then st.(warnings := st.warnings + [HashChainLoop(n)])
    else st.(warnings := st.warnings + [EntryOutsideImage(n)])
  }

  /** Looking at blocks one after another. */
  ghost function Visits(image: seq<Byte>, dosType: Byte, parent: Paths.Name, depth: nat, ns: seq<nat>, st: Walk): Walk
    requires depth <= 64 && forall i :: 0 <= i < |ns| ==> Inside(image, ns[i])
    decreases |ns|
  {
    if ns == [] then st
    else
      assert InImage(image, ns[|ns| - 1]) by { BlockWordIsNumber(image, ns[|ns| - 1], 0); }
      Visit(image, dosType, parent, depth, ns[|ns| - 1], Visits(image, dosType, parent, depth, ns[..|ns| - 1], st))
  }

  ghost function Elements(ns: seq<nat>): set<nat> {
    set n | n in ns
  }

  lemma {:induction false} LinkedFront(image: seq<Byte>, first: nat, ns: seq<nat>)
    requires Linked(image, first, ns) && ns != []
    ensures Linked(image, first, ns[..|ns| - 1]) && ns[|ns| - 1] == Behind(image, first, ns[..|ns| - 1])
    ensures Inside(image, ns[|ns| - 1]) && ns[|ns| - 1] != 0 && ns[|ns| - 1] !in ns[..|ns| - 1]
  {
    hide Number;
    var front := ns[..|ns| - 1];
    forall i | 0 < i < |front| ensures Follows(image, front, i) {
      assert Follows(image, ns, i);
    }
    assert |ns| > 1 ==> Follows(image, ns, |ns| - 1);
  }

  lemma {:induction false} LinkedMore(image: seq<Byte>, first: nat, ns: seq<nat>)
    requires Linked(image, first, ns) && !GoesNoFurther(image, ns, Behind(image, first, ns))
    ensures Linked(image, first, ns + [Behind(image, first, ns)])
  {
    hide Number;
    var longer := ns + [Behind(image, first, ns)];
    forall i | 0 < i < |longer| ensures Follows(image, longer, i) {
      if i < |ns| { assert Follows(image, ns, i); }
    }
  }

  lemma {:induction false} ChainSoFar(image: seq<Byte>, dosType: Byte, parent: Paths.Name, depth: nat, first: nat, ns: seq<nat>, st: Walk)
    requires depth <= 64 && Linked(image, first, ns)
    ensures WalkChain(image, dosType, parent, depth, first, {}, st)
         == WalkChain(image, dosType, parent, depth, Behind(image, first, ns), Elements(ns), Visits(image, dosType, parent, depth, ns, st))
    decreases |ns|
  {
    hide Visit, Number, BlockWord, Unseen, InImage;
    if ns == [] {
      assert Elements([]) == {};
    } else {
      var front, n := ns[..|ns| - 1], ns[|ns| - 1];
      LinkedFront(image, first, ns);
      ChainSoFar(image, dosType, parent, depth, first, front, st);
      BlockWordIsNumber(image, n, 124);
      UnseenShrinks(image, Elements(front), n);
      assert n !in Elements(front);
      assert Elements(ns) == Elements(front) + {n} by { assert ns == front + [n]; }
    }
  }

  /** Following a chain is looking at its blocks in order, and then telling why it ends, if it does not end in 0. */
  lemma {:induction false} ChainByBlocks(image: seq<Byte>, dosType: Byte, parent: Paths.Name, depth: nat, first: nat, ns: seq<nat>, st: Walk)
    requires depth <= 64 && Linked(image, first, ns) && GoesNoFurther(image, ns, Behind(image, first, ns))
    ensures WalkChain(image, dosType, parent, depth, first, {}, st)
         == EndOfChain(Visits(image, dosType, parent, depth, ns, st), ns, Behind(image, first, ns))
  {
    hide Visit, Number, BlockWord, Unseen, Visits;
    ChainSoFar(image, dosType, parent, depth, first, ns, st);
    var n := Behind(image, first, ns);
    if n != 0 && n !in ns {
      assert !InImage(image, n) by { InsideIsInImage(image, n); }
    }
  }

  lemma {:induction false} InsideIsInImage(image: seq<Byte>, n: nat)
    ensures Inside(image, n) <==> InImage(image, n)
  {
  }

  /** Every chain is such a list of blocks. */
  lemma {:induction false} ChainEnds(image: seq<Byte>, first: nat, ns: seq<nat>) returns (all: seq<nat>)
    requires Linked(image, first, ns)
    ensures ns <= all && Linked(image, first, all) && GoesNoFurther(image, all, Behind(image, first, all))
    decreases |Unseen(image, Elements(ns))|
  {
    hide Number, Unseen;
    var n := Behind(image, first, ns);
    if GoesNoFurther(image, ns, n) {
      all := ns;
    } else {
      InsideIsInImage(image, n);
      UnseenShrinks(image, Elements(ns), n);
      assert Elements(ns + [n]) == Elements(ns) + {n};
      LinkedMore(image, first, ns);
      all := ChainEnds(image, first, ns + [n]);
    }
  }

  // ------------------------------------------------ one directory

  /** The first k slots of a directory, followed one after another. */
  ghost function Slotted(image: seq<Byte>, dosType: Byte, dir: nat, parent: Paths.Name, depth: nat, k: nat, st: Walk): Walk
    requires depth <= 64 && k <= 72 && Inside(image, dir)
    decreases k
  {
    if k == 0 then st
    else WalkChain(image, dosType, parent, depth, Number(image, 512 * dir + 24 + 4 * (k - 1)), {},
                   Slotted(image, dosType, dir, parent, depth, k - 1, st))
  }

  lemma {:induction false} SlotsSoFar(image: seq<Byte>, dosType: Byte, dir: nat, parent: Paths.Name, depth: nat, k: nat, size: nat, st: Walk)
    requires depth <= 64 && k <= size <= 72 && Inside(image, dir)
    ensures InImage(image, dir)
    ensures WalkSlots(image, dosType, dir, parent, depth, 0, size, st)
         == WalkSlots(image, dosType, dir, parent, depth, k, size, Slotted(image, dosType, dir, parent, depth, k, st))
    decreases k
  {
    hide WalkChain, Number, BlockWord;
    BlockWordIsNumber(image, dir, 0);
    if k > 0 {
      SlotsSoFar(image, dosType, dir, parent, depth, k - 1, size, st);
      BlockWordIsNumber(image, dir, 6 + (k - 1));
    }
  }

  /**
   Walking a directory block: too deep or with an impossible table size it is one warning; otherwise all slots that the
   table size at byte 12 announces are followed, from byte 24 on.
   */
  lemma {:induction false} DirectoryBySlots(image: seq<Byte>, dosType: Byte, dir: nat, parent: Paths.Name, depth: nat, st: Walk)
    requires Inside(image, dir)
    ensures InImage(image, dir)
    ensures var entered := st.(expanded := st.expanded + [dir]);
            var size := Number(image, 512 * dir + 12);
            WalkDirectory(image, dosType, dir, parent, depth, st) ==
            if depth > 64 then entered.(warnings := entered.warnings + [DepthLimit])
            else if size == 0 || size > 72 then entered.(warnings := entered.warnings + [InvalidHashSize(size)])
            else Slotted(image, dosType, dir, parent, depth, size, entered)
  {
    hide WalkChain, Number, BlockWord, Slotted;
    BlockWordIsNumber(image, dir, 3);
    var size := Number(image, 512 * dir + 12);
    if depth <= 64 && 0 < size <= 72 {
      SlotsSoFar(image, dosType, dir, parent, depth, size, size, st.(expanded := st.expanded + [dir]));
    }
  }
}
