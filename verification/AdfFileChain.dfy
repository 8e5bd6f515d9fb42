/**
 What `AdfPayload.AnalyzeFilePayload` returns, for every image and header: the file a chain of
 well-formed metadata blocks describes, or a warning when there is no such chain.
 */
module AdfFileChain {
  import opened Common
  import opened Bytes
  import opened AdfImage
  import opened AdfPayload

  predicate GoodMeta(image: seq<Byte>, header: nat, number: nat) {
    number != 0 && MetadataFault(image, header, number) == None
  }

  function Next(image: seq<Byte>, header: nat, number: nat): nat
    requires GoodMeta(image, header, number)
  {
    BlockWord(image, number, EXTENSION_WORD)
  }

  /** Consecutive blocks are well formed and each extension word names the next. */
  ghost predicate Linked(image: seq<Byte>, header: nat, chain: seq<nat>) {
    chain == [] ||
    (&& GoodMeta(image, header, chain[0])
     && (|chain| > 1 ==> chain[1] == Next(image, header, chain[0]))
     && Linked(image, header, chain[1..]))
  }

  ghost predicate Avoids(chain: seq<nat>, seen: set<nat>) {
    forall i :: 0 <= i < |chain| ==> chain[i] !in seen
  }

  function Pointers(image: seq<Byte>, number: nat): (ps: seq<U32>)
    requires InImage(image, number) && Used(image, number) <= DATA_SLOTS
    ensures |ps| == Used(image, number)
  {
    seq(Used(image, number), i requires 0 <= i < Used(image, number) => Pointer(image, number, i))
  }

  ghost function ChainPointers(image: seq<Byte>, header: nat, chain: seq<nat>): seq<U32>
    requires Linked(image, header, chain)
  {
    if chain == [] then [] else Pointers(image, chain[0]) + ChainPointers(image, header, chain[1..])
  }

  ghost predicate AllGood(image: seq<Byte>, dosType: Byte, ps: seq<U32>) {
    forall i :: 0 <= i < |ps| ==> GoodData(image, dosType, ps[i])
  }

  ghost function Contents(image: seq<Byte>, dosType: Byte, ps: seq<U32>): seq<Byte>
    requires AllGood(image, dosType, ps)
  {
    if ps == [] then [] else Chunk(image, dosType, ps[0]) + Contents(image, dosType, ps[1..])
  }

  /** Metadata blocks from the header on, and leading data blocks of them that hold at least `size` bytes. */
  ghost predicate Evidence(image: seq<Byte>, dosType: Byte, header: nat, size: nat, chain: seq<nat>, ps: seq<U32>) {
    && chain != [] && chain[0] == header
    && Linked(image, header, chain) && Distinct(chain)
    && ps <= ChainPointers(image, header, chain)
    && AllGood(image, dosType, ps)
    && |Contents(image, dosType, ps)| >= size
  }

  lemma {:induction false} ContentsConcat(image: seq<Byte>, dosType: Byte, xs: seq<U32>, ys: seq<U32>)
    requires AllGood(image, dosType, xs) && AllGood(image, dosType, ys)
    ensures AllGood(image, dosType, xs + ys)
    ensures Contents(image, dosType, xs + ys) == Contents(image, dosType, xs) + Contents(image, dosType, ys)
    decreases |xs|
  {
    hide GoodData, Chunk;
    if xs == [] {
      assert xs + ys == ys;
    } else {
      assert (xs + ys)[1..] == xs[1..] + ys;
      ContentsConcat(image, dosType, xs[1..], ys);
    }
  }

  // ------------------------------------------------ one metadata block

  /** The slots from i on, when the good ones among them suffice. */
  lemma {:induction false} SlotsFill(image: seq<Byte>, dosType: Byte, number: nat, i: nat, size: nat,
                                     payload: seq<Byte>, blocks: nat, ps: seq<U32>)
    requires InImage(image, number) && i <= Used(image, number) <= DATA_SLOTS
    requires ps <= Pointers(image, number)[i..] && AllGood(image, dosType, ps)
    requires |payload| < size <= |payload + Contents(image, dosType, ps)|
    ensures var p := ReadSlots(image, dosType, number, i, size, payload, blocks);
            p.Filled? && p.data == (payload + Contents(image, dosType, ps))[..size]
    decreases |ps|
  {
    hide GoodData, DataFault, Chunk, InImage, Pointer;
    var longer := payload + Chunk(image, dosType, ps[0]);
    assert ps[0] == Pointers(image, number)[i];
    assert longer + Contents(image, dosType, ps[1..]) == payload + Contents(image, dosType, ps);
    if |longer| < size {
      SlotsFill(image, dosType, number, i + 1, size, longer, blocks + 1, ps[1..]);
    }
  }

  /** The slots from i on, when all of them are good and do not suffice. */
  lemma {:induction false} SlotsPass(image: seq<Byte>, dosType: Byte, number: nat, i: nat, size: nat,
                                     payload: seq<Byte>, blocks: nat)
    requires InImage(image, number) && i <= Used(image, number) <= DATA_SLOTS
    requires AllGood(image, dosType, Pointers(image, number)[i..])
    requires |payload + Contents(image, dosType, Pointers(image, number)[i..])| < size
    ensures var p := ReadSlots(image, dosType, number, i, size, payload, blocks);
            && p.More? && p.payload == payload + Contents(image, dosType, Pointers(image, number)[i..])
            && p.blocks == blocks + Used(image, number) - i
    decreases DATA_SLOTS - i
  {
    hide GoodData, DataFault, Chunk, InImage, Pointer;
    var ps := Pointers(image, number)[i..];
    if i < Used(image, number) {
      var longer := payload + Chunk(image, dosType, ps[0]);
      assert ps[1..] == Pointers(image, number)[i + 1..];
      assert longer + Contents(image, dosType, ps[1..]) == payload + Contents(image, dosType, ps);
      SlotsPass(image, dosType, number, i + 1, size, longer, blocks + 1);
    }
  }

  /** Conversely, what the slots from i on were when the loop did not fail. */
  lemma {:induction false} SlotsRead(image: seq<Byte>, dosType: Byte, number: nat, i: nat, size: nat,
                                     payload: seq<Byte>, blocks: nat) returns (ps: seq<U32>)
    requires InImage(image, number) && i <= Used(image, number) <= DATA_SLOTS
    requires |payload| < size
    requires !ReadSlots(image, dosType, number, i, size, payload, blocks).Failed?
    ensures ps <= Pointers(image, number)[i..] && AllGood(image, dosType, ps)
    ensures match ReadSlots(image, dosType, number, i, size, payload, blocks)
            case More(longer, _) =>
              ps == Pointers(image, number)[i..] && longer == payload + Contents(image, dosType, ps) && |longer| < size
            case Filled(data, _) =>
              |payload + Contents(image, dosType, ps)| >= size && data == (payload + Contents(image, dosType, ps))[..size]
            case Failed(_, _) => false
    decreases DATA_SLOTS - i
  {
    hide GoodData, DataFault, Chunk, InImage, Pointer;
    var all := Pointers(image, number)[i..];
    if i == Used(image, number) {
      ps := [];
    } else {
      var longer := payload + Chunk(image, dosType, all[0]);
      assert all[1..] == Pointers(image, number)[i + 1..];
      var rest := [];
      if |longer| < size {
        rest := SlotsRead(image, dosType, number, i + 1, size, longer, blocks + 1);
      }
      ps := [all[0]] + rest;
      assert ps[1..] == rest;
      assert longer + Contents(image, dosType, rest) == payload + Contents(image, dosType, ps);
    }
  }

  // ------------------------------------------------ the chain of metadata blocks

  lemma {:induction false} HeadIsNew(chain: seq<nat>, seen: set<nat>)
    requires chain != [] && Distinct(chain) && Avoids(chain, seen)
    ensures chain[0] !in seen && Distinct(chain[1..]) && Avoids(chain[1..], seen + {chain[0]})
  {
  }

  /** A suitable chain makes the reader fill the file from its data blocks. */
  lemma {:induction false} ChainFills(image: seq<Byte>, dosType: Byte, header: nat, chain: seq<nat>, seen: set<nat>,
                                      size: nat, payload: seq<Byte>, blocks: nat, ps: seq<U32>)
    requires chain != [] && Linked(image, header, chain) && Distinct(chain) && Avoids(chain, seen)
    requires ps <= ChainPointers(image, header, chain) && AllGood(image, dosType, ps)
    requires |payload| < size <= |payload + Contents(image, dosType, ps)|
    ensures var p := ReadChain(image, dosType, header, chain[0], seen, size, payload, blocks);
            p.Filled? && p.data == (payload + Contents(image, dosType, ps))[..size]
    decreases |chain|
  {
    hide GoodData, DataFault, MetadataFault, Chunk, InImage, Pointer, ReadSlots, Pointers, Contents, Distinct, Avoids;
    HeadIsNew(chain, seen);
    var mine := Pointers(image, chain[0]);
    assert Pointers(image, chain[0])[0..] == mine;
    if |ps| <= |mine| {
      assert ps <= mine;
      SlotsFill(image, dosType, chain[0], 0, size, payload, blocks, ps);
    } else {
      var rest := ps[|mine|..];
      assert ps == mine + rest && rest <= ChainPointers(image, header, chain[1..]);
      assert AllGood(image, dosType, mine) && AllGood(image, dosType, rest);
      ContentsConcat(image, dosType, mine, rest);
      var longer := payload + Contents(image, dosType, mine);
      assert longer + Contents(image, dosType, rest) == payload + Contents(image, dosType, ps);
      if |longer| >= size {
        SlotsFill(image, dosType, chain[0], 0, size, payload, blocks, mine);
      } else {
        SlotsPass(image, dosType, chain[0], 0, size, payload, blocks);
        assert |ChainPointers(image, header, chain[1..])| > 0;
        ChainFills(image, dosType, header, chain[1..], seen + {chain[0]}, size, longer, blocks + |mine|, rest);
      }
    }
  }

  /** Whenever the reader fills the file, it did so from such a chain. */
  lemma {:induction false} ChainRead(image: seq<Byte>, dosType: Byte, header: nat, current: nat, seen: set<nat>,
                                     size: nat, payload: seq<Byte>, blocks: nat)
    returns (chain: seq<nat>, ps: seq<U32>)
    requires |payload| < size
    requires ReadChain(image, dosType, header, current, seen, size, payload, blocks).Filled?
    ensures chain != [] && chain[0] == current
    ensures Linked(image, header, chain) && Distinct(chain) && Avoids(chain, seen)
    ensures ps <= ChainPointers(image, header, chain) && AllGood(image, dosType, ps)
    ensures |payload + Contents(image, dosType, ps)| >= size
    ensures ReadChain(image, dosType, header, current, seen, size, payload, blocks).data
         == (payload + Contents(image, dosType, ps))[..size]
    decreases |Unseen(image, seen)|
  {
    hide GoodData, DataFault, MetadataFault, Chunk, InImage, Pointer, ReadSlots, Pointers, Contents, Unseen;
    UnseenShrinks(image, seen, current);
    var mine := SlotsRead(image, dosType, current, 0, size, payload, blocks);
    assert Pointers(image, current)[0..] == Pointers(image, current);
    match ReadSlots(image, dosType, current, 0, size, payload, blocks)
    case Filled(data, _) =>
      chain, ps := [current], mine;
      assert ChainPointers(image, header, chain[1..]) == [];
      assert ChainPointers(image, header, chain) == Pointers(image, current);
    case More(longer, count) =>
      var next := BlockWord(image, current, EXTENSION_WORD);
      var links, more := ChainRead(image, dosType, header, next, seen + {current}, size, longer, count);
      chain, ps := [current] + links, mine + more;
      assert chain[1..] == links;
      ContentsConcat(image, dosType, mine, more);
      assert longer + Contents(image, dosType, more) == payload + Contents(image, dosType, ps);
      assert Distinct(chain) by {
        forall j | 1 <= j < |chain| ensures chain[j] != current { assert chain[j] == links[j - 1]; }
        forall i, j | 1 <= i < j < |chain| ensures chain[i] != chain[j] {
          assert chain[i] == links[i - 1] && chain[j] == links[j - 1];
        }
      }
  }

  // ------------------------------------------------ the theorems

  /**
   For every image and header: the payload is complete exactly when some chain of metadata blocks
   reaches enough well-formed data blocks, and then the data is what those blocks hold, cut to the
   recorded size, whichever such chain is named.
   */
  lemma {:induction false} CompleteExactly(image: seq<Byte>, header: nat, dosType: Byte)
    requires InImage(image, header) && BlockWord(image, header, BYTE_SIZE_WORD) > 0
    ensures var r := PayloadSpec(image, header, dosType);
            && (r.complete <==> exists chain, ps :: Evidence(image, dosType, header, r.size, chain, ps))
            && (forall chain, ps :: Evidence(image, dosType, header, r.size, chain, ps) ==>
                  r.data == Contents(image, dosType, ps)[..r.size])
  {
    hide ReadChain, Linked, ChainPointers, Contents, AllGood, BlockWord, InImage;
    var size := BlockWord(image, header, BYTE_SIZE_WORD);
    var p := ReadChain(image, dosType, header, header, {}, size, [], 0);
    if p.Filled? {
      var chain, ps := ChainRead(image, dosType, header, header, {}, size, [], 0);
      assert [] + Contents(image, dosType, ps) == Contents(image, dosType, ps);
      assert Evidence(image, dosType, header, size, chain, ps);
    }
    forall chain, ps | Evidence(image, dosType, header, size, chain, ps)
      ensures p.Filled? && p.data == Contents(image, dosType, ps)[..size]
    {
      assert [] + Contents(image, dosType, ps) == Contents(image, dosType, ps);
      ChainFills(image, dosType, header, chain, {}, size, [], 0, ps);
    }
  }

  /** Exactly one of completion and a warning, and a complete file has its recorded size. */
  lemma {:induction false} CompleteOrWarned(image: seq<Byte>, header: nat, dosType: Byte)
    ensures var r := PayloadSpec(image, header, dosType);
            && (r.complete <==> r.warning == None)
            && (r.complete ==> |r.data| == r.size)
            && (!r.complete ==> r.data == [])
  {
    hide ReadChain, BlockWord, InImage;
    if InImage(image, header) {
      var size := BlockWord(image, header, BYTE_SIZE_WORD);
      var p := ReadChain(image, dosType, header, header, {}, size, [], 0);
      if size > 0 && p.Filled? {
        var chain, ps := ChainRead(image, dosType, header, header, {}, size, [], 0);
      }
    }
  }
}
