/** The chain of block headers (src/BlockChain.cpp): a map of headers, an index of the accepted ones, and the walk that
    numbers new headers. */
module BlockChain {
  import opened Bytes
  import opened Serialize
  import opened Records
  import opened Headers

  type Blocks = map<Hash, BlockHeader>

  /** `hashes` refers to entries of `blocks`. */
  datatype Chain = Chain(blocks: Blocks, hashes: seq<Hash>, lastState: nat)

  function Genesis(): (h: Hash)
    ensures |h| == 32
  {
    seq(32, _ => 0)
  }

  function GenesisHeader(): BlockHeader
  {
    BlockHeader(Genesis(), [], [], [], 0, 0, 0, 0, 0, FilePosition([], 0), ([], [], []), Some(0))
  }

  /** What clear leaves; the last state block number is not reset. */
  function Cleared(lastState: nat): Chain { Chain(map[Genesis() := GenesisHeader()], [Genesis()], lastState) }

  // ----- the walk -----

  function Unnumbered(blocks: Blocks): set<Hash> { set h | h in blocks && blocks[h].number.None? }

  function Numbered(blocks: Blocks, h: Hash, n: nat): Blocks
    requires h in blocks
  {
    blocks[h := blocks[h].(number := Some(n))]
  }

  lemma NumberingShrinks(blocks: Blocks, h: Hash, n: nat)
    requires h in blocks && blocks[h].number.None?
    ensures |Unnumbered(Numbered(blocks, h, n))| < |Unnumbered(blocks)|
  {
    assert Unnumbered(blocks) == Unnumbered(Numbered(blocks, h, n)) + {h};
  }

  /** The walk threw at an empty parent hash, or stopped at a numbered block, which is one of the walked blocks if a
      parent was missing. */
  datatype Walked = Threw(blocks: Blocks) | Stopped(blocks: Blocks, path: seq<Hash>, number: nat)

  /** Follows parents and gives each walked block a temporary number. */
  function Walk(blocks: Blocks, h: Hash, path: seq<Hash>): (r: Walked)
    requires h in blocks
    decreases |Unnumbered(blocks)|
  {
    if blocks[h].number.Some? then Stopped(blocks, path, blocks[h].number.value)
    else
      var blocks', path' := Numbered(blocks, h, |path|), path + [h];
      var prev := blocks[h].prevHash;
      if prev == [] then Threw(blocks')
      else if prev !in blocks then Stopped(blocks', path', |path|)
      else
        NumberingShrinks(blocks, h, |path|);
        Walk(blocks', prev, path')
  }

  function Max(a: nat, b: nat): nat { if a >= b then a else b }

  function Raised(c: Chain, h: Hash, n: nat): nat
    requires h in c.blocks
  {
    if IsStateBlock(c.blocks[h]) then Max(n, c.lastState) else c.lastState
  }

  ghost predicate PathIn(blocks: Blocks, path: seq<Hash>, all: nat)
  {
    forall i :: 0 <= i < |path| ==>
      path[i] in blocks && blocks[path[i]].number.Some? && blocks[path[i]].number.value <= all
  }

  ghost predicate NoRepeats(path: seq<Hash>) { forall i, j :: 0 <= i < j < |path| ==> path[i] != path[j] }

  /** Turns temporary numbers into final ones, oldest block first; gives up at one that does not extend the index. */
  function Assign(c: Chain, path: seq<Hash>, all: nat): (r: (Chain, Option<nat>))
    requires PathIn(c.blocks, path, all) && NoRepeats(path)
    decreases |path|
  {
    if path == [] then (c, Some(all))
    else
      var h := path[|path| - 1];
      var n := all - c.blocks[h].number.value;
      var numbered := Chain(Numbered(c.blocks, h, n), c.hashes, Raised(c, h, n));
      if n != |c.hashes| then (numbered, None)
      else Assign(numbered.(hashes := c.hashes + [h]), path[..|path| - 1], all)
  }

  lemma {:induction false} WalkPath(blocks: Blocks, h: Hash, path: seq<Hash>)
    requires h in blocks && PathIn(blocks, path, |path|) && NoRepeats(path)
    ensures var w := Walk(blocks, h, path);
            w.Stopped? ==> PathIn(w.blocks, w.path, |w.path|) && NoRepeats(w.path)
    decreases |Unnumbered(blocks)|
  {
    if blocks[h].number.None? {
      var blocks', path' := Numbered(blocks, h, |path|), path + [h];
      assert forall i :: 0 <= i < |path'| ==> i < |path| ==> path'[i] == path[i];
      var prev := blocks[h].prevHash;
      if prev != [] && prev in blocks {
        NumberingShrinks(blocks, h, |path|);
        WalkPath(blocks', prev, path');
      }
    }
  }

  lemma PathBound(blocks: Blocks, path: seq<Hash>, a: nat, b: nat)
    requires PathIn(blocks, path, a) && a <= b
    ensures PathIn(blocks, path, b)
  {
  }

  /** calcBlockchain: the new chain and the number of the last block, none if the blocks do not extend the index. */
  function Calc(c: Chain, last: Hash): (r: (Chain, Result<Option<nat>>))
  {
    if last == [] || last !in c.blocks then (c, Thrown)
    else
      var w := Walk(c.blocks, last, []);
      if w.Threw? then (c.(blocks := w.blocks), Thrown)
      else
        WalkPath(c.blocks, last, []);
        PathBound(w.blocks, w.path, |w.path|, |w.path| + w.number);
        var (c', n) := Assign(c.(blocks := w.blocks), w.path, |w.path| + w.number);
        (c', Returned(n))
  }

  function AddWithoutCalc(c: Chain, b: BlockHeader): Chain
  {
    if b.hash in c.blocks then c else c.(blocks := c.blocks[b.hash := b])
  }

  function RemoveBlock(c: Chain, h: Hash): Chain { c.(blocks := c.blocks - {h}) }

  function AddBlock(c: Chain, b: BlockHeader): (r: (Chain, Result<Option<nat>>))
  {
    if b.hash == [] || b.hash in c.blocks then (c, Thrown)
    else
      var (c', result) := Calc(AddWithoutCalc(c, b), b.hash);
      if result.Thrown? || result.value.None? then (RemoveBlock(c', b.hash), result) else (c', result)
  }

  // ----- the object -----

  class BlockChain {
    var blocks: Blocks
    var hashes: seq<Hash>
    var lastStateBlock: nat

    ghost function Value(): Chain
      reads this
    {
      Chain(blocks, hashes, lastStateBlock)
    }

    constructor ()
      ensures Value() == Cleared(0)
    {
      blocks, hashes, lastStateBlock := map[Genesis() := GenesisHeader()], [Genesis()], 0;
    }

    method Clear()
      modifies this
      ensures Value() == Cleared(old(lastStateBlock))
    {
      hashes, blocks := [], map[];
      blocks := blocks[Genesis() := GenesisHeader()];
      hashes := hashes + [Genesis()];
    }

    method Add(block: BlockHeader) returns (thrown: bool, exist: bool)
      modifies this
      ensures thrown == (block.hash == [])
      ensures !thrown ==> exist == (block.hash in old(blocks)) && Value() == AddWithoutCalc(old(Value()), block)
      ensures thrown ==> Value() == old(Value())
    {
      exist := false;
      if block.hash == [] { return true, false; }
      exist := block.hash in blocks;
      if !exist { blocks := blocks[block.hash := block]; }
      thrown := false;
    }

    /** Numbers the walked blocks temporarily. */
    method WalkBack(lastHash: Hash) returns (thrown: bool, path: seq<Hash>, number: nat)
      requires lastHash in blocks
      modifies this`blocks
      ensures Walk(old(blocks), lastHash, []) == if thrown then Threw(blocks) else Stopped(blocks, path, number)
    {
      hide Unnumbered;
      path, thrown, number := [], false, 0;
      var h := lastHash;
      while blocks[h].number.None?
        invariant h in blocks && Walk(blocks, h, path) == Walk(old(blocks), lastHash, [])
        decreases |Unnumbered(blocks)|
      {
        NumberingShrinks(blocks, h, |path|);
        blocks := blocks[h := blocks[h].(number := Some(|path|))];
        path := path + [h];
        var prev := blocks[h].prevHash;
        if prev == [] { return true, path, 0; }
        if prev !in blocks { break; }
        h := prev;
      }
      number := blocks[h].number.value;
    }

    method CalcBlockchain(lastHash: Hash) returns (result: Result<Option<nat>>)
      modifies this
      ensures (Value(), result) == Calc(old(Value()), lastHash)
    {
      hide Walk;
      if lastHash == [] || lastHash !in blocks { return Thrown; }
      WalkPath(blocks, lastHash, []);
      var thrown, path, number := WalkBack(lastHash);
      if thrown { return Thrown; }
      PathBound(blocks, path, |path|, |path| + number);
      var last := AssignNumbers(path, |path| + number);
      return Returned(last);
    }

    /** Turns the temporary numbers into final ones, oldest block first. */
    method AssignNumbers(path: seq<Hash>, all: nat) returns (last: Option<nat>)
      requires PathIn(blocks, path, all) && NoRepeats(path)
      modifies this
      ensures (Value(), last) == Assign(old(Value()), path, all)
    {
      ghost var start := Value();
      var left := path;
      while left != []
        invariant PathIn(blocks, left, all) && NoRepeats(left)
        invariant Assign(Value(), left, all) == Assign(start, path, all)
        decreases |left|
      {
        var h := left[|left| - 1];
        var n := all - blocks[h].number.value;
        blocks := blocks[h := blocks[h].(number := Some(n))];
        if IsStateBlock(blocks[h]) { lastStateBlock := Max(n, lastStateBlock); }
        if n != |hashes| { return None; }
        hashes := hashes + [h];
        left := left[..|left| - 1];
      }
      return Some(all);
    }

    method AddNew(block: BlockHeader) returns (result: Result<Option<nat>>)
      modifies this
      ensures (Value(), result) == AddBlock(old(Value()), block)
    {
      hide Calc;
      var thrown, found := Add(block);
      if thrown || found { return Thrown; }
      result := CalcBlockchain(block.hash);
      if result.Thrown? || result.value.None? { blocks := blocks - {block.hash}; }
    }

    method GetBlock(number: nat) returns (header: Option<BlockHeader>)
      requires forall i :: 0 <= i < |hashes| ==> hashes[i] in blocks
      ensures header == if number < |hashes| then Some(blocks[hashes[number]]) else None
    {
      header := if |hashes| <= number then None else Some(blocks[hashes[number]]);
    }
  }
}
