/** What every run of the chain keeps, when a new block is accepted, and what a restart rebuilds. */
module ChainRuns {
  import opened Bytes
  import opened Serialize
  import opened Records
  import opened Headers
  import opened BlockChain

  // ----- the invariant -----

  /** Map and index are a bijection: index i holds the header numbered i, every header is indexed. */
  ghost predicate Indexed(c: Chain)
  {
    |c.hashes| > 0 && c.hashes[0] == Genesis() &&
    (forall i :: 0 <= i < |c.hashes| ==>
      c.hashes[i] in c.blocks && c.blocks[c.hashes[i]].number == Some(i) &&
      c.blocks[c.hashes[i]].hash == c.hashes[i]) &&
    (forall h :: h in c.blocks ==>
      c.blocks[h].number.Some? && c.blocks[h].number.value < |c.hashes| && c.hashes[c.blocks[h].number.value] == h) &&
    c.blocks[Genesis()] == GenesisHeader()
  }

  /** From block 2 on, each block names its predecessor. */
  ghost predicate Linked(c: Chain)
  {
    Indexed(c) && forall i, j :: 1 <= i && j == i + 1 && j < |c.hashes| ==>
      c.blocks[c.hashes[j]].prevHash == c.hashes[i]
  }

  function Tip(c: Chain): Hash
    requires |c.hashes| > 0
  {
    c.hashes[|c.hashes| - 1]
  }

  predicate Sound(b: BlockHeader, c: Chain) { b.hash != [] && b.prevHash != [] && b.hash !in c.blocks }

  /** The new block extends the tip, or there is nothing but genesis. */
  predicate Acceptable(c: Chain, b: BlockHeader)
    requires |c.hashes| > 0
  {
    Sound(b, c) && (b.prevHash == Tip(c) || |c.hashes| == 1)
  }

  function Extended(c: Chain, b: BlockHeader): Chain
  {
    c.(blocks := c.blocks[b.hash := b.(number := Some(|c.hashes|))], hashes := c.hashes + [b.hash])
  }

  // ----- adding one block -----

  /** The number the walk would give to the new block. */
  function Proposed(c: Chain, b: BlockHeader): nat
  {
    if b.prevHash in c.blocks && c.blocks[b.prevHash].number.Some? then c.blocks[b.prevHash].number.value + 1 else 1
  }

  lemma WalkNew(c: Chain, b: BlockHeader)
    requires Indexed(c) && b.number.None? && b.hash != [] && b.hash !in c.blocks
    ensures var blocks := c.blocks[b.hash := b];
            var walked := c.blocks[b.hash := b.(number := Some(0))];
            Walk(blocks, b.hash, []) == if b.prevHash == [] then Threw(walked)
              else Stopped(walked, [b.hash], Proposed(c, b) - 1)
  {
    var blocks := c.blocks[b.hash := b];
    var walked := c.blocks[b.hash := b.(number := Some(0))];
    assert Numbered(blocks, b.hash, 0) == walked;
    assert [] + [b.hash] == [b.hash];
    if b.prevHash != [] && b.prevHash in blocks {
      NumberingShrinks(blocks, b.hash, 0);
      assert Walk(blocks, b.hash, []) == Walk(walked, b.prevHash, [b.hash]);
    }
  }

  lemma AssignNew(c: Chain, b: BlockHeader, all: nat)
    requires b.hash !in c.blocks && all >= 1
    ensures var walked := c.blocks[b.hash := b.(number := Some(0))];
            PathIn(walked, [b.hash], all) &&
            var (c', n) := Assign(c.(blocks := walked), [b.hash], all);
            c'.blocks == c.blocks[b.hash := b.(number := Some(all))] &&
            (if all == |c.hashes| then c'.hashes == c.hashes + [b.hash] && n == Some(all)
              else c'.hashes == c.hashes && n == None) &&
            c'.lastState == if IsStateBlock(b) then Max(all, c.lastState) else c.lastState
  {
    var walked := c.blocks[b.hash := b.(number := Some(0))];
    assert [b.hash][..0] == [];
    assert Numbered(walked, b.hash, all) == c.blocks[b.hash := b.(number := Some(all))];
  }

  /** Accepted exactly when the block extends the tip or there is only genesis; otherwise the chain view is as before.
      The last state block number rises even for a refused block. */
  lemma AddStep(c: Chain, b: BlockHeader)
    requires Linked(c) && b.number.None?
    ensures var (c', r) := AddBlock(c, b);
            (r.Thrown? <==> !Sound(b, c)) &&
            (Acceptable(c, b) <==> r.Returned? && r.value.Some?) &&
            (Acceptable(c, b) ==>
              r.value == Some(|c.hashes|) && c'.blocks == Extended(c, b).blocks &&
              c'.hashes == Extended(c, b).hashes) &&
            (!Acceptable(c, b) ==> c'.blocks == c.blocks && c'.hashes == c.hashes) &&
            c'.lastState == if Sound(b, c) && IsStateBlock(b) then Max(Proposed(c, b), c.lastState) else c.lastState
  {
    hide Walk; hide Assign; hide PathIn; hide IsStateBlock;
    if b.hash != [] && b.hash !in c.blocks {
      WalkNew(c, b);
      var start := AddWithoutCalc(c, b);
      if b.prevHash == [] {
        assert start.blocks[b.hash := b.(number := Some(0))] - {b.hash} == c.blocks;
      } else {
        AssignNew(c, b, Proposed(c, b));
        ProposedIsNext(c, b);
        assert c.blocks[b.hash := b.(number := Some(Proposed(c, b)))] - {b.hash} == c.blocks;
      }
    }
  }

  lemma ProposedIsNext(c: Chain, b: BlockHeader)
    requires Indexed(c)
    ensures Proposed(c, b) == |c.hashes| <==> b.prevHash == Tip(c) || |c.hashes| == 1
  {
    assert c.blocks[Tip(c)].number == Some(|c.hashes| - 1);
  }

  lemma ExtendedLinked(c: Chain, b: BlockHeader)
    requires Linked(c) && Acceptable(c, b)
    ensures Linked(Extended(c, b))
  {
    var e := Extended(c, b);
    assert forall i :: 0 <= i < |c.hashes| ==>
      e.hashes[i] == c.hashes[i] && e.blocks[e.hashes[i]] == c.blocks[c.hashes[i]];
  }

  lemma SameLinked(c: Chain, d: Chain)
    requires Linked(c) && c.blocks == d.blocks && c.hashes == d.hashes
    ensures Linked(d)
  {
  }

  lemma AddKeeps(c: Chain, b: BlockHeader)
    requires Linked(c) && b.number.None?
    ensures Linked(AddBlock(c, b).0)
  {
    hide Linked; hide AddBlock; hide Acceptable; hide Extended;
    LinkedSize(c);
    AddStep(c, b);
    if Acceptable(c, b) {
      ExtendedLinked(c, b);
      SameLinked(Extended(c, b), AddBlock(c, b).0);
    } else {
      SameLinked(c, AddBlock(c, b).0);
    }
  }

  lemma LinkedSize(c: Chain)
    requires Linked(c)
    ensures |c.hashes| > 0
  {
  }

  // ----- runs -----

  function AddAll(c: Chain, bs: seq<BlockHeader>): Chain
  {
    if bs == [] then c else AddBlock(AddAll(c, bs[..|bs| - 1]), bs[|bs| - 1]).0
  }

  ghost predicate AllBare(bs: seq<BlockHeader>) { forall i :: 0 <= i < |bs| ==> bs[i].number.None? }

  lemma ClearedLinked(lastState: nat)
    ensures Linked(Cleared(lastState))
  {
  }

  /** What is indexed stays indexed, at its place and with its header. */
  ghost predicate Extends(d: Chain, c: Chain)
  {
    c.hashes <= d.hashes && forall i :: 0 <= i < |c.hashes| ==>
      c.hashes[i] in d.blocks && c.hashes[i] in c.blocks && d.blocks[c.hashes[i]] == c.blocks[c.hashes[i]]
  }

  lemma AddExtends(c: Chain, b: BlockHeader)
    requires Linked(c) && b.number.None?
    ensures Extends(AddBlock(c, b).0, c)
  {
    hide AddBlock;
    AddStep(c, b);
  }

  /** Every run of addBlock over any unnumbered headers, good or bad, keeps the bijection and the links and only ever
      lengthens the chain. */
  lemma {:induction false} RunLinked(c: Chain, bs: seq<BlockHeader>)
    requires Linked(c) && AllBare(bs)
    ensures Linked(AddAll(c, bs)) && Extends(AddAll(c, bs), c)
    decreases |bs|
  {
    hide Linked; hide AddBlock;
    if bs == [] {
      ExtendsItself(c);
    } else {
      var front, b := bs[..|bs| - 1], bs[|bs| - 1];
      RunLinked(c, front);
      AddKeeps(AddAll(c, front), b);
      AddExtends(AddAll(c, front), b);
    }
  }

  lemma ExtendsItself(c: Chain)
    requires Linked(c)
    ensures Extends(c, c)
  {
  }
}
