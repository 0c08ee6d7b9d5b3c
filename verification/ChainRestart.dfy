/** Persisting accepted blocks and rebuilding the chain after a restart (src/SyncImpl.cpp). */
module ChainRestart {
  import opened Bytes
  import opened Serialize
  import opened Records
  import opened Headers
  import opened BlockChain
  import opened ChainRuns

  /** The stored header records by block hash, and the stored metadata. */
  datatype Saved = Saved(records: map<Hash, Data>, metadata: Metadata)

  const NOTHING_SAVED := Saved(map[], NO_METADATA)

  // ----- saving -----

  /** Of two blocks on one parent the one with the smaller hash stays in the metadata. */
  function NextMetadata(m: Metadata, b: BlockHeader): Metadata
  {
    Metadata(if m.prevHash == b.prevHash && Less(m.blockHash, b.hash) then m.blockHash else b.hash, b.prevHash)
  }

  /** Whichever of two blocks on one new parent is stored first, the metadata end up with the smaller hash. */
  lemma CompetingBlocks(m: Metadata, a: BlockHeader, b: BlockHeader)
    requires a.prevHash == b.prevHash != m.prevHash
    ensures NextMetadata(NextMetadata(m, a), b) == NextMetadata(NextMetadata(m, b), a)
    ensures var kept := NextMetadata(NextMetadata(m, a), b).blockHash;
            (kept == a.hash || kept == b.hash) && !Less(a.hash, kept) && !Less(b.hash, kept)
  {
    hide Less;
    LessTotal(a.hash, b.hash);
    if Less(a.hash, b.hash) { LessAsymmetric(a.hash, b.hash); }
    if Less(b.hash, a.hash) { LessAsymmetric(b.hash, a.hash); }
    LessIrreflexive(a.hash);
    LessIrreflexive(b.hash);
  }

  function Save(s: Saved, b: BlockHeader): Saved
  {
    Saved(s.records[b.hash := SerHeader(b)], NextMetadata(s.metadata, b))
  }

  /** One block as the synchroniser handles it: an accepted one is stored, unless its header is incomplete and writing
      it throws. */
  function Accept(c: Chain, s: Saved, b: BlockHeader): (Chain, Saved)
  {
    var (c', r) := AddBlock(c, b);
    (c', if r.Returned? && r.value.Some? && HeaderWritable(b) then Save(s, b.(number := r.value)) else s)
  }

  // ----- loading -----

  /** Reads the header records, in the given order. */
  function LoadAll(c: Chain, raws: seq<Data>): Result<Chain>
  {
    if raws == [] then Returned(c)
    else
      var front :- LoadAll(c, raws[..|raws| - 1]);
      var b :- DeserHeader(raws[|raws| - 1]);
      if b.hash == [] then Thrown else Returned(AddWithoutCalc(front, b))
  }

  /** Start-up: clear, load, number from the block that the metadata names. */
  function Reload(lastState: nat, s: Saved, raws: seq<Data>): Result<Chain>
  {
    var c :- LoadAll(Cleared(lastState), raws);
    if s.metadata.blockHash == [] then Returned(c)
    else
      var (c', r) := Calc(c, s.metadata.blockHash);
      if r.Returned? && r.value.Some? then Returned(c') else Thrown
  }

  // ----- what storing keeps -----

  /** The first block is linked to genesis. */
  ghost predicate Rooted(c: Chain)
  {
    |c.hashes| > 1 ==> c.hashes[1] in c.blocks && c.blocks[c.hashes[1]].prevHash == Genesis()
  }

  /** The first block names some parent; nothing else is checked of it. */
  ghost predicate FirstNamed(c: Chain)
  {
    |c.hashes| > 1 ==> c.hashes[1] in c.blocks && c.blocks[c.hashes[1]].prevHash != []
  }

  ghost predicate RecordsOk(c: Chain, s: Saved)
  {
    forall h :: h in s.records <==> h in c.blocks && h != Genesis()
  }

  ghost predicate ContentsOk(c: Chain, s: Saved)
  {
    forall h :: h in s.records ==> h in c.blocks && DeserHeader(s.records[h]) == Returned(Bare(c.blocks[h]))
  }

  ghost predicate MetadataOk(c: Chain, s: Saved)
    requires |c.hashes| > 0
  {
    if |c.hashes| == 1 then s.metadata == NO_METADATA
    else Tip(c) in c.blocks && s.metadata == Metadata(Tip(c), c.blocks[Tip(c)].prevHash)
  }

  ghost predicate SavedOk(c: Chain, s: Saved)
  {
    Linked(c) && FirstNamed(c) && RecordsOk(c, s) && ContentsOk(c, s) && MetadataOk(c, s) && AllNamed(c)
  }

  ghost predicate AllNamed(c: Chain) { forall i :: 0 <= i < |c.hashes| ==> c.hashes[i] != [] }

  /** From block 2 on, the parent of block i is block i - 1. */
  lemma ParentIs(c: Chain, i: nat)
    requires Linked(c) && 1 < i < |c.hashes|
    ensures c.blocks[c.hashes[i]].prevHash == c.hashes[i - 1]
  {
    assert c.hashes[i - 1] in c.blocks;
  }

  /** A first block that names itself would keep its place in the metadata when a second block with a greater hash is
      stored on it. */
  predicate Displaced(c: Chain, b: BlockHeader)
  {
    |c.hashes| == 2 && c.hashes[1] in c.blocks && c.blocks[c.hashes[1]].prevHash == c.hashes[1] &&
      Less(c.hashes[1], b.hash)
  }

  lemma NewParent(c: Chain, s: Saved, b: BlockHeader)
    requires Linked(c) && MetadataOk(c, s) && Acceptable(c, b)
    ensures NextMetadata(s.metadata, b) == Metadata(if Displaced(c, b) then c.hashes[1] else b.hash, b.prevHash)
  {
    hide Less;
    var n := |c.hashes| - 1;
    if n > 1 {
      ParentIs(c, n);
      assert c.blocks[c.hashes[n]].number == Some(n) && c.blocks[c.hashes[n - 1]].number == Some(n - 1);
    }
  }

  lemma SaveContents(c: Chain, s: Saved, b: BlockHeader)
    requires RecordsOk(c, s) && ContentsOk(c, s) && HeaderFits(b) && b.hash !in c.blocks && Genesis() in c.blocks
    ensures var c', s' := Extended(c, b), Save(s, b.(number := Some(|c.hashes|)));
            RecordsOk(c', s') && ContentsOk(c', s')
  {
    hide DeserHeader; hide SerHeader; hide HeaderFits;
    var numbered := b.(number := Some(|c.hashes|));
    assert HeaderFits(numbered) by { SameFits(b, numbered); }
    HeaderRoundTrip(numbered);
  }

  lemma SameFits(a: BlockHeader, b: BlockHeader)
    requires HeaderFits(a) && b == a.(number := b.number)
    ensures HeaderFits(b)
  {
    assert HeaderHashes(a) == HeaderHashes(b) && HeaderSender(a) == HeaderSender(b);
  }

  /** A header that can be written: whose hashes, size, type and place are all known. */
  predicate Complete(b: BlockHeader)
  {
    b.hash != [] && b.prevHash != [] && b.txsHash != [] && b.blockSize > 0 && b.blockType > 0 &&
    b.filePos.fileName != []
  }

  lemma CompleteIsWritable(b: BlockHeader)
    ensures HeaderWritable(b) <==> Complete(b)
  {
  }

  /** The block goes into the chain but not, or not as the newest, into the store. */
  predicate Unstored(c: Chain, b: BlockHeader)
    requires |c.hashes| > 0
  {
    Acceptable(c, b) && (!Complete(b) || Displaced(c, b))
  }

  /** Every block keeps records and metadata in step with the chain, except exactly an unstored one. */
  lemma AcceptKeeps(c: Chain, s: Saved, b: BlockHeader)
    requires SavedOk(c, s) && b.number.None? && HeaderFits(b)
    ensures |c.hashes| > 0
    ensures SavedOk(Accept(c, s, b).0, Accept(c, s, b).1) <==> !Unstored(c, b)
  {
    hide HeaderWritable; hide Complete; hide Linked; hide AddBlock; hide RecordsOk;
    hide ContentsOk; hide HeaderFits; hide Save; hide Displaced;
    hide NextMetadata;
    hide AllNamed; hide FirstNamed;
    CompleteIsWritable(b);
    LinkedSize(c);
    AddStep(c, b);
    AddKeeps(c, b);
    var c' := AddBlock(c, b).0;
    if Acceptable(c, b) {
      NewParent(c, s, b);
      GenesisIn(c);
      SaveContents(c, s, b);
      SameStore(Extended(c, b), c', Save(s, b.(number := Some(|c.hashes|))));
      ExtendedNamed(c, b, c');
      assert Tip(c') == b.hash && c'.blocks[b.hash] == b.(number := Some(|c.hashes|)) && |c'.hashes| > 1;
      assert Save(s, b.(number := Some(|c.hashes|))).metadata == NextMetadata(s.metadata, b) by {
        SaveMetadata(s, b, |c.hashes|);
      }
      if Displaced(c, b) { DisplacedOther(c, b); }
      if !HeaderWritable(b) { NotRecorded(c, b, c', s); }
    } else {
      SameStore(c, c', s);
      SameNamed(c, c');
    }
  }

  lemma SaveMetadata(s: Saved, b: BlockHeader, n: nat)
    ensures Save(s, b.(number := Some(n))).metadata == NextMetadata(s.metadata, b)
  {
    hide SerHeader; hide Less;
  }

  lemma NotRecorded(c: Chain, b: BlockHeader, d: Chain, s: Saved)
    requires RecordsOk(c, s) && Sound(b, c) && Genesis() in c.blocks && d.blocks == Extended(c, b).blocks
    ensures !RecordsOk(d, s)
  {
    assert b.hash in d.blocks && b.hash !in s.records;
  }

  lemma DisplacedOther(c: Chain, b: BlockHeader)
    requires Displaced(c, b) && Sound(b, c)
    ensures c.hashes[1] != b.hash
  {
    hide Less;
  }

  lemma ExtendedNamed(c: Chain, b: BlockHeader, d: Chain)
    requires Linked(c) && FirstNamed(c) && AllNamed(c) && Sound(b, c)
    requires d.blocks == Extended(c, b).blocks && d.hashes == Extended(c, b).hashes
    ensures FirstNamed(d) && AllNamed(d)
  {
    LinkedSize(c);
    assert |c.hashes| > 1 ==> d.hashes[1] == c.hashes[1];
    if |c.hashes| == 1 { assert d.hashes[1] == b.hash; } else { FirstIn(c); }
  }

  lemma SameNamed(c: Chain, d: Chain)
    requires FirstNamed(c) && AllNamed(c) && c.blocks == d.blocks && c.hashes == d.hashes
    ensures FirstNamed(d) && AllNamed(d)
  {
  }

  lemma FirstIn(c: Chain)
    requires Linked(c) && |c.hashes| > 1
    ensures c.hashes[1] in c.blocks
  {
  }

  lemma GenesisIn(c: Chain)
    requires Linked(c)
    ensures Genesis() in c.blocks && c.blocks[Genesis()] == GenesisHeader() && c.hashes[0] == Genesis()
  {
  }

  lemma SameStore(c: Chain, d: Chain, s: Saved)
    requires c.blocks == d.blocks
    ensures RecordsOk(c, s) ==> RecordsOk(d, s)
    ensures ContentsOk(c, s) ==> ContentsOk(d, s)
  {
  }

  // ----- what loading gives -----

  ghost predicate Stored(s: Saved, raw: Data) { exists h :: h in s.records && s.records[h] == raw }

  ghost predicate AllStored(s: Saved, raws: seq<Data>) { forall i :: 0 <= i < |raws| ==> Stored(s, raws[i]) }

  /** `raws` lists the stored records, in any order. */
  ghost predicate Lists(raws: seq<Data>, s: Saved)
  {
    (forall h :: h in s.records ==> s.records[h] in raws) && AllStored(s, raws)
  }

  /** The headers loaded from some of the records. */
  ghost predicate LoadedFrom(d: Chain, c: Chain, s: Saved, raws: seq<Data>)
  {
    d.hashes == [Genesis()] &&
    (forall h :: h in d.blocks <==> h == Genesis() || (h in s.records && s.records[h] in raws)) &&
    (forall h :: h in d.blocks ==> h in c.blocks && d.blocks[h] == if h == Genesis() then GenesisHeader()
      else Bare(c.blocks[h]))
  }

  lemma LoadOne(d: Chain, c: Chain, s: Saved, raws: seq<Data>, h: Hash)
    requires LoadedFrom(d, c, s, raws) && RecordsOk(c, s) && ContentsOk(c, s) && Linked(c) && h in s.records
    ensures DeserHeader(s.records[h]) == Returned(Bare(c.blocks[h])) && Bare(c.blocks[h]).hash == h
    ensures LoadedFrom(AddWithoutCalc(d, Bare(c.blocks[h])), c, s, raws + [s.records[h]])
  {
    hide DeserHeader;
    var raw, b := s.records[h], Bare(c.blocks[h]);
    assert c.hashes[c.blocks[h].number.value] == h;
    var d' := AddWithoutCalc(d, b);
    forall x | x in s.records && s.records[x] == raw ensures x == h {
      assert Bare(c.blocks[x]) == b;
      assert c.hashes[c.blocks[x].number.value] == x;
    }
  }

  lemma {:induction false} LoadSome(lastState: nat, c: Chain, s: Saved, raws: seq<Data>)
    requires SavedOk(c, s) && AllStored(s, raws)
    ensures LoadAll(Cleared(lastState), raws).Returned?
    ensures LoadedFrom(LoadAll(Cleared(lastState), raws).value, c, s, raws)
    ensures LoadAll(Cleared(lastState), raws).value.lastState == lastState
    decreases |raws|
  {
    hide DeserHeader; hide LoadedFrom; hide RecordsOk; hide ContentsOk; hide Linked; hide MetadataOk; hide FirstNamed;
    hide AllNamed;
    if raws == [] {
      LoadNone(lastState, c, s);
    } else {
      var front, raw := raws[..|raws| - 1], raws[|raws| - 1];
      assert Stored(s, raw);
      LoadSome(lastState, c, s, front);
      var h :| h in s.records && s.records[h] == raw;
      LoadOne(LoadAll(Cleared(lastState), front).value, c, s, front, h);
      assert front + [s.records[h]] == raws;
      HashIn(c, s, h);
    }
  }

  lemma HashIn(c: Chain, s: Saved, h: Hash)
    requires SavedOk(c, s) && h in s.records
    ensures h != []
  {
    hide DeserHeader;
    assert h in c.blocks && c.hashes[c.blocks[h].number.value] == h;
  }

  lemma LoadNone(lastState: nat, c: Chain, s: Saved)
    requires Linked(c)
    ensures LoadedFrom(Cleared(lastState), c, s, [])
  {
  }

  // ----- numbering what was loaded -----

  ghost predicate Numbers(c: Chain)
  {
    |c.hashes| > 0 && forall h :: h in c.blocks ==> c.blocks[h].number.Some? && c.blocks[h].number.value < |c.hashes|
  }

  lemma LinkedNumbers(c: Chain)
    requires Linked(c)
    ensures Numbers(c)
  {
  }

  /** The blocks while the walk has covered the newest k: temporary numbers on those, none on the others. */
  ghost function Covered(c: Chain, k: nat): Blocks
    requires Numbers(c)
  {
    map h | h in c.blocks :: 
      var i, n := c.blocks[h].number.value, |c.hashes| - 1;
      if i == 0 then c.blocks[h] else if i + k > n then c.blocks[h].(number := Some(n - i)) else Bare(c.blocks[h])
  }

  /** The newest k hashes, newest first. */
  function Newest(c: Chain, k: nat): seq<Hash>
    requires k < |c.hashes|
  {
    seq(k, i requires 0 <= i < k => c.hashes[|c.hashes| - 1 - i])
  }

  lemma CoverNext(c: Chain, k: nat)
    requires Linked(c) && k < |c.hashes| - 1
    ensures var h := c.hashes[|c.hashes| - 1 - k];
            h in Covered(c, k) && Covered(c, k)[h].number.None? && Numbered(Covered(c, k), h, k) == Covered(c, k + 1)
  {
    var n := |c.hashes| - 1;
    var h := c.hashes[n - k];
    assert c.blocks[h].number == Some(n - k);
    OnlyOneNumbered(c, n - k);
    LinkedNumbers(c);
    hide Linked;
    CoveredNext(c, k, h);
  }

  lemma CoveredNext(c: Chain, k: nat, h: Hash)
    requires Numbers(c) && k < |c.hashes| - 1 && h in c.blocks && c.blocks[h].number == Some(|c.hashes| - 1 - k)
    requires forall x :: x in c.blocks && x != h ==> c.blocks[x].number.value != |c.hashes| - 1 - k
    ensures Numbered(Covered(c, k), h, k) == Covered(c, k + 1)
  {
    forall x | x in c.blocks ensures Numbered(Covered(c, k), h, k)[x] == Covered(c, k + 1)[x] { }
  }

  lemma OnlyOneNumbered(c: Chain, i: nat)
    requires Linked(c) && i < |c.hashes|
    ensures forall x :: x in c.blocks && x != c.hashes[i] ==> c.blocks[x].number.value != i
  {
    forall x | x in c.blocks && x != c.hashes[i] ensures c.blocks[x].number.value != i {
      assert c.hashes[c.blocks[x].number.value] == x;
    }
  }

  lemma CoverParent(c: Chain, k: nat)
    requires Linked(c) && k < |c.hashes| - 2
    ensures var h := c.hashes[|c.hashes| - 1 - k];
            var p := c.hashes[|c.hashes| - 2 - k];
            h in Covered(c, k) && Covered(c, k)[h].prevHash == p && p in Covered(c, k)
  {
    var n := |c.hashes| - 1;
    ParentIs(c, n - k);
    assert c.hashes[n - k - 1] in c.blocks;
  }

  lemma NewestNext(c: Chain, k: nat)
    requires k < |c.hashes| - 1
    ensures Newest(c, k) + [c.hashes[|c.hashes| - 1 - k]] == Newest(c, k + 1)
  {
  }

  /** The walk from the newest block comes to the first one. */
  lemma {:induction false} WalkTo(c: Chain, k: nat)
    requires Linked(c) && k < |c.hashes| - 1 && AllNamed(c)
    ensures var n := |c.hashes| - 1;
            c.hashes[n - k] in Covered(c, k) && c.hashes[1] in Covered(c, n - 1) &&
            Walk(Covered(c, k), c.hashes[n - k], Newest(c, k)) == Walk(Covered(c, n - 1), c.hashes[1], Newest(c, n - 1))
    decreases |c.hashes| - k
  {
    hide Covered; hide Newest; hide Unnumbered; hide Numbered;
    CoverNext(c, k);
    if k < |c.hashes| - 2 {
      CoverParent(c, k);
      NewestNext(c, k);
      NewestSize(c, k);
      WalkTo(c, k + 1);
      NumberingShrinks(Covered(c, k), c.hashes[|c.hashes| - 1 - k], k);
    }
  }

  /** The number at which the walk stops: genesis has 0, a loaded block its temporary number, and behind a missing
      parent stands the temporary number of the first block itself. */
  function StopNumber(c: Chain): nat
    requires Numbers(c) && |c.hashes| > 1 && c.hashes[1] in c.blocks
  {
    var n, p := |c.hashes| - 1, c.blocks[c.hashes[1]].prevHash;
    if p !in c.blocks then n - 1
    else if c.blocks[p].number.value == 0 then 0
    else n - c.blocks[p].number.value
  }

  lemma StopAt(c: Chain, p: Hash)
    requires Numbers(c) && |c.hashes| > 1 && c.hashes[1] in c.blocks && p == c.blocks[c.hashes[1]].prevHash &&
             p in c.blocks
    ensures p in Covered(c, |c.hashes| - 1) && Covered(c, |c.hashes| - 1)[p].number == Some(StopNumber(c))
  {
  }

  lemma WalkEnd(c: Chain)
    requires Linked(c) && Numbers(c) && FirstNamed(c) && |c.hashes| > 1
    ensures var n := |c.hashes| - 1;
            c.hashes[1] in Covered(c, n - 1) && c.hashes[1] in c.blocks &&
            Walk(Covered(c, n - 1), c.hashes[1], Newest(c, n - 1)) ==
              Stopped(Covered(c, n), Newest(c, n), StopNumber(c))
  {
    hide Covered; hide Newest; hide Unnumbered; hide Numbered; hide Linked; hide StopNumber; hide Numbers;
    var n, h := |c.hashes| - 1, c.hashes[1];
    var p := c.blocks[h].prevHash;
    CoverNext(c, n - 1);
    CoverSame(c, n - 1);
    NewestNext(c, n - 1);
    NewestSize(c, n - 1);
    NumberingShrinks(Covered(c, n - 1), h, n - 1);
    StopMissing(c);
    if p in c.blocks { StopAt(c, p); }
  }

  lemma StopMissing(c: Chain)
    requires Numbers(c) && |c.hashes| > 1 && c.hashes[1] in c.blocks
    ensures c.blocks[c.hashes[1]].prevHash !in c.blocks ==> StopNumber(c) == |c.hashes| - 2
  {
  }

  /** Temporary numbers touch neither the keys nor the parents. */
  lemma CoverSame(c: Chain, k: nat)
    requires Numbers(c)
    ensures forall h :: h in Covered(c, k) <==> h in c.blocks
    ensures forall h :: h in c.blocks ==> Covered(c, k)[h].prevHash == c.blocks[h].prevHash
  {
  }

  /** The condition under which a start-up rebuilds the chain: a second block exists only behind a first one that names
      genesis, or behind one that names the newest block. */
  predicate Restartable(c: Chain)
  {
    |c.hashes| <= 2 ||
    (c.hashes[1] in c.blocks &&
     (c.blocks[c.hashes[1]].prevHash == Genesis() || c.blocks[c.hashes[1]].prevHash == Tip(c)))
  }

  lemma StopsAtZero(c: Chain)
    requires Linked(c) && Numbers(c) && |c.hashes| > 1 && c.hashes[1] in c.blocks
    ensures StopNumber(c) == 0 <==> Restartable(c)
  {
    var n, p := |c.hashes| - 1, c.blocks[c.hashes[1]].prevHash;
    assert c.hashes[0] == Genesis() && c.hashes[0] in c.blocks && c.blocks[c.hashes[0]].number == Some(0);
    assert c.hashes[n] in c.blocks && c.blocks[c.hashes[n]].number == Some(n);
    if p in c.blocks { assert c.hashes[c.blocks[p].number.value] == p; }
  }

  lemma NewestSize(c: Chain, k: nat)
    requires k < |c.hashes|
    ensures |Newest(c, k)| == k
  {
  }

  /** The blocks while the oldest m have their final numbers again. */
  ghost function Renumbered(c: Chain, m: nat): Blocks
    requires Numbers(c)
  {
    map h | h in c.blocks ::
      var i, n := c.blocks[h].number.value, |c.hashes| - 1;
      if i <= m then c.blocks[h] else c.blocks[h].(number := Some(n - i))
  }

  lemma RenumberNext(c: Chain, m: nat)
    requires Linked(c) && m < |c.hashes| - 1
    ensures var n := |c.hashes| - 1;
            var h := c.hashes[m + 1];
            h in Renumbered(c, m) && Renumbered(c, m)[h].number == Some(n - (m + 1)) &&
            Numbered(Renumbered(c, m), h, m + 1) == Renumbered(c, m + 1) &&
            |Newest(c, n - m)| == n - m && Newest(c, n - m)[n - m - 1] == h &&
              Newest(c, n - m)[..n - m - 1] == Newest(c, n - m - 1)
  {
    NewestTail(c, m);
    hide Newest;
    RenumberBlocks(c, m);
  }

  lemma NewestTail(c: Chain, m: nat)
    requires m < |c.hashes| - 1
    ensures var n := |c.hashes| - 1;
            |Newest(c, n - m)| == n - m && Newest(c, n - m)[n - m - 1] == c.hashes[m + 1] &&
              Newest(c, n - m)[..n - m - 1] == Newest(c, n - m - 1)
  {
  }

  lemma RenumberBlocks(c: Chain, m: nat)
    requires Linked(c) && m < |c.hashes| - 1
    ensures var h := c.hashes[m + 1];
            h in Renumbered(c, m) && Renumbered(c, m)[h].number == Some(|c.hashes| - 1 - (m + 1)) &&
            Numbered(Renumbered(c, m), h, m + 1) == Renumbered(c, m + 1)
  {
    var h := c.hashes[m + 1];
    assert c.blocks[h].number == Some(m + 1);
    OnlyOneNumbered(c, m + 1);
    LinkedNumbers(c);
    hide Linked;
    RenumberedNext(c, m, h);
  }

  lemma RenumberedNext(c: Chain, m: nat, h: Hash)
    requires Numbers(c) && h in c.blocks && c.blocks[h].number == Some(m + 1) && m < |c.hashes| - 1
    requires forall x :: x in c.blocks && x != h ==> c.blocks[x].number.value != m + 1
    ensures Numbered(Renumbered(c, m), h, m + 1) == Renumbered(c, m + 1)
  {
    forall x | x in c.blocks ensures Numbered(Renumbered(c, m), h, m + 1)[x] == Renumbered(c, m + 1)[x] { }
  }

  lemma RenumberPath(c: Chain, m: nat)
    requires Linked(c) && m <= |c.hashes| - 1
    ensures var n := |c.hashes| - 1;
            PathIn(Renumbered(c, m), Newest(c, n - m), n) &&
            NoRepeats(Newest(c, n - m))
  {
    var n := |c.hashes| - 1;
    var path := Newest(c, n - m);
    forall i | 0 <= i < |path| ensures path[i] in c.blocks && c.blocks[path[i]].number == Some(n - i) {
      assert path[i] == c.hashes[n - i];
    }
  }

  lemma {:induction false} AssignLoaded(c: Chain, m: nat, d: Chain, path: seq<Hash>)
    requires Linked(c) && Numbers(c) && m < |c.hashes| && d.blocks == Renumbered(c, m) && d.hashes == c.hashes[..m + 1]
    requires path == Newest(c, |c.hashes| - 1 - m) && PathIn(d.blocks, path, |c.hashes| - 1) && NoRepeats(path)
    ensures var (d', r) := Assign(d, path, |c.hashes| - 1);
            d'.blocks == c.blocks && d'.hashes == c.hashes && r == Some(|c.hashes| - 1)
    decreases |c.hashes| - m
  {
    hide Newest; hide PathIn; hide Renumbered; hide Numbered; hide IsStateBlock; hide NoRepeats; hide Linked;
    hide Raised; hide Numbers;
    var n := |c.hashes| - 1;
    if m < n {
      RenumberNext(c, m);
      RenumberPath(c, m + 1);
      var h := c.hashes[m + 1];
      var next := Chain(Renumbered(c, m + 1), c.hashes[..m + 2], Raised(d, h, m + 1));
      assert c.hashes[..m + 1] + [h] == c.hashes[..m + 2];
      AssignLoaded(c, m + 1, next, Newest(c, n - m - 1));
    } else {
      AllDone(c);
      assert c.hashes[..m + 1] == c.hashes;
    }
  }

  lemma AllDone(c: Chain)
    requires Linked(c)
    ensures Renumbered(c, |c.hashes| - 1) == c.blocks && |Newest(c, 0)| == 0
  {
  }

  /** With a larger total the first block already misses its place. */
  lemma AssignRefused(c: Chain, d: Chain, path: seq<Hash>, all: nat)
    requires Linked(c) && Numbers(c) && |c.hashes| > 1 && d.blocks == Renumbered(c, 0) && |d.hashes| == 1
    requires path == Newest(c, |c.hashes| - 1) && PathIn(d.blocks, path, all) && NoRepeats(path) && all >= |c.hashes|
    ensures Assign(d, path, all).1 == None
  {
    hide Newest; hide Renumbered; hide Numbered; hide Linked; hide Numbers; hide NoRepeats;
    RenumberNext(c, 0);
  }

  lemma CoveredIsRenumbered(c: Chain)
    requires Linked(c)
    ensures Covered(c, |c.hashes| - 1) == Renumbered(c, 0)
  {
  }

  // ----- restart -----

  lemma LoadedIsCovered(d: Chain, c: Chain, s: Saved, raws: seq<Data>)
    requires Linked(c) && RecordsOk(c, s) && Lists(raws, s) && LoadedFrom(d, c, s, raws)
    ensures d.blocks == Covered(c, 0) && d.hashes == c.hashes[..1]
  {
    ZeroIsGenesis(c);
    hide Linked; hide AllStored;
    assert d.blocks.Keys == c.blocks.Keys;
  }

  lemma ZeroIsGenesis(c: Chain)
    requires Linked(c)
    ensures Numbers(c) && c.hashes[..1] == [Genesis()] && Genesis() in c.blocks &&
            c.blocks[Genesis()] == GenesisHeader()
    ensures forall h :: h in c.blocks ==> (c.blocks[h].number.value == 0 <==> h == Genesis())
  {
    assert c.hashes[0] == Genesis();
    forall h | h in c.blocks ensures c.blocks[h].number.value == 0 <==> h == Genesis() {
      assert c.hashes[c.blocks[h].number.value] == h;
    }
  }

  /** Whatever order the records are read in: start-up succeeds exactly for a restartable chain, and then it rebuilds
      the map, the index and every number, and leaves no header without one. */
  lemma RestartRebuilds(c: Chain, s: Saved, raws: seq<Data>, lastState: nat)
    requires SavedOk(c, s) && Lists(raws, s)
    ensures var r := Reload(lastState, s, raws);
            (r.Returned? <==> Restartable(c)) &&
            (r.Returned? ==>
              r.value.blocks == c.blocks && r.value.hashes == c.hashes && |Unnumbered(r.value.blocks)| == 0)
  {
    hide LoadAll; hide LoadedFrom; hide AllStored; hide Walk; hide Assign; hide PathIn; hide Covered; hide Renumbered;
    hide Newest; hide Indexed;
    hide RecordsOk; hide ContentsOk; hide Linked; hide FirstNamed; hide AllNamed; hide Calc; hide Restartable;
    LinkedSize(c);
    LoadSome(lastState, c, s, raws);
    var d := LoadAll(Cleared(lastState), raws).value;
    LoadedIsCovered(d, c, s, raws);
    NoneUnnumbered(c);
    if |c.hashes| == 1 {
      OnlyGenesis(c);
    } else {
      assert s.metadata.blockHash == Tip(c);
      TipNamed(c);
      CalcLoaded(c, d);
    }
  }

  lemma TipNamed(c: Chain)
    requires |c.hashes| > 0 && AllNamed(c)
    ensures Tip(c) != []
  {
  }

  lemma NoneUnnumbered(c: Chain)
    requires Linked(c)
    ensures |Unnumbered(c.blocks)| == 0
  {
    assert Unnumbered(c.blocks) == {};
  }

  lemma OnlyGenesis(c: Chain)
    requires Linked(c) && |c.hashes| == 1
    ensures Covered(c, 0) == c.blocks && c.hashes[..1] == c.hashes && Restartable(c)
  {
    forall h | h in c.blocks ensures c.blocks[h].number.value == 0 { }
  }

  lemma CalcLoaded(c: Chain, d: Chain)
    requires Linked(c) && FirstNamed(c) && AllNamed(c) && |c.hashes| > 1
    requires d.blocks == Covered(c, 0) && d.hashes == c.hashes[..1]
    ensures var (d', r) := Calc(d, Tip(c));
            if Restartable(c)
            then r == Returned(Some(|c.hashes| - 1)) && d'.blocks == c.blocks && d'.hashes == c.hashes
            else r == Returned(None)
  {
    hide Walk; hide Assign; hide PathIn; hide Covered; hide Renumbered; hide Newest; hide Linked; hide FirstNamed;
    hide NoRepeats;
    hide StopNumber; hide Restartable; hide Numbers;
    LinkedNumbers(c);
    var n := |c.hashes| - 1;
    TipNamed(c);
    WalkTo(c, 0);
    WalkEnd(c);
    NewestNone(c);
    RenumberPath(c, 0);
    CoveredIsRenumbered(c);
    NewestSize(c, n);
    StopsAtZero(c);
    var start, all := d.(blocks := Renumbered(c, 0)), n + StopNumber(c);
    PathBound(start.blocks, Newest(c, n), n, all);
    if Restartable(c) {
      AssignLoaded(c, 0, start, Newest(c, n));
    } else {
      AssignRefused(c, start, Newest(c, n), all);
    }
  }

  lemma NewestNone(c: Chain)
    requires |c.hashes| > 0
    ensures Newest(c, 0) == []
  {
  }

  // ----- runs with restarts -----

  datatype Event = NewBlock(header: BlockHeader) | Restart(raws: seq<Data>, lastState: nat)

  /** A new header is unnumbered and fits its size fields; a restart reads all records. */
  ghost predicate EventOk(s: Saved, e: Event)
  {
    match e
    case NewBlock(b) => b.number.None? && HeaderFits(b)
    case Restart(raws, _) => Lists(raws, s)
  }

  ghost predicate Fails(s: Saved, e: Event) { e.Restart? && Reload(e.lastState, s, e.raws).Thrown? }

  ghost function After(c: Chain, s: Saved, e: Event): (Chain, Saved)
  {
    match e
    case NewBlock(b) => Accept(c, s, b)
    case Restart(raws, lastState) => var r := Reload(lastState, s, raws); (if r.Returned? then r.value else c, s)
  }

  /** A start-up that fails ends the run. */
  ghost predicate IsRun(cs: seq<Chain>, ss: seq<Saved>, es: seq<Event>)
  {
    |cs| == |es| + 1 && |ss| == |es| + 1 && cs[0] == Cleared(0) && ss[0] == NOTHING_SAVED &&
    forall i :: 0 <= i < |es| ==>
      EventOk(ss[i], es[i]) && (Fails(ss[i], es[i]) ==> i == |es| - 1) &&
      (cs[i + 1], ss[i + 1]) == After(cs[i], ss[i], es[i])
  }

  ghost predicate InStep(c: Chain, e: Event) { e.NewBlock? ==> |c.hashes| > 0 && !Unstored(c, e.header) }

  lemma StepKeeps(c: Chain, s: Saved, e: Event)
    requires SavedOk(c, s) && EventOk(s, e) && InStep(c, e)
    ensures SavedOk(After(c, s, e).0, After(c, s, e).1)
  {
    hide Linked; hide FirstNamed; hide RecordsOk; hide ContentsOk; hide Accept; hide Reload; hide HeaderFits;
    hide Lists; hide MetadataOk;
    hide AllNamed; hide Displaced; hide Restartable;
    if e.NewBlock? {
      AcceptKeeps(c, s, e.header);
    } else {
      RestartRebuilds(c, s, e.raws, e.lastState);
      SameSaved(c, After(c, s, e).0, s);
    }
  }

  lemma SameSaved(c: Chain, d: Chain, s: Saved)
    requires SavedOk(c, s) && c.blocks == d.blocks && c.hashes == d.hashes
    ensures SavedOk(d, s)
  {
    hide DeserHeader;
  }

  lemma StartSaved()
    ensures SavedOk(Cleared(0), NOTHING_SAVED)
  {
    ClearedLinked(0);
  }

  /** At every point of every run of new blocks and restarts the store is in step with the chain. */
  lemma {:induction false} RunSaved(cs: seq<Chain>, ss: seq<Saved>, es: seq<Event>, n: nat)
    requires IsRun(cs, ss, es) && n < |cs| && forall i :: 0 <= i < n ==> InStep(cs[i], es[i])
    ensures SavedOk(cs[n], ss[n])
  {
    hide SavedOk; hide EventOk; hide After; hide InStep; hide Fails;
    if n == 0 {
      StartSaved();
    } else {
      RunSaved(cs, ss, es, n - 1);
      StepKeeps(cs[n - 1], ss[n - 1], es[n - 1]);
    }
  }

  /** So a restart in the run succeeds exactly when the chain is restartable, and then gives back the same headers,
      index and numbers. */
  lemma RunRestarts(cs: seq<Chain>, ss: seq<Saved>, es: seq<Event>, n: nat)
    requires IsRun(cs, ss, es) && n < |es| && es[n].Restart? && forall i :: 0 <= i < n ==> InStep(cs[i], es[i])
    ensures !Fails(ss[n], es[n]) <==> Restartable(cs[n])
    ensures cs[n + 1].blocks == cs[n].blocks && cs[n + 1].hashes == cs[n].hashes && ss[n + 1] == ss[n]
  {
    hide SavedOk; hide Reload; hide Lists; hide Restartable;
    RunSaved(cs, ss, es, n);
    assert EventOk(ss[n], es[n]);
    RestartRebuilds(cs[n], ss[n], es[n].raws, es[n].lastState);
  }

  // ----- runs from genesis -----

  /** The first block names genesis, and headers are complete. */
  ghost predicate FromGenesis(c: Chain, e: Event)
  {
    e.NewBlock? ==> Complete(e.header) && (|c.hashes| == 1 ==> e.header.prevHash == Genesis())
  }

  lemma RootedInStep(c: Chain, e: Event)
    requires Linked(c) && Rooted(c) && FromGenesis(c, e)
    ensures InStep(c, e)
  {
    hide Less;
    if e.NewBlock? && |c.hashes| == 2 {
      assert c.blocks[c.hashes[0]].number == Some(0) && c.blocks[c.hashes[1]].number == Some(1);
    }
  }

  lemma StepRooted(c: Chain, s: Saved, e: Event)
    requires SavedOk(c, s) && Rooted(c) && EventOk(s, e) && FromGenesis(c, e)
    ensures Rooted(After(c, s, e).0)
  {
    hide RecordsOk; hide ContentsOk; hide Reload; hide HeaderFits; hide Lists; hide MetadataOk; hide AllNamed;
    hide FirstNamed;
    hide AddBlock; hide Save; hide Restartable;
    if e.NewBlock? {
      AddStep(c, e.header);
    } else {
      RestartRebuilds(c, s, e.raws, e.lastState);
    }
  }

  lemma {:induction false} RunRooted(cs: seq<Chain>, ss: seq<Saved>, es: seq<Event>, n: nat)
    requires IsRun(cs, ss, es) && n < |cs| && forall i :: 0 <= i < n ==> FromGenesis(cs[i], es[i])
    ensures SavedOk(cs[n], ss[n]) && Rooted(cs[n]) && forall i :: 0 <= i < n ==> InStep(cs[i], es[i])
  {
    hide EventOk; hide After; hide InStep; hide Fails; hide FromGenesis; hide Linked; hide RecordsOk; hide ContentsOk;
    hide MetadataOk;
    hide AllNamed; hide FirstNamed;
    if n == 0 {
      StartSaved();
    } else {
      hide Rooted;
      RunRooted(cs, ss, es, n - 1);
      RootedInStep(cs[n - 1], es[n - 1]);
      RunSaved(cs, ss, es, n);
      StepRooted(cs[n - 1], ss[n - 1], es[n - 1]);
    }
  }

  /** In every run whose first block names genesis, every restart succeeds and rebuilds the chain. */
  lemma RootedRunRestarts(cs: seq<Chain>, ss: seq<Saved>, es: seq<Event>, n: nat)
    requires IsRun(cs, ss, es) && n < |es| && es[n].Restart? && forall i :: 0 <= i < n ==> FromGenesis(cs[i], es[i])
    ensures !Fails(ss[n], es[n])
    ensures cs[n + 1].blocks == cs[n].blocks && cs[n + 1].hashes == cs[n].hashes && ss[n + 1] == ss[n]
  {
    hide SavedOk; hide Fails; hide EventOk; hide After; hide FromGenesis; hide InStep;
    RunRooted(cs, ss, es, n);
    RunRestarts(cs, ss, es, n);
  }

  // ----- a run that cannot restart -----

  /** A first block that does not name genesis and a second one on it are both accepted and stored; no start-up after
      that succeeds. */
  lemma UnrootedFails(a: BlockHeader, b: BlockHeader, raws: seq<Data>, lastState: nat)
    requires a.number.None? && b.number.None? && HeaderFits(a) && HeaderFits(b) && b.prevHash == a.hash
    requires Complete(a) && Complete(b)
    requires a.hash != [] && a.hash != Genesis() && b.hash != [] && b.hash != Genesis() && b.hash != a.hash
    requires a.prevHash != [] && a.prevHash != Genesis() && a.prevHash != a.hash && a.prevHash != b.hash
    requires var (c, s) := Accept(Cleared(0), NOTHING_SAVED, a); Lists(raws, Accept(c, s, b).1)
    ensures var (c, s) := Accept(Cleared(0), NOTHING_SAVED, a);
            var (d, t) := Accept(c, s, b);
            d.hashes == [Genesis(), a.hash, b.hash] && Reload(lastState, t, raws).Thrown?
  {
    hide AddBlock; hide Save; hide HeaderFits; hide Lists; hide Reload; hide Less; hide SavedOk;
    StartSaved();
    AcceptKeeps(Cleared(0), NOTHING_SAVED, a);
    var (c, s) := Accept(Cleared(0), NOTHING_SAVED, a);
    ClearedLinked(0);
    AddStep(Cleared(0), a);
    assert c.blocks[c.hashes[1]].prevHash == a.prevHash;
    AddKeeps(Cleared(0), a);
    AcceptKeeps(c, s, b);
    AddStep(c, b);
    var (d, t) := Accept(c, s, b);
    RestartRebuilds(d, t, raws, lastState);
  }

  function SampleHeader(hash: Hash, prevHash: Hash): BlockHeader
  {
    BlockHeader(hash, prevHash, [7], [], 100, 1, 0, 0, 0, FilePosition([98], 0), ([], [], []), None)
  }

  /** Such blocks exist. */
  lemma UnrootedExample(lastState: nat)
    ensures var (c, s) := Accept(Cleared(0), NOTHING_SAVED, SampleHeader([1], [2]));
            var (d, t) := Accept(c, s, SampleHeader([3], [1]));
            d.hashes == [Genesis(), [1], [3]] &&
            exists raws :: Lists(raws, t) && Reload(lastState, t, raws).Thrown?
  {
    hide SerHeader; hide AddBlock; hide Reload;
    var a, b := SampleHeader([1], [2]), SampleHeader([3], [1]);
    var (c, s) := Accept(Cleared(0), NOTHING_SAVED, a);
    var (d, t) := Accept(c, s, b);
    AllListed(t);
    var raws :| Lists(raws, t);
    UnrootedFails(a, b, raws, lastState);
  }

  /** The records of any store can be listed. */
  lemma AllListed(s: Saved)
    ensures exists raws :: Lists(raws, s)
  {
    var raws := ListRecords(s, s.records.Keys);
    assert Lists(raws, s);
  }

  lemma {:induction false} ListRecords(s: Saved, keys: set<Hash>) returns (raws: seq<Data>)
    requires keys <= s.records.Keys
    ensures AllStored(s, raws) && forall h :: h in keys ==> s.records[h] in raws
    decreases |keys|
  {
    if keys == {} {
      raws := [];
    } else {
      var h :| h in keys;
      var rest := ListRecords(s, keys - {h});
      raws := rest + [s.records[h]];
      assert Stored(s, s.records[h]);
    }
  }

  // ----- the object -----

  class SyncImpl {
    const blockchain: BlockChain
    var saved: Saved

    constructor ()
      ensures fresh(blockchain) && blockchain.Value() == Cleared(0) && saved == NOTHING_SAVED
    {
      blockchain := new BlockChain();
      saved := NOTHING_SAVED;
    }

    method SaveBlock(b: BlockHeader) returns (thrown: bool)
      modifies this
      ensures thrown == !Complete(b)
      ensures saved == if thrown then old(saved) else Save(old(saved), b)
    {
      if !HeaderWritable(b) { return true; }
      var hash := b.hash;
      if saved.metadata.prevHash == b.prevHash {
        if Less(saved.metadata.blockHash, b.hash) { hash := saved.metadata.blockHash; }
      }
      saved := Saved(saved.records[b.hash := SerHeader(b)], Metadata(hash, b.prevHash));
      thrown := false;
    }

    method ProcessBlock(b: BlockHeader) returns (result: Result<Option<nat>>, stored: bool)
      modifies this, blockchain
      ensures (blockchain.Value(), saved) == Accept(old(blockchain.Value()), old(saved), b)
      ensures result == AddBlock(old(blockchain.Value()), b).1
      ensures stored <==> result.Returned? && result.value.Some? && Complete(b)
    {
      hide AddBlock; hide Save;
      result := blockchain.AddNew(b);
      stored := false;
      if result.Returned? && result.value.Some? {
        var thrown := SaveBlock(b.(number := result.value));
        stored := !thrown;
      }
    }

    /** Start-up over the raw records in the order the store lists them. */
    method Initialize(raws: seq<Data>) returns (thrown: bool)
      modifies blockchain
      ensures thrown == Reload(old(blockchain.lastStateBlock), saved, raws).Thrown?
      ensures !thrown ==> Reload(old(blockchain.lastStateBlock), saved, raws) == Returned(blockchain.Value())
    {
      hide Calc; hide DeserHeader; hide AddWithoutCalc;
      blockchain.Clear();
      ghost var start := blockchain.Value();
      for i := 0 to |raws|
        invariant LoadAll(start, raws[..i]) == Returned(blockchain.Value())
      {
        assert raws[..i + 1][..i] == raws[..i];
        var b := DeserHeader(raws[i]);
        if b.Thrown? { LoadFails(start, raws, i + 1); return true; }
        var failed, _ := blockchain.Add(b.value);
        if failed { LoadFails(start, raws, i + 1); return true; }
      }
      assert raws[..|raws|] == raws;
      if saved.metadata.blockHash == [] { return false; }
      var result := blockchain.CalcBlockchain(saved.metadata.blockHash);
      thrown := result.Thrown? || result.value.None?;
    }
  }

  lemma {:induction false} LoadFails(c: Chain, raws: seq<Data>, k: nat)
    requires k <= |raws| && LoadAll(c, raws[..k]).Thrown?
    ensures LoadAll(c, raws).Thrown?
    decreases |raws| - k
  {
    if k == |raws| {
      assert raws[..k] == raws;
    } else {
      assert raws[..k + 1][..k] == raws[..k];
      LoadFails(c, raws, k + 1);
    }
  }
}
