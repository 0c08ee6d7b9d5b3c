/** The prefetching block source (src/BlockSource/NetworkBlockSource.cpp): it fetches up to eight blocks ahead together
    with the sign blocks around them, and hands them out one by one. */
module NetworkBlockSource {
  import opened Bytes

  type Hash = Data

  const COUNT_ADVANCED_BLOCKS := 8

  datatype Place = Before | Block | After

  /** A prefetched block; one whose dump could not be fetched or parsed raises its error when it is handed out. */
  datatype Item = Item(place: Place, number: nat, hash: Hash, failed: bool)

  /** What a server says about a block: its hash, its number and the sign blocks before and after it. */
  datatype Header = Header(hash: Hash, number: nat, before: seq<Hash>, after: seq<Hash>, failed: bool)

  /** The answers a call meets: headers of the blocks it asks for, whether all sign blocks could be fetched, and the
      sign blocks whose dump cannot be parsed or is not of their hash. */
  datatype Answers = Answers(headers: seq<Header>, extrasFetched: bool, broken: set<Hash>)

  /** `batch` in key order, `at` the next to hand out, `extra` the sign blocks after a last block that is already
      known. */
  datatype Source = Source(next: nat, last: nat, batch: seq<Item>, at: nat, extra: Option<seq<Hash>>)

  // ----- key order -----

  function Rank(p: Place): nat { match p case Before => 0 case Block => 1 case After => 2 }

  predicate KeyLess(a: Item, b: Item)
  {
    a.number < b.number ||
    (a.number == b.number && (Rank(a.place) < Rank(b.place) || (a.place == b.place && Less(a.hash, b.hash))))
  }

  lemma KeyTransitive(a: Item, b: Item, c: Item)
    requires KeyLess(a, b) && KeyLess(b, c)
    ensures KeyLess(a, c)
  {
    if a.number == c.number && a.place == c.place { LessTransitive(a.hash, b.hash, c.hash); }
  }

  predicate SameKey(a: Item, b: Item) { a.number == b.number && a.place == b.place && a.hash == b.hash }

  lemma KeyTotal(a: Item, b: Item)
    ensures KeyLess(a, b) || KeyLess(b, a) || SameKey(a, b)
  {
    LessTotal(a.hash, b.hash);
  }

  predicate Sorted(s: seq<Item>) { forall i, j :: 0 <= i < j < |s| ==> KeyLess(s[i], s[j]) }

  /** Puts an item at its place; one with the same key stays. */
  function Insert(s: seq<Item>, a: Item): (r: seq<Item>)
  {
    if s == [] then [a]
    else if KeyLess(a, s[0]) then [a] + s
    else if KeyLess(s[0], a) then [s[0]] + Insert(s[1..], a)
    else s
  }

  lemma {:induction false} InsertMembers(s: seq<Item>, a: Item)
    ensures forall x :: x in Insert(s, a) ==> x in s || x == a
    ensures forall x :: x in s ==> x in Insert(s, a)
    ensures a in Insert(s, a) || exists x :: x in s && SameKey(x, a)
  {
    if s != [] {
      assert s == [s[0]] + s[1..];
      if !KeyLess(a, s[0]) {
        if KeyLess(s[0], a) {
          InsertMembers(s[1..], a);
        } else {
          KeyTotal(s[0], a);
          assert s[0] in s;
        }
      }
    }
  }

  lemma PrependSorted(a: Item, s: seq<Item>)
    requires Sorted(s) && forall x :: x in s ==> KeyLess(a, x)
    ensures Sorted([a] + s)
  {
  }

  lemma {:induction false} InsertSorted(s: seq<Item>, a: Item)
    requires Sorted(s)
    ensures Sorted(Insert(s, a))
  {
    hide KeyLess;
    if s != [] {
      if KeyLess(a, s[0]) {
        forall x | x in s ensures KeyLess(a, x) {
          var i :| 0 <= i < |s| && s[i] == x;
          if i > 0 { KeyTransitive(a, s[0], x); }
        }
        PrependSorted(a, s);
      } else if KeyLess(s[0], a) {
        InsertSorted(s[1..], a);
        InsertMembers(s[1..], a);
        PrependSorted(s[0], Insert(s[1..], a));
      }
    }
  }

  // ----- sign blocks -----

  function Tagged(hashes: seq<Hash>, place: Place, number: nat, broken: set<Hash>): (r: seq<Item>)
    ensures |r| == |hashes|
    ensures forall i :: 0 <= i < |hashes| ==> r[i] == Item(place, number, hashes[i], hashes[i] in broken)
  {
    seq(|hashes|, i requires 0 <= i < |hashes| => Item(place, number, hashes[i], hashes[i] in broken))
  }

  function AllExtras(headers: seq<Header>, broken: set<Hash>): seq<Item>
  {
    if headers == [] then []
    else
      var h := headers[|headers| - 1];
      AllExtras(headers[..|headers| - 1], broken) + Tagged(h.before, Before, h.number, broken) +
      Tagged(h.after, After, h.number, broken)
  }

  /** Keeps the first of every hash that is not yet in the timeline. */
  function Wanted(extras: seq<Item>, seen: set<Hash>, known: set<Hash>): (r: seq<Item>)
  {
    if extras == [] then []
    else
      (if extras[0].hash in seen || extras[0].hash in known then [] else [extras[0]]) +
      Wanted(extras[1..], seen + {extras[0].hash}, known)
  }

  function InsertAll(s: seq<Item>, items: seq<Item>): seq<Item>
    decreases |items|
  {
    if items == [] then s else InsertAll(Insert(s, items[0]), items[1..])
  }

  function Blocks(headers: seq<Header>): (r: seq<Item>)
    ensures |r| == |headers|
  {
    seq(|headers|, i requires 0 <= i < |headers| => Item(Block, headers[i].number, headers[i].hash, headers[i].failed))
  }

  // ----- the calls -----

  /** Starts over after `count` blocks; the servers' chain ends at `last`. */
  function DoProcess(count: nat, last: nat, extraAtEnd: seq<Hash>): Source
  {
    Source(count + 1, last, [], 0, if last == count then Some(extraAtEnd) else None)
  }

  /** How many blocks are asked for. */
  function Ahead(s: Source): nat
    requires s.last >= s.next
  {
    if s.last - s.next + 1 < COUNT_ADVANCED_BLOCKS then s.last - s.next + 1 else COUNT_ADVANCED_BLOCKS
  }

  predicate Answered(s: Source, headers: seq<Header>)
    requires s.last >= s.next
  {
    |headers| == Ahead(s) && forall i :: 0 <= i < |headers| ==> headers[i].number == s.next + i
  }

  /** The next batch. */
  function Refill(s: Source, known: set<Hash>, a: Answers): (r: Result<seq<Item>>)
  {
    if s.extra.Some? then
      if !a.extrasFetched || s.batch != [] then Thrown
      else Returned(InsertAll([], Wanted(Tagged(s.extra.value, After, s.last, a.broken), {}, known)))
    else if s.last < s.next || !Answered(s, a.headers) || !a.extrasFetched then Thrown
    else Returned(InsertAll(InsertAll([], Blocks(a.headers)), Wanted(AllExtras(a.headers, a.broken), {}, known)))
  }

  /** Hands out the item at the cursor. */
  function Deliver(s: Source): Result<(Source, Option<Item>)>
    requires s.at < |s.batch|
  {
    var item := s.batch[s.at];
    if item.failed then Thrown
    else Returned((s.(at := s.at + 1, next := if item.place == Block then s.next + 1 else s.next), Some(item)))
  }

  /** One call: an item, or nothing more. */
  function Process(s: Source, known: set<Hash>, a: Answers): Result<(Source, Option<Item>)>
  {
    if s.at >= |s.batch| && s.extra.None? && s.last < s.next then Returned((s, None))
    else if s.at < |s.batch| then Deliver(s)
    else
      var batch :- Refill(s, known, a);
      var filled := s.(batch := batch, at := 0, extra := None);
      if batch == [] then Returned((filled, None)) else Deliver(filled)
  }

  // ----- the object -----

  class NetworkBlockSource {
    var nextBlockToRead: nat
    var lastBlockInBlockchain: nat
    var advancedBlocks: seq<Item>
    var currentProcessedBlock: nat
    var afterBlocks: Option<seq<Hash>>

    ghost function Value(): Source
      reads this
    {
      Source(nextBlockToRead, lastBlockInBlockchain, advancedBlocks, currentProcessedBlock, afterBlocks)
    }

    constructor ()
      ensures Value() == Source(0, 0, [], 0, None)
    {
      nextBlockToRead, lastBlockInBlockchain, advancedBlocks, currentProcessedBlock, afterBlocks := 0, 0, [], 0, None;
    }

    method Start(countBlocks: nat, last: nat, extraAtEnd: seq<Hash>)
      modifies this
      ensures Value() == DoProcess(countBlocks, last, extraAtEnd)
    {
      nextBlockToRead := countBlocks + 1;
      advancedBlocks, currentProcessedBlock, afterBlocks := [], 0, None;
      lastBlockInBlockchain := last;
      if lastBlockInBlockchain == nextBlockToRead - 1 { afterBlocks := Some(extraAtEnd); }
    }

    /** Drops repeated and already known sign blocks and enters the others. */
    method ProcessAdditingBlocks(additing: seq<Item>, known: set<Hash>)
      modifies this`advancedBlocks
      ensures advancedBlocks == InsertAll(old(advancedBlocks), Wanted(additing, {}, known))
    {
      hide Insert;
      var existing: set<Hash>, i := {}, 0;
      while i < |additing|
        invariant 0 <= i <= |additing|
        invariant InsertAll(advancedBlocks, Wanted(additing[i..], existing, known)) ==
                  InsertAll(old(advancedBlocks), Wanted(additing[0..], {}, known))
      {
        var block := additing[i];
        assert additing[i..][1..] == additing[i + 1..];
        ghost var rest := Wanted(additing[i + 1..], existing + {block.hash}, known);
        if block.hash !in existing && block.hash !in known {
          assert ([block] + rest)[1..] == rest;
          advancedBlocks := Insert(advancedBlocks, block);
        } else {
          assert [] + rest == rest;
        }
        existing := existing + {block.hash};
        i := i + 1;
      }
      assert additing[0..] == additing;
    }

    method CollectAdditing(headers: seq<Header>, broken: set<Hash>) returns (additing: seq<Item>)
      ensures additing == AllExtras(headers, broken)
    {
      additing := [];
      for i := 0 to |headers|
        invariant additing == AllExtras(headers[..i], broken)
      {
        assert headers[..i + 1][..i] == headers[..i];
        var h := headers[i];
        additing := additing + Tagged(h.before, Before, h.number, broken) + Tagged(h.after, After, h.number, broken);
      }
      assert headers[..|headers|] == headers;
    }

    method FetchBlocks(headers: seq<Header>) returns (thrown: bool)
      requires lastBlockInBlockchain >= nextBlockToRead
      modifies this`advancedBlocks
      ensures thrown <==> !Answered(Value(), headers)
      ensures !thrown ==> advancedBlocks == InsertAll([], Blocks(headers))
    {
      hide Insert;
      advancedBlocks := [];
      var absent := lastBlockInBlockchain - nextBlockToRead + 1;
      if |headers| != (if absent < COUNT_ADVANCED_BLOCKS then absent else COUNT_ADVANCED_BLOCKS) { return true; }
      var i := 0;
      while i < |headers|
        invariant 0 <= i <= |headers| && forall k :: 0 <= k < i ==> headers[k].number == nextBlockToRead + k
        invariant InsertAll(advancedBlocks, Blocks(headers)[i..]) == InsertAll([], Blocks(headers)[0..])
      {
        var h := headers[i];
        if h.number != nextBlockToRead + i { return true; }
        assert Blocks(headers)[i..][1..] == Blocks(headers)[i + 1..];
        advancedBlocks := Insert(advancedBlocks, Item(Block, h.number, h.hash, h.failed));
        i := i + 1;
      }
      assert Blocks(headers)[0..] == Blocks(headers);
      thrown := false;
    }

    /** After an error the caller starts over. */
    method Next(known: set<Hash>, a: Answers) returns (thrown: bool, item: Option<Item>)
      modifies this
      ensures thrown == Process(old(Value()), known, a).Thrown?
      ensures !thrown ==> Process(old(Value()), known, a) == Returned((Value(), item))
    {
      hide InsertAll; hide Wanted; hide AllExtras;
      ghost var s := Value();
      thrown, item := false, None;
      if currentProcessedBlock >= |advancedBlocks| && afterBlocks.None? && lastBlockInBlockchain < nextBlockToRead {
        return;
      }
      if currentProcessedBlock >= |advancedBlocks| {
        var additing;
        if afterBlocks.None? {
          thrown := FetchBlocks(a.headers);
          if thrown { return; }
          additing := CollectAdditing(a.headers, a.broken);
        } else {
          if advancedBlocks != [] { return true, None; }
          additing := Tagged(afterBlocks.value, After, lastBlockInBlockchain, a.broken);
          afterBlocks := None;
        }
        if !a.extrasFetched { return true, None; }
        ProcessAdditingBlocks(additing, known);
        currentProcessedBlock := 0;
        if advancedBlocks == [] { return; }
      }
      var advanced := advancedBlocks[currentProcessedBlock];
      if advanced.failed { return true, None; }
      currentProcessedBlock := currentProcessedBlock + 1;
      if advanced.place == Block { nextBlockToRead := nextBlockToRead + 1; }
      item := Some(advanced);
    }
  }
}
