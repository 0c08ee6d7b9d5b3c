/** What the prefetching block source hands out between a start and its end. */
module SourceRuns {
  import opened Bytes
  import opened NetworkBlockSource

  // ----- reading a list of items -----

  /** The numbers of the simple blocks, in order. */
  function BlockNumbers(items: seq<Item>): seq<nat>
  {
    if items == [] then []
    else
      BlockNumbers(items[..|items| - 1]) +
      (if items[|items| - 1].place == Block then [items[|items| - 1].number] else [])
  }

  function Range(low: nat, high: nat): (r: seq<nat>)
    ensures low <= high ==> |r| == high - low
    decreases high
  {
    if low >= high then [] else Range(low, high - 1) + [high - 1]
  }

  /** No two sign blocks have one hash. */
  predicate SignsOnce(items: seq<Item>)
  {
    forall i, j :: 0 <= i < j < |items| && items[i].place != Block && items[j].place != Block ==>
      items[i].hash != items[j].hash
  }

  predicate SignsNew(items: seq<Item>, known: set<Hash>)
  {
    forall i :: 0 <= i < |items| && items[i].place != Block ==> items[i].hash !in known
  }

  predicate NumbersWithin(items: seq<Item>, from: nat, to: nat)
  {
    forall i :: 0 <= i < |items| ==> from <= items[i].number < to
  }

  function Hashes(items: seq<Item>): set<Hash> { set i | 0 <= i < |items| :: items[i].hash }

  lemma {:induction false} BlockNumbersAppend(a: seq<Item>, b: seq<Item>)
    ensures BlockNumbers(a + b) == BlockNumbers(a) + BlockNumbers(b)
    decreases |b|
  {
    if b == [] {
      assert a + b == a;
    } else {
      assert (a + b)[..|a + b| - 1] == a + b[..|b| - 1];
      BlockNumbersAppend(a, b[..|b| - 1]);
    }
  }

  // ----- one batch -----

  /** Placing a sign block does not touch the simple ones. */
  lemma {:induction false} InsertSign(s: seq<Item>, a: Item)
    requires a.place != Block
    ensures BlockNumbers(Insert(s, a)) == BlockNumbers(s)
  {
    hide KeyLess;
    if s == [] {
      assert [a][..0] == [];
    } else if KeyLess(a, s[0]) {
      BlockNumbersAppend([a], s);
      assert [a][..0] == [];
    } else if KeyLess(s[0], a) {
      InsertSign(s[1..], a);
      BlockNumbersAppend([s[0]], Insert(s[1..], a));
      BlockNumbersAppend([s[0]], s[1..]);
      assert s == [s[0]] + s[1..];
    }
  }

  /** Where the items of a batch come from. */
  ghost predicate FromEither(batch: seq<Item>, a: seq<Item>, b: seq<Item>)
  {
    forall x :: x in batch ==> x in a || x in b
  }

  lemma {:induction false} InsertSigns(s: seq<Item>, items: seq<Item>)
    requires Sorted(s) && forall x :: x in items ==> x.place != Block
    ensures var r := InsertAll(s, items); Sorted(r) && BlockNumbers(r) == BlockNumbers(s) && FromEither(r, s, items)
    decreases |items|
  {
    hide Insert; hide BlockNumbers; hide Sorted;
    if items != [] {
      assert items[0] in items;
      InsertSign(s, items[0]);
      InsertSorted(s, items[0]);
      InsertMembers(s, items[0]);
      assert forall x :: x in items[1..] ==> x in items;
      InsertSigns(Insert(s, items[0]), items[1..]);
    }
  }

  lemma {:induction false} InsertLast(s: seq<Item>, a: Item)
    requires forall x :: x in s ==> x.number < a.number
    ensures Insert(s, a) == s + [a]
  {
    if s != [] {
      assert s[0] in s;
      assert forall x :: x in s[1..] ==> x in s;
      InsertLast(s[1..], a);
    }
  }

  lemma {:induction false} InsertRising(s: seq<Item>, items: seq<Item>)
    requires forall i :: 0 <= i < |items| ==> forall x :: x in s ==> x.number < items[i].number
    requires forall i, j :: 0 <= i < j < |items| ==> items[i].number < items[j].number
    ensures InsertAll(s, items) == s + items
    decreases |items|
  {
    if items == [] {
      assert s + items == s;
    } else {
      InsertLast(s, items[0]);
      InsertRising(s + [items[0]], items[1..]);
      assert s + items == s + [items[0]] + items[1..];
    }
  }

  lemma {:induction false} BlocksRange(headers: seq<Header>, from: nat)
    requires forall i :: 0 <= i < |headers| ==> headers[i].number == from + i
    ensures BlockNumbers(Blocks(headers)) == Range(from, from + |headers|)
  {
    if headers != [] {
      var front := headers[..|headers| - 1];
      BlocksRange(front, from);
      assert Blocks(headers)[..|headers| - 1] == Blocks(front);
    }
  }

  lemma {:induction false} ExtrasWithin(headers: seq<Header>, broken: set<Hash>, from: nat)
    requires forall i :: 0 <= i < |headers| ==> headers[i].number == from + i
    ensures NumbersWithin(AllExtras(headers, broken), from, from + |headers|)
    ensures forall x :: x in AllExtras(headers, broken) ==> x.place != Block
  {
    if headers != [] { ExtrasWithin(headers[..|headers| - 1], broken, from); }
  }

  /** What is wanted of the extras: one per hash, unknown so far. */
  lemma {:induction false} WantedOnce(extras: seq<Item>, seen: set<Hash>, known: set<Hash>)
    ensures var r := Wanted(extras, seen, known);
            (forall x :: x in r ==> x in extras && x.hash !in seen && x.hash !in known) &&
            (forall i, j :: 0 <= i < j < |r| ==> r[i].hash != r[j].hash)
    decreases |extras|
  {
    if extras != [] {
      WantedOnce(extras[1..], seen + {extras[0].hash}, known);
      var rest := Wanted(extras[1..], seen + {extras[0].hash}, known);
      assert forall i :: 0 <= i < |rest| ==> rest[i] in rest;
      assert forall x :: x in extras[1..] ==> x in extras;
    }
  }

  lemma OnceInBatch(batch: seq<Item>, blocks: seq<Item>, wanted: seq<Item>)
    requires Sorted(batch) && FromEither(batch, blocks, wanted) && (forall x :: x in blocks ==> x.place == Block)
    requires forall i, j :: 0 <= i < j < |wanted| ==> wanted[i].hash != wanted[j].hash
    ensures SignsOnce(batch)
  {
    forall i, j | 0 <= i < j < |batch| && batch[i].place != Block && batch[j].place != Block
      ensures batch[i].hash != batch[j].hash {
      assert batch[i] in wanted && batch[j] in wanted;
      LessIrreflexive(batch[i].hash);
      assert KeyLess(batch[i], batch[j]);
    }
  }

  /** A batch continues where the blocks so far end. */
  ghost predicate GoodBatch(batch: seq<Item>, from: nat, to: nat, low: nat, known: set<Hash>)
  {
    Sorted(batch) && BlockNumbers(batch) == Range(from, to) && NumbersWithin(batch, low, to) && SignsOnce(batch) &&
      SignsNew(batch, known)
  }

  lemma BatchOf(blocks: seq<Item>, extras: seq<Item>, known: set<Hash>, from: nat, to: nat, low: nat)
    requires Sorted(blocks) && BlockNumbers(blocks) == Range(from, to) && NumbersWithin(blocks, low, to) &&
             NumbersWithin(extras, low, to)
    requires (forall x :: x in blocks ==> x.place == Block) && (forall x :: x in extras ==> x.place != Block)
    ensures GoodBatch(InsertAll(blocks, Wanted(extras, {}, known)), from, to, low, known)
  {
    hide Wanted; hide InsertAll; hide BlockNumbers; hide Sorted;
    var wanted := Wanted(extras, {}, known);
    WantedOnce(extras, {}, known);
    InsertSigns(blocks, wanted);
    var batch := InsertAll(blocks, wanted);
    OnceInBatch(batch, blocks, wanted);
    forall i | 0 <= i < |batch| ensures low <= batch[i].number < to &&
      (batch[i].place != Block ==> batch[i].hash !in known) {
      assert batch[i] in batch;
    }
  }

  lemma BlocksSorted(headers: seq<Header>, from: nat)
    requires forall i :: 0 <= i < |headers| ==> headers[i].number == from + i
    ensures Sorted(Blocks(headers)) && NumbersWithin(Blocks(headers), from, from + |headers|)
    ensures InsertAll([], Blocks(headers)) == Blocks(headers)
    ensures forall x :: x in Blocks(headers) ==> x.place == Block
  {
    InsertRising([], Blocks(headers));
    assert [] + Blocks(headers) == Blocks(headers);
  }

  lemma RefillGood(s: Source, known: set<Hash>, a: Answers)
    requires Refill(s, known, a).Returned?
    ensures var batch := Refill(s, known, a).value;
            if s.extra.Some? then GoodBatch(batch, s.last + 1, s.last + 1, s.last, known)
            else s.next <= s.last && GoodBatch(batch, s.next, s.next + Ahead(s), s.next, known)
  {
    hide InsertAll; hide Wanted; hide AllExtras; hide BlockNumbers; hide GoodBatch; hide Sorted;
    if s.extra.Some? {
      EmptyBlocks(s.last + 1, s.last);
      BatchOf([], Tagged(s.extra.value, After, s.last, a.broken), known, s.last + 1, s.last + 1, s.last);
    } else {
      BlocksRange(a.headers, s.next);
      BlocksSorted(a.headers, s.next);
      ExtrasWithin(a.headers, a.broken, s.next);
      BatchOf(Blocks(a.headers), AllExtras(a.headers, a.broken), known, s.next, s.next + Ahead(s), s.next);
    }
  }

  lemma EmptyBlocks(n: nat, low: nat)
    ensures Sorted([]) && BlockNumbers([]) == Range(n, n) && NumbersWithin([], low, n)
  {
  }

  // ----- runs -----

  lemma {:induction false} RangeHead(low: nat, high: nat)
    requires low < high
    ensures Range(low, high) == [low] + Range(low + 1, high)
    decreases high
  {
    if low < high - 1 { RangeHead(low, high - 1); }
  }

  lemma {:induction false} RangeJoin(low: nat, mid: nat, high: nat)
    requires low <= mid <= high
    ensures Range(low, mid) + Range(mid, high) == Range(low, high)
    decreases high
  {
    if mid == high { assert Range(low, mid) + [] == Range(low, mid); } else { RangeJoin(low, mid, high - 1); }
  }

  function Lowest(c: nat, last: nat): nat { if last == c then c else c + 1 }

  /** What has been handed out and what is still in the batch form one list in key order. */
  ghost predicate ListOk(all: seq<Item>, low: nat, end: nat, known: set<Hash>)
  {
    Sorted(all) && NumbersWithin(all, low, end) && SignsOnce(all) && SignsNew(all, known)
  }

  ghost predicate CountsOk(done: seq<Item>, rest: seq<Item>, c: nat, next: nat, end: nat)
  {
    c < next <= end && BlockNumbers(done) == Range(c + 1, next) && BlockNumbers(rest) == Range(next, end)
  }

  ghost predicate SourceOk(s: Source, c: nat, last: nat, known: set<Hash>, done: seq<Item>, end: nat)
  {
    s.at <= |s.batch| && s.last == last && (end <= last + 1 || end == c + 1) &&
    ListOk(done + s.batch[s.at..], Lowest(c, last), end, known) && CountsOk(done, s.batch[s.at..], c, s.next, end) &&
    (s.extra.Some? ==> done == [] && s.batch == [] && last == c && end == c + 1)
  }

  lemma StartOk(c: nat, last: nat, extra: seq<Hash>, known: set<Hash>)
    ensures SourceOk(DoProcess(c, last, extra), c, last, known, [], c + 1)
  {
  }

  lemma DeliverCounts(done: seq<Item>, rest: seq<Item>, c: nat, next: nat, end: nat)
    requires CountsOk(done, rest, c, next, end) && rest != []
    ensures var item := rest[0];
            var next' := if item.place == Block then next + 1 else next;
            CountsOk(done + [item], rest[1..], c, next', end) && (item.place == Block ==> item.number == next)
  {
    var item := rest[0];
    assert rest == [item] + rest[1..];
    BlockNumbersAppend([item], rest[1..]);
    BlockNumbersAppend(done, [item]);
    assert [item][..0] == [];
    if item.place == Block {
      assert BlockNumbers([item]) == [item.number];
      assert BlockNumbers(rest)[0] == item.number;
      RangeHead(next, end);
      RangeJoin(c + 1, next, next + 1);
      assert BlockNumbers(rest[1..]) == BlockNumbers(rest)[1..];
    } else {
      assert BlockNumbers(done + [item]) == BlockNumbers(done);
    }
  }

  lemma DeliverOk(s: Source, c: nat, last: nat, known: set<Hash>, done: seq<Item>, end: nat)
    requires SourceOk(s, c, last, known, done, end) && s.at < |s.batch| && Deliver(s).Returned?
    ensures var (s', item) := Deliver(s).value;
            item == Some(s.batch[s.at]) && SourceOk(s', c, last, known, done + [s.batch[s.at]], end)
  {
    hide ListOk; hide CountsOk;
    var item, rest := s.batch[s.at], s.batch[s.at..];
    DeliverCounts(done, rest, c, s.next, end);
    assert rest[1..] == s.batch[s.at + 1..];
    assert done + [item] + rest[1..] == done + rest;
  }

  lemma JoinBatch(done: seq<Item>, batch: seq<Item>, low: nat, mid: nat, end: nat, from: nat, known: set<Hash>)
    requires ListOk(done, low, mid, known) && GoodBatch(batch, from, end, mid, known + Hashes(done)) &&
             low <= mid <= end
    ensures ListOk(done + batch, low, end, known)
  {
    hide BlockNumbers; hide Range;
    var all := done + batch;
    forall i, j | 0 <= i < j < |all| && all[i].place != Block && all[j].place != Block
      ensures all[i].hash != all[j].hash {
      if i < |done| && |done| <= j { assert all[i] == done[i]; assert all[j] == batch[j - |done|]; }
    }
  }

  /** A call that goes on for a new batch. */
  lemma RefillOk(s: Source, c: nat, last: nat, known: set<Hash>, done: seq<Item>, end: nat, a: Answers)
    returns (end': nat)
    requires SourceOk(s, c, last, known, done, end) && s.at == |s.batch| && Refill(s, known + Hashes(done), a).Returned?
    ensures if s.extra.Some? then end' == end else end == s.next < end'
    ensures SourceOk(s.(batch := Refill(s, known + Hashes(done), a).value, at := 0, extra := None), c, last, known,
            done, end')
  {
    hide ListOk; hide GoodBatch; hide Refill;
    var batch := Refill(s, known + Hashes(done), a).value;
    RefillGood(s, known + Hashes(done), a);
    assert done + s.batch[s.at..] == done;
    RangeEmpty(s.next, end);
    if s.extra.Some? {
      end' := end;
      AtEnd(batch, end, last, known + Hashes(done), done, known);
    } else {
      end' := s.next + Ahead(s);
      JoinBatch(done, batch, Lowest(c, last), s.next, end', s.next, known);
      GoodCounts(batch, s.next, end', s.next, known + Hashes(done));
    }
    assert batch[0..] == batch;
  }

  lemma RangeEmpty(low: nat, high: nat)
    requires low <= high
    ensures |Range(low, high)| == high - low
  {
  }

  lemma GoodCounts(batch: seq<Item>, from: nat, end: nat, low: nat, known: set<Hash>)
    requires GoodBatch(batch, from, end, low, known)
    ensures BlockNumbers(batch) == Range(from, end)
  {
  }

  lemma AtEnd(batch: seq<Item>, end: nat, last: nat, known': set<Hash>, done: seq<Item>, known: set<Hash>)
    requires GoodBatch(batch, end, end, last, known') && done == [] && known <= known' && end == last + 1
    ensures ListOk(done + batch, last, end, known) && BlockNumbers(batch) == Range(end, end)
  {
    assert done + batch == batch;
  }

  /** The call has to fetch a new batch. */
  predicate Asks(s: Source) { s.at >= |s.batch| && !(s.extra.None? && s.last < s.next) }

  lemma ProcessOk(s: Source, c: nat, last: nat, known: set<Hash>, done: seq<Item>, end: nat, a: Answers)
    returns (end': nat)
    requires SourceOk(s, c, last, known, done, end) && Process(s, known + Hashes(done), a).Returned?
    ensures var (s', item) := Process(s, known + Hashes(done), a).value;
            SourceOk(s', c, last, known, done + (if item.Some? then [item.value] else []), end') &&
            (item.None? ==> s'.at == |s'.batch| && s'.last < s'.next)
    ensures if Asks(s) && s.extra.None? then end' > end else end' == end
  {
    hide ListOk; hide CountsOk; hide Refill;
    end' := end;
    assert done + [] == done;
    if s.at < |s.batch| {
      DeliverOk(s, c, last, known, done, end);
    } else if !(s.extra.None? && s.last < s.next) {
      end' := RefillOk(s, c, last, known, done, end, a);
      var filled := s.(batch := Refill(s, known + Hashes(done), a).value, at := 0, extra := None);
      if filled.batch != [] {
        DeliverOk(filled, c, last, known, done, end');
      } else {
        NothingNew(s, filled, c, last, known, done, end, end', a);
      }
    }
  }

  /** Only an offer of sign blocks can come to nothing. */
  lemma NothingNew(s: Source, filled: Source, c: nat, last: nat, known: set<Hash>, done: seq<Item>, end: nat, end': nat,
                   a: Answers)
    requires SourceOk(s, c, last, known, done, end) && SourceOk(filled, c, last, known, done, end')
    requires Refill(s, known + Hashes(done), a) == Returned(filled.batch) && filled.batch == [] && filled.next == s.next
    ensures s.last < s.next
  {
    hide ListOk; hide Refill;
    RefillGood(s, known + Hashes(done), a);
  }

  /** Calls after a start, each handing out an item and followed by an update of the timeline. */
  ghost predicate IsCalls(c: nat, last: nat, extra: seq<Hash>, known: set<Hash>, ss: seq<Source>, answers: seq<Answers>,
                          given: seq<Item>)
  {
    |ss| > |given| && |answers| >= |given| && ss[0] == DoProcess(c, last, extra) &&
    forall i :: 0 <= i < |given| ==>
      Process(ss[i], known + Hashes(given[..i]), answers[i]) == Returned((ss[i + 1], Some(given[i])))
  }

  /** Calls without an error; the last one finds nothing more. */
  ghost predicate IsRun(c: nat, last: nat, extra: seq<Hash>, known: set<Hash>, ss: seq<Source>, answers: seq<Answers>,
                        given: seq<Item>)
  {
    |ss| == |given| + 2 && |answers| == |given| + 1 && IsCalls(c, last, extra, known, ss, answers, given) &&
    Process(ss[|given|], known + Hashes(given), answers[|given|]) == Returned((ss[|given| + 1], None))
  }

  lemma {:induction false} RunOk(c: nat, last: nat, extra: seq<Hash>, known: set<Hash>, ss: seq<Source>,
                                 answers: seq<Answers>, given: seq<Item>, n: nat)
    returns (end: nat)
    requires IsCalls(c, last, extra, known, ss, answers, given) && n <= |given|
    ensures SourceOk(ss[n], c, last, known, given[..n], end)
    decreases n
  {
    hide SourceOk; hide Process;
    if n == 0 {
      end := c + 1;
      StartOk(c, last, extra, known);
    } else {
      end := RunOk(c, last, extra, known, ss, answers, given, n - 1);
      assert Process(ss[n - 1], known + Hashes(given[..n - 1]), answers[n - 1]) ==
        Returned((ss[n], Some(given[n - 1])));
      end := ProcessOk(ss[n - 1], c, last, known, given[..n - 1], end, answers[n - 1]);
      assert given[..n] == given[..n - 1] + [given[n - 1]];
    }
  }

  /** Between a start after block c and the end, the simple blocks c + 1 to the last are handed out once each and in
      order; every sign block is handed out at most once and was not in the timeline; and everything comes in key order,
      so the sign blocks before a block precede it and those after it stand between it and the next. */
  lemma RunDelivers(c: nat, last: nat, extra: seq<Hash>, known: set<Hash>, ss: seq<Source>, answers: seq<Answers>,
                    given: seq<Item>)
    requires IsRun(c, last, extra, known, ss, answers, given)
    ensures BlockNumbers(given) == Range(c + 1, if last > c then last + 1 else c + 1)
    ensures SignsOnce(given) && SignsNew(given, known)
    ensures forall i, j :: 0 <= i < j < |given| ==>
              given[i].number < given[j].number || (given[i].number == given[j].number &&
                Rank(given[i].place) <= Rank(given[j].place))
    ensures forall i :: 0 <= i < |given| ==>
            Lowest(c, last) <= given[i].number && (given[i].number <= last || given[i].number <= c)
  {
    hide Process; hide BlockNumbers;
    var n := |given|;
    var end := RunOk(c, last, extra, known, ss, answers, given, n);
    assert given[..n] == given;
    assert Process(ss[n], known + Hashes(given), answers[n]) == Returned((ss[n + 1], None));
    end := ProcessOk(ss[n], c, last, known, given, end, answers[n]);
    assert given + [] == given;
    var s := ss[n + 1];
    Exhausted(s, c, last, known, given, end);
  }

  lemma Exhausted(s: Source, c: nat, last: nat, known: set<Hash>, given: seq<Item>, end: nat)
    requires SourceOk(s, c, last, known, given, end) && s.at == |s.batch| && s.last < s.next
    ensures end == (if last > c then last + 1 else c + 1) && BlockNumbers(given) == Range(c + 1, end)
    ensures ListOk(given, Lowest(c, last), end, known)
  {
    hide ListOk;
    assert given + s.batch[s.at..] == given;
    RangeEmpty(s.next, end);
  }

  // ----- nothing invented, nothing dropped -----

  /** The sign blocks a fetching call is told of. */
  function Told(s: Source, a: Answers): seq<Item>
  {
    if s.extra.Some? then Tagged(s.extra.value, After, s.last, a.broken) else AllExtras(a.headers, a.broken)
  }

  /** What a server told about the item: a simple block is the block of its number, failed if that one is; a sign block
      stands in the list of its place. */
  ghost predicate Listed(h: Header, x: Item)
  {
    h.number == x.number &&
    match x.place
    case Before => x.hash in h.before
    case Block => x.hash == h.hash && x.failed == h.failed
    case After => x.hash in h.after
  }

  /** The item stands in these answers; a sign block has failed exactly if they have it broken. */
  ghost predicate ToldBy(s: Source, a: Answers, x: Item)
  {
    (x.place == Block || (x.failed <==> x.hash in a.broken)) &&
    if s.extra.Some? then x.place == After && x.number == s.last && x.hash in s.extra.value
    else exists k :: 0 <= k < |a.headers| && Listed(a.headers[k], x)
  }

  lemma {:induction false} ExtrasListed(headers: seq<Header>, broken: set<Hash>, x: Item) returns (k: nat)
    requires x in AllExtras(headers, broken)
    ensures k < |headers| && Listed(headers[k], x) && x.place != Block && (x.failed <==> x.hash in broken)
  {
    var n := |headers| - 1;
    var h := headers[n];
    if x in AllExtras(headers[..n], broken) {
      k := ExtrasListed(headers[..n], broken, x);
    } else {
      k := n;
    }
  }

  /** The answers of a fetching call name the sign block. */
  ghost predicate NamesSign(s: Source, a: Answers, h: Hash)
  {
    if s.extra.Some? then h in s.extra.value
    else exists k :: 0 <= k < |a.headers| && (h in a.headers[k].before || h in a.headers[k].after)
  }

  lemma {:induction false} ExtrasNamed(headers: seq<Header>, broken: set<Hash>, k: nat, h: Hash) returns (x: Item)
    requires k < |headers| && (h in headers[k].before || h in headers[k].after)
    ensures x in AllExtras(headers, broken) && x.hash == h
  {
    var n := |headers| - 1;
    var last := headers[n];
    if k < n {
      x := ExtrasNamed(headers[..n], broken, k, h);
    } else if h in last.before {
      var i :| 0 <= i < |last.before| && last.before[i] == h;
      x := Tagged(last.before, Before, last.number, broken)[i];
    } else {
      var i :| 0 <= i < |last.after| && last.after[i] == h;
      x := Tagged(last.after, After, last.number, broken)[i];
    }
  }

  lemma NamedIsTold(s: Source, a: Answers, h: Hash) returns (x: Item)
    requires NamesSign(s, a, h)
    ensures x in Told(s, a) && x.hash == h
  {
    if s.extra.Some? {
      var i :| 0 <= i < |s.extra.value| && s.extra.value[i] == h;
      x := Tagged(s.extra.value, After, s.last, a.broken)[i];
    } else {
      var k :| 0 <= k < |a.headers| && (h in a.headers[k].before || h in a.headers[k].after);
      x := ExtrasNamed(a.headers, a.broken, k, h);
    }
  }

  lemma {:induction false} WantedCovers(extras: seq<Item>, seen: set<Hash>, known: set<Hash>, x: Item)
    requires x in extras
    ensures x.hash in seen || x.hash in known || exists w :: w in Wanted(extras, seen, known) && w.hash == x.hash
    decreases |extras|
  {
    var rest := Wanted(extras[1..], seen + {extras[0].hash}, known);
    assert forall w :: w in rest ==> w in Wanted(extras, seen, known);
    if x == extras[0] {
      if x.hash !in seen && x.hash !in known { assert extras[0] in Wanted(extras, seen, known); }
    } else {
      assert extras == [extras[0]] + extras[1..];
      WantedCovers(extras[1..], seen + {extras[0].hash}, known, x);
      if extras[0].hash == x.hash && x.hash !in seen && x.hash !in known {
        assert extras[0] in Wanted(extras, seen, known);
      }
    }
  }

  lemma {:induction false} InsertCovers(s: seq<Item>, items: seq<Item>)
    ensures forall x :: x in s ==> x in InsertAll(s, items)
    ensures forall x :: x in items ==> x.hash in Hashes(InsertAll(s, items))
    decreases |items|
  {
    hide Insert;
    if items != [] {
      InsertMembers(s, items[0]);
      InsertCovers(Insert(s, items[0]), items[1..]);
      assert items == [items[0]] + items[1..];
      var all := InsertAll(s, items);
      if items[0] in Insert(s, items[0]) {
        InHashes(all, items[0]);
      } else {
        var y :| y in s && SameKey(y, items[0]);
        InHashes(all, y);
      }
    }
  }

  lemma InHashes(items: seq<Item>, x: Item)
    requires x in items
    ensures x.hash in Hashes(items)
  {
  }

  lemma FetchCovers(s: Source, known: set<Hash>, a: Answers, x: Item)
    requires Refill(s, known, a).Returned? && x in Told(s, a)
    ensures x.hash in known || x.hash in Hashes(Refill(s, known, a).value)
  {
    hide InsertAll; hide Wanted; hide AllExtras; hide Hashes;
    WantedCovers(Told(s, a), {}, known, x);
    if x.hash !in known {
      var w :| w in Wanted(Told(s, a), {}, known) && w.hash == x.hash;
      InsertCovers(if s.extra.Some? then [] else InsertAll([], Blocks(a.headers)), Wanted(Told(s, a), {}, known));
    }
  }

  lemma FetchTold(s: Source, known: set<Hash>, a: Answers, x: Item)
    requires Refill(s, known, a).Returned? && x in Refill(s, known, a).value
    ensures ToldBy(s, a, x)
  {
    hide InsertAll; hide Wanted; hide AllExtras; hide BlockNumbers; hide Sorted;
    var wanted := Wanted(Told(s, a), {}, known);
    WantedOnce(Told(s, a), {}, known);
    if s.extra.Some? {
      SortedNothing();
      InsertSigns([], wanted);
    } else {
      BlocksSorted(a.headers, s.next);
      ExtrasWithin(a.headers, a.broken, s.next);
      InsertSigns(Blocks(a.headers), wanted);
      if x in Blocks(a.headers) {
        var k :| 0 <= k < |a.headers| && Blocks(a.headers)[k] == x;
        assert Listed(a.headers[k], x);
      } else {
        var k := ExtrasListed(a.headers, a.broken, x);
        assert Listed(a.headers[k], x);
      }
    }
  }

  lemma SortedNothing()
    ensures Sorted([])
  {
  }

  /** Some fetching call among the first n was told of the item. */
  ghost predicate Offered(ss: seq<Source>, answers: seq<Answers>, n: nat, x: Item)
    requires n <= |ss| && n <= |answers|
  {
    exists j :: 0 <= j < n && Asks(ss[j]) && ToldBy(ss[j], answers[j], x)
  }

  /** Up to call n, every item of the list was offered, and every sign block told of is known or in the list. */
  ghost predicate Faithful(ss: seq<Source>, answers: seq<Answers>, n: nat, known: set<Hash>, all: seq<Item>)
    requires n <= |ss| && n <= |answers|
  {
    (forall x :: x in all ==> Offered(ss, answers, n, x)) &&
    (forall j, x :: 0 <= j < n && Asks(ss[j]) && x in Told(ss[j], answers[j]) ==>
      x.hash in known || x.hash in Hashes(all))
  }

  lemma FaithfulMore(ss: seq<Source>, answers: seq<Answers>, n: nat, known: set<Hash>, all: seq<Item>)
    requires n < |ss| && n < |answers| && Faithful(ss, answers, n, known, all) && !Asks(ss[n])
    ensures Faithful(ss, answers, n + 1, known, all)
  {
    hide ToldBy; hide Told; hide Hashes; hide Asks;
    forall x | x in all ensures Offered(ss, answers, n + 1, x) { assert Offered(ss, answers, n, x); }
  }

  lemma FaithfulBatch(ss: seq<Source>, answers: seq<Answers>, n: nat, known: set<Hash>, done: seq<Item>)
    requires n < |ss| && n < |answers| && Faithful(ss, answers, n, known, done) && Asks(ss[n])
    requires Refill(ss[n], known + Hashes(done), answers[n]).Returned?
    ensures Faithful(ss, answers, n + 1, known, done + Refill(ss[n], known + Hashes(done), answers[n]).value)
  {
    hide ToldBy; hide Told; hide Asks; hide Refill;
    var batch := Refill(ss[n], known + Hashes(done), answers[n]).value;
    var all := done + batch;
    HashesJoin(done, batch);
    forall x | x in all ensures Offered(ss, answers, n + 1, x) {
      if x in done {
        assert Offered(ss, answers, n, x);
      } else {
        FetchTold(ss[n], known + Hashes(done), answers[n], x);
      }
    }
    forall j, x | 0 <= j < n + 1 && Asks(ss[j]) && x in Told(ss[j], answers[j])
      ensures x.hash in known || x.hash in Hashes(all) {
      if j == n { FetchCovers(ss[n], known + Hashes(done), answers[n], x); }
    }
  }

  lemma HashesJoin(a: seq<Item>, b: seq<Item>)
    ensures Hashes(a + b) == Hashes(a) + Hashes(b)
  {
    forall h | h in Hashes(a) ensures h in Hashes(a + b) {
      var i :| 0 <= i < |a| && a[i].hash == h;
      assert (a + b)[i].hash == h;
    }
    forall h | h in Hashes(b) ensures h in Hashes(a + b) {
      var i :| 0 <= i < |b| && b[i].hash == h;
      assert (a + b)[|a| + i].hash == h;
    }
  }

  /** One call, whether it fetches or not. */
  lemma CallFaithful(ss: seq<Source>, answers: seq<Answers>, n: nat, known: set<Hash>, done: seq<Item>, next: Source,
                     item: Option<Item>)
    requires n < |ss| && n < |answers| && ss[n].at <= |ss[n].batch| &&
             Faithful(ss, answers, n, known, done + ss[n].batch[ss[n].at..])
    requires Process(ss[n], known + Hashes(done), answers[n]) == Returned((next, item))
    ensures next.at <= |next.batch|
    ensures Faithful(ss, answers, n + 1, known,
            done + (if item.Some? then [item.value] else []) + next.batch[next.at..])
  {
    hide Faithful; hide Refill; hide Hashes;
    var s := ss[n];
    assert done + [] == done;
    if Asks(s) {
      assert done + s.batch[s.at..] == done;
      var batch := Refill(s, known + Hashes(done), answers[n]).value;
      FaithfulBatch(ss, answers, n, known, done);
      if batch != [] {
        assert [batch[0]] + batch[1..] == batch && done + batch == done + [batch[0]] + batch[1..];
      } else {
        assert done + batch == done;
      }
    } else {
      FaithfulMore(ss, answers, n, known, done + s.batch[s.at..]);
      if s.at < |s.batch| { assert done + s.batch[s.at..] == done + [s.batch[s.at]] + s.batch[s.at + 1..]; }
    }
  }

  lemma {:induction false} RunFaithful(c: nat, last: nat, extra: seq<Hash>, known: set<Hash>, ss: seq<Source>,
                                       answers: seq<Answers>, given: seq<Item>, n: nat)
    requires IsCalls(c, last, extra, known, ss, answers, given) && n <= |given|
    ensures ss[n].at <= |ss[n].batch| && Faithful(ss, answers, n, known, given[..n] + ss[n].batch[ss[n].at..])
    decreases n
  {
    hide Process; hide Faithful;
    if n == 0 {
      FaithfulStart(ss, answers, known, given[..0] + ss[0].batch[ss[0].at..]);
    } else {
      RunFaithful(c, last, extra, known, ss, answers, given, n - 1);
      assert Process(ss[n - 1], known + Hashes(given[..n - 1]), answers[n - 1]) ==
        Returned((ss[n], Some(given[n - 1])));
      CallFaithful(ss, answers, n - 1, known, given[..n - 1], ss[n], Some(given[n - 1]));
      assert given[..n] == given[..n - 1] + [given[n - 1]];
    }
  }

  lemma FaithfulStart(ss: seq<Source>, answers: seq<Answers>, known: set<Hash>, all: seq<Item>)
    requires |all| == 0
    ensures Faithful(ss, answers, 0, known, all)
  {
  }

  /** In every error-free run, what is handed out is what the servers told: each simple block is the block of its
      number, each sign block stands in the list of its place; and no sign block told of is dropped unless the timeline
      had it. */
  lemma RunFaithfulToServers(c: nat, last: nat, extra: seq<Hash>, known: set<Hash>, ss: seq<Source>,
                             answers: seq<Answers>, given: seq<Item>)
    requires IsRun(c, last, extra, known, ss, answers, given)
    ensures forall x :: x in given ==> Offered(ss, answers, |answers|, x)
    ensures forall j, h :: 0 <= j < |answers| && Asks(ss[j]) && NamesSign(ss[j], answers[j], h) ==>
              h in known || h in Hashes(given)
    ensures last == c ==> forall h :: h in extra ==> h in known || h in Hashes(given)
  {
    hide Process; hide Told; hide ToldBy; hide Hashes;
    var n := |given|;
    RunFaithful(c, last, extra, known, ss, answers, given, n);
    assert given[..n] == given;
    CallFaithful(ss, answers, n, known, given, ss[n + 1], None);
    var end := RunOk(c, last, extra, known, ss, answers, given, n);
    end := ProcessOk(ss[n], c, last, known, given, end, answers[n]);
    assert given + [] + ss[n + 1].batch[ss[n + 1].at..] == given;
    forall j, h | 0 <= j < |answers| && Asks(ss[j]) && NamesSign(ss[j], answers[j], h)
      ensures h in known || h in Hashes(given)
    {
      var x := NamedIsTold(ss[j], answers[j], h);
    }
    if last == c { assert Asks(ss[0]) && ss[0].extra == Some(extra); }
  }
}
