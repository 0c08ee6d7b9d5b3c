/** When a call of the prefetching source raises an error, stated on the servers' answers, and that good answers lead
    every run to its end. */
module SourceErrors {
  import opened Bytes
  import opened NetworkBlockSource
  import opened SourceRuns

  // ----- the condition -----

  predicate AllKnown(hashes: seq<Hash>, known: set<Hash>)
  {
    forall i :: 0 <= i < |hashes| ==> hashes[i] in known
  }

  /** The least of the hashes that the timeline does not have. */
  predicate LeastNew(hashes: seq<Hash>, known: set<Hash>, h: Hash)
  {
    h in hashes && h !in known &&
    forall i :: 0 <= i < |hashes| && hashes[i] !in known ==> hashes[i] == h || Less(h, hashes[i])
  }

  /** The first sign block to hand out of this list is broken. */
  ghost predicate FirstBroken(hashes: seq<Hash>, known: set<Hash>, broken: set<Hash>)
  {
    exists h :: LeastNew(hashes, known, h) && h in broken
  }

  /** Headers of the next blocks, at most eight, with their numbers. */
  predicate RightHeaders(s: Source, headers: seq<Header>)
  {
    s.next <= s.last && |headers| == (if s.last - s.next < 8 then s.last - s.next + 1 else 8) &&
    forall i :: 0 <= i < |headers| ==> headers[i].number == s.next + i
  }

  /** What makes a call fail: the item at the cursor has failed; or, with everything handed out, new answers are
      incomplete or wrong, or the first of their items has failed: the least new sign block before the first block, or
      that block itself when there is none. */
  ghost predicate Errs(s: Source, known: set<Hash>, a: Answers)
  {
    if s.at < |s.batch| then s.batch[s.at].failed
    else if s.extra.Some? then !a.extrasFetched || FirstBroken(s.extra.value, known, a.broken)
    else
      s.next <= s.last &&
      (!a.extrasFetched || !RightHeaders(s, a.headers) ||
       if AllKnown(a.headers[0].before, known) then a.headers[0].failed
       else FirstBroken(a.headers[0].before, known, a.broken))
  }

  // ----- the first item of a batch -----

  /** A wanted item is the first with its hash. */
  lemma {:induction false} WantedIsFirst(extras: seq<Item>, seen: set<Hash>, known: set<Hash>, w: Item) returns (i: nat)
    requires w in Wanted(extras, seen, known)
    ensures i < |extras| && extras[i] == w && forall j :: 0 <= j < i ==> extras[j].hash != w.hash
    decreases |extras|
  {
    var rest := Wanted(extras[1..], seen + {extras[0].hash}, known);
    if w in rest {
      WantedOnce(extras[1..], seen + {extras[0].hash}, known);
      i := WantedIsFirst(extras[1..], seen + {extras[0].hash}, known, w);
      i := i + 1;
      assert forall j :: 1 <= j < i ==> extras[j] == extras[1..][j - 1];
    } else {
      i := 0;
    }
  }

  lemma {:induction false} InsertKeeps(s: seq<Item>, items: seq<Item>, x: Item) returns (y: Item)
    requires x in s || x in items
    ensures y in InsertAll(s, items) && SameKey(y, x) && (x in s ==> y == x)
    decreases |items|
  {
    hide Insert; hide SameKey;
    SameItself(x);
    if x in s {
      InsertCovers(s, items);
      y := x;
    } else {
      InsertMembers(s, items[0]);
      assert items == [items[0]] + items[1..];
      if x == items[0] && x !in Insert(s, x) {
        y :| y in s && SameKey(y, x);
        InsertCovers(Insert(s, items[0]), items[1..]);
      } else {
        y := InsertKeeps(Insert(s, items[0]), items[1..], x);
      }
    }
  }

  lemma SameItself(x: Item)
    ensures SameKey(x, x)
  {
  }

  /** Every new hash at the head of the extras gets its place in the batch. */
  lemma HeadPlaced(blocks: seq<Item>, hashes: seq<Hash>, p: Place, n: nat, rest: seq<Item>, known: set<Hash>,
                   broken: set<Hash>, g: Hash) returns (y: Item)
    requires g in hashes && g !in known
    ensures y in InsertAll(blocks, Wanted(Tagged(hashes, p, n, broken) + rest, {}, known)) &&
            y.place == p && y.number == n && y.hash == g
  {
    hide InsertAll; hide Wanted;
    var extras := Tagged(hashes, p, n, broken) + rest;
    var k :| 0 <= k < |hashes| && hashes[k] == g;
    assert extras[k] in extras;
    WantedCovers(extras, {}, known, extras[k]);
    var w :| w in Wanted(extras, {}, known) && w.hash == g;
    var i := WantedIsFirst(extras, {}, known, w);
    assert i <= k;
    y := InsertKeeps(blocks, Wanted(extras, {}, known), w);
  }

  lemma {:induction false} ExtrasHead(headers: seq<Header>, broken: set<Hash>) returns (rest: seq<Item>)
    requires headers != []
    ensures AllExtras(headers, broken) == Tagged(headers[0].before, Before, headers[0].number, broken) + rest
    decreases headers
  {
    var front, h := headers[..|headers| - 1], headers[|headers| - 1];
    var tail := Tagged(h.before, Before, h.number, broken) + Tagged(h.after, After, h.number, broken);
    if front == [] {
      rest := Tagged(h.after, After, h.number, broken);
      assert AllExtras(headers, broken) == [] + Tagged(h.before, Before, h.number, broken) + rest;
    } else {
      var more := ExtrasHead(front, broken);
      rest := more + tail;
    }
  }

  lemma FirstIsLeast(batch: seq<Item>, y: Item)
    requires Sorted(batch) && y in batch
    ensures batch[0] == y || KeyLess(batch[0], y)
  {
    hide KeyLess;
  }

  lemma LeastOne(hashes: seq<Hash>, known: set<Hash>, broken: set<Hash>, h: Hash)
    requires LeastNew(hashes, known, h)
    ensures FirstBroken(hashes, known, broken) <==> h in broken
  {
    if FirstBroken(hashes, known, broken) {
      var g :| LeastNew(hashes, known, g) && g in broken;
      if g != h {
        LessTransitive(g, h, g);
        LessIrreflexive(g);
        assert false;
      }
    }
  }

  /** Of the new sign blocks of one place, the first of the batch is the least. */
  lemma FirstOfPlace(batch: seq<Item>, hashes: seq<Hash>, known: set<Hash>, broken: set<Hash>)
    requires Sorted(batch) && batch != []
    requires batch[0].hash in hashes && batch[0].hash !in known && (batch[0].failed <==> batch[0].hash in broken)
    requires forall g :: g in hashes && g !in known ==>
               exists y :: y in batch && y.place == batch[0].place && y.number == batch[0].number && y.hash == g
    ensures FirstBroken(hashes, known, broken) <==> batch[0].failed
  {
    hide Sorted;
    var x := batch[0];
    forall i | 0 <= i < |hashes| && hashes[i] !in known ensures hashes[i] == x.hash || Less(x.hash, hashes[i]) {
      var y :| y in batch && y.place == x.place && y.number == x.number && y.hash == hashes[i];
      FirstIsLeast(batch, y);
    }
    LeastOne(hashes, known, broken, x.hash);
  }

  lemma SignsFresh(s: Source, known: set<Hash>, a: Answers)
    requires Refill(s, known, a).Returned?
    ensures Sorted(Refill(s, known, a).value) && SignsNew(Refill(s, known, a).value, known)
    ensures s.extra.None? ==> s.next <= s.last && NumbersWithin(Refill(s, known, a).value, s.next, s.next + Ahead(s))
  {
    hide Refill; hide Sorted; hide BlockNumbers; hide SignsOnce;
    RefillGood(s, known, a);
  }

  /** The first sign block after a last block that is already known. */
  lemma ExtraFirst(s: Source, known: set<Hash>, a: Answers)
    requires s.extra.Some? && Refill(s, known, a).Returned?
    ensures var batch := Refill(s, known, a).value;
            FirstBroken(s.extra.value, known, a.broken) <==> batch != [] && batch[0].failed
  {
    hide InsertAll; hide Wanted; hide Sorted;
    var batch, hashes := Refill(s, known, a).value, s.extra.value;
    SignsFresh(s, known, a);
    assert Tagged(hashes, After, s.last, a.broken) + [] == Tagged(hashes, After, s.last, a.broken);
    if batch == [] {
      if h :| LeastNew(hashes, known, h) && h in a.broken {
        var y := HeadPlaced([], hashes, After, s.last, [], known, a.broken, h);
      }
    } else {
      FetchTold(s, known, a, batch[0]);
      forall g | g in hashes && g !in known
        ensures exists y :: y in batch && y.place == After && y.number == s.last && y.hash == g {
        var y := HeadPlaced([], hashes, After, s.last, [], known, a.broken, g);
      }
      FirstOfPlace(batch, hashes, known, a.broken);
    }
  }

  /** The first block is in the batch, and only sign blocks before it can come first. */
  lemma HeadersLead(s: Source, known: set<Hash>, a: Answers)
    requires s.extra.None? && Refill(s, known, a).Returned?
    ensures a.headers != [] && a.headers[0].number == s.next
    ensures var batch := Refill(s, known, a).value;
            batch != [] && batch[0].number == s.next && batch[0].place != After
  {
    hide InsertAll; hide Wanted; hide Sorted; hide AllExtras;
    var batch := Refill(s, known, a).value;
    SignsFresh(s, known, a);
    BlocksSorted(a.headers, s.next);
    var b := Item(Block, a.headers[0].number, a.headers[0].hash, a.headers[0].failed);
    assert Blocks(a.headers)[0] == b;
    var y := InsertKeeps(Blocks(a.headers), Wanted(AllExtras(a.headers, a.broken), {}, known), b);
    FirstIsLeast(batch, b);
    assert batch[0].number >= s.next;
  }

  lemma HeadersFirst(s: Source, known: set<Hash>, a: Answers)
    requires s.extra.None? && Refill(s, known, a).Returned?
    ensures a.headers != []
    ensures var batch, h := Refill(s, known, a).value, a.headers[0];
            batch != [] &&
            (batch[0].failed <==>
             if AllKnown(h.before, known) then h.failed else FirstBroken(h.before, known, a.broken))
  {
    hide InsertAll; hide Wanted; hide Sorted; hide AllExtras;
    var batch := Refill(s, known, a).value;
    HeadersLead(s, known, a);
    var h, x := a.headers[0], batch[0];
    SignsFresh(s, known, a);
    FetchTold(s, known, a, x);
    var k :| 0 <= k < |a.headers| && Listed(a.headers[k], x);
    assert k == 0;
    var rest := ExtrasHead(a.headers, a.broken);
    BlocksSorted(a.headers, s.next);
    forall g | g in h.before && g !in known
      ensures exists y :: y in batch && y.place == Before && y.number == s.next && y.hash == g {
      var y := HeadPlaced(Blocks(a.headers), h.before, Before, s.next, rest, known, a.broken, g);
    }
    if x.place == Before {
      FirstOfPlace(batch, h.before, known, a.broken);
    } else if !AllKnown(h.before, known) {
      var i :| 0 <= i < |h.before| && h.before[i] !in known;
      var y :| y in batch && y.place == Before && y.number == s.next && y.hash == h.before[i];
      FirstIsLeast(batch, y);
      assert false;
    }
  }

  // ----- one call -----

  lemma CallErrs(s: Source, known: set<Hash>, a: Answers)
    requires s.extra.Some? ==> s.batch == []
    ensures Process(s, known, a).Thrown? <==> Errs(s, known, a)
  {
    hide InsertAll; hide Wanted; hide AllExtras; hide FirstBroken; hide AllKnown;
    if Asks(s) && Refill(s, known, a).Returned? {
      if s.extra.Some? { ExtraFirst(s, known, a); } else { HeadersFirst(s, known, a); }
    }
  }

  // ----- runs -----

  /** In every run a call fails exactly under the condition on its item or answers; the item it hands out, or fails on,
      is one that answers of the run told of, and has failed exactly if they said so. */
  lemma RunErrs(c: nat, last: nat, extra: seq<Hash>, known: set<Hash>, ss: seq<Source>, answers: seq<Answers>,
                given: seq<Item>, a: Answers)
    requires IsCalls(c, last, extra, known, ss, answers, given)
    ensures var s := ss[|given|];
            (Process(s, known + Hashes(given), a).Thrown? <==> Errs(s, known + Hashes(given), a)) &&
            (s.at < |s.batch| ==> Offered(ss, answers, |given|, s.batch[s.at]))
  {
    hide Process; hide Errs; hide Offered; hide ListOk; hide CountsOk; hide Hashes;
    var n := |given|;
    var s := ss[n];
    var end := RunOk(c, last, extra, known, ss, answers, given, n);
    RunFaithful(c, last, extra, known, ss, answers, given, n);
    if s.at < |s.batch| { assert (given[..n] + s.batch[s.at..])[n] == s.batch[s.at]; }
    CallErrs(s, known + Hashes(given), a);
  }

  // ----- good answers -----

  predicate NoneBroken(hashes: seq<Hash>, broken: set<Hash>)
  {
    forall i :: 0 <= i < |hashes| ==> hashes[i] !in broken
  }

  predicate GoodHeader(h: Header, broken: set<Hash>)
  {
    !h.failed && NoneBroken(h.before, broken) && NoneBroken(h.after, broken)
  }

  /** What a call fetches is complete, has the right numbers, and nothing in it has failed. */
  predicate Good(s: Source, a: Answers)
  {
    Asks(s) ==>
      a.extrasFetched &&
      if s.extra.Some? then NoneBroken(s.extra.value, a.broken)
      else RightHeaders(s, a.headers) && forall i :: 0 <= i < |a.headers| ==> GoodHeader(a.headers[i], a.broken)
  }

  ghost predicate AllGood(ss: seq<Source>, answers: seq<Answers>, n: nat)
    requires n <= |ss| && n <= |answers|
  {
    forall i :: 0 <= i < n ==> Good(ss[i], answers[i])
  }

  lemma GoodItem(s: Source, a: Answers, x: Item)
    requires Asks(s) && Good(s, a) && ToldBy(s, a, x)
    ensures !x.failed
  {
    if s.extra.None? {
      var k :| 0 <= k < |a.headers| && Listed(a.headers[k], x);
      assert GoodHeader(a.headers[k], a.broken);
    }
  }

  /** With good answers no call of any run fails. */
  lemma NeverErrs(c: nat, last: nat, extra: seq<Hash>, known: set<Hash>, ss: seq<Source>, answers: seq<Answers>,
                  given: seq<Item>, a: Answers)
    requires IsCalls(c, last, extra, known, ss, answers, given) && AllGood(ss, answers, |given|)
    requires Good(ss[|given|], a)
    ensures Process(ss[|given|], known + Hashes(given), a).Returned?
  {
    hide Process; hide ToldBy; hide Hashes;
    var s := ss[|given|];
    RunErrs(c, last, extra, known, ss, answers, given, a);
    if s.at < |s.batch| {
      var j :| 0 <= j < |given| && Asks(ss[j]) && ToldBy(ss[j], answers[j], s.batch[s.at]);
      GoodItem(ss[j], answers[j], s.batch[s.at]);
    } else if Asks(s) && s.extra.None? {
      assert GoodHeader(a.headers[0], a.broken);
    }
  }

  /** The blocks not yet fetched, and one for the sign blocks after the last. */
  function ToFetch(s: Source, end: nat): nat
  {
    (if end <= s.last then s.last + 1 - end else 0) + if s.extra.Some? then 1 else 0
  }

  function ToDeliver(s: Source): nat { if s.at <= |s.batch| then |s.batch| - s.at else 0 }

  lemma CallsOn(c: nat, last: nat, extra: seq<Hash>, known: set<Hash>, ss: seq<Source>, answers: seq<Answers>,
                given: seq<Item>, a: Answers, s': Source, item: Item)
    requires IsCalls(c, last, extra, known, ss, answers, given) && |ss| == |given| + 1 && |answers| == |given|
    requires Process(ss[|given|], known + Hashes(given), a) == Returned((s', Some(item)))
    ensures IsCalls(c, last, extra, known, ss + [s'], answers + [a], given + [item])
  {
    hide Process; hide Hashes;
    var ss', answers', given' := ss + [s'], answers + [a], given + [item];
    forall i | 0 <= i < |given'|
      ensures Process(ss'[i], known + Hashes(given'[..i]), answers'[i]) == Returned((ss'[i + 1], Some(given'[i])))
    {
      if i < |given| {
        assert given'[..i] == given[..i];
        assert Process(ss[i], known + Hashes(given[..i]), answers[i]) == Returned((ss[i + 1], Some(given[i])));
      } else {
        assert given'[..i] == given;
      }
    }
  }

  lemma CallsEnd(c: nat, last: nat, extra: seq<Hash>, known: set<Hash>, ss: seq<Source>, answers: seq<Answers>,
                 given: seq<Item>, a: Answers, s': Source)
    requires IsCalls(c, last, extra, known, ss, answers, given) && |ss| == |given| + 1 && |answers| == |given|
    requires Process(ss[|given|], known + Hashes(given), a) == Returned((s', None))
    ensures IsRun(c, last, extra, known, ss + [s'], answers + [a], given)
  {
    hide Process; hide Hashes;
    var ss', answers' := ss + [s'], answers + [a];
    forall i | 0 <= i < |given|
      ensures Process(ss'[i], known + Hashes(given[..i]), answers'[i]) == Returned((ss'[i + 1], Some(given[i])))
    {
      assert Process(ss[i], known + Hashes(given[..i]), answers[i]) == Returned((ss[i + 1], Some(given[i])));
    }
  }

  lemma ToFetchLess(s: Source, s': Source, c: nat, last: nat, known: set<Hash>, done: seq<Item>, done': seq<Item>,
                    end: nat, end': nat, a: Answers, item: Item, k: set<Hash>)
    requires SourceOk(s, c, last, known, done, end) && SourceOk(s', c, last, known, done', end')
    requires Process(s, k, a) == Returned((s', Some(item)))
    requires if Asks(s) && s.extra.None? then end' > end else end' == end
    ensures ToFetch(s', end') < ToFetch(s, end) ||
            (ToFetch(s', end') == ToFetch(s, end) && ToDeliver(s') < ToDeliver(s))
  {
    hide Refill; hide ListOk;
  }

  /** Good answers lead every run, from wherever it is, to its end. */
  lemma {:induction false} GoodEnds(c: nat, last: nat, extra: seq<Hash>, known: set<Hash>, ss: seq<Source>,
                                    answers: seq<Answers>, given: seq<Item>, end: nat,
                                    servers: (nat, Source) -> Answers)
    returns (ss': seq<Source>, answers': seq<Answers>, given': seq<Item>)
    requires IsCalls(c, last, extra, known, ss, answers, given) && |ss| == |given| + 1 && |answers| == |given|
    requires AllGood(ss, answers, |given|) && forall n: nat, s :: Good(s, servers(n, s))
    requires SourceOk(ss[|given|], c, last, known, given, end)
    ensures IsRun(c, last, extra, known, ss', answers', given')
    ensures ss <= ss' && answers <= answers' && given <= given'
    ensures forall i :: |answers| <= i < |answers'| ==> answers'[i] == servers(i, ss'[i])
    decreases ToFetch(ss[|given|], end), ToDeliver(ss[|given|])
  {
    hide Process; hide Hashes; hide Good; hide SourceOk;
    var n := |given|;
    var s := ss[n];
    var a := servers(n, s);
    NeverErrs(c, last, extra, known, ss, answers, given, a);
    var (s', item) := Process(s, known + Hashes(given), a).value;
    if item.None? {
      CallsEnd(c, last, extra, known, ss, answers, given, a, s');
      ss', answers', given' := ss + [s'], answers + [a], given;
    } else {
      CallsOn(c, last, extra, known, ss, answers, given, a, s', item.value);
      var end' := ProcessOk(s, c, last, known, given, end, a);
      ToFetchLess(s, s', c, last, known, given, given + [item.value], end, end', a, item.value,
        known + Hashes(given));
      ss', answers', given' :=
        GoodEnds(c, last, extra, known, ss + [s'], answers + [a], given + [item.value], end', servers);
      assert ss'[n] == (ss + [s'])[n] && answers'[n] == (answers + [a])[n];
    }
  }

  /** From every start, servers with good answers are read to the end without an error: all missing blocks come in
      order, and every sign block told of that the timeline did not have. */
  lemma GoodRunDelivers(c: nat, last: nat, extra: seq<Hash>, known: set<Hash>, servers: (nat, Source) -> Answers)
    returns (ss: seq<Source>, answers: seq<Answers>, given: seq<Item>)
    requires forall n: nat, s :: Good(s, servers(n, s))
    ensures IsRun(c, last, extra, known, ss, answers, given)
    ensures forall i :: 0 <= i < |answers| ==> answers[i] == servers(i, ss[i])
    ensures BlockNumbers(given) == Range(c + 1, if last > c then last + 1 else c + 1)
    ensures forall j, h :: 0 <= j < |answers| && Asks(ss[j]) && NamesSign(ss[j], answers[j], h) ==>
              h in known || h in Hashes(given)
  {
    hide Process; hide Hashes; hide Good; hide SourceOk; hide NamesSign; hide BlockNumbers; hide Asks;
    StartOk(c, last, extra, known);
    ss, answers, given := GoodEnds(c, last, extra, known, [DoProcess(c, last, extra)], [], [], c + 1, servers);
    RunDelivers(c, last, extra, known, ss, answers, given);
    RunFaithfulToServers(c, last, extra, known, ss, answers, given);
  }
}
