/** The timeline of simple and sign blocks (src/BlocksTimeline.cpp): an append-only list with two indices into it. */
module BlocksTimeline {
  import opened Bytes
  import opened Serialize
  import opened Records
  import opened Headers

  /** `hashes` finds an element by its hash, `parents` the first sign block on a parent. */
  datatype Timeline = Timeline(list: seq<Element>, hashes: map<Hash, nat>, parents: map<Hash, nat>)

  const EMPTY_TIMELINE := Timeline([], map[], map[])

  /** Appends without replacing index entries. */
  function Push(t: Timeline, e: Element): Timeline
  {
    var i := |t.list|;
    Timeline(t.list + [e],
             if e.hash in t.hashes then t.hashes else t.hashes[e.hash := i],
             if e.Sign? && e.prevHash !in t.parents then t.parents[e.prevHash := i] else t.parents)
  }

  /** The new timeline and the record to store. An element that cannot be written is appended all the same. */
  function Add(t: Timeline, e: Element): (Timeline, Result<(nat, Data)>)
  {
    if e.hash in t.hashes then (t, Thrown)
    else
      var t' := Push(t, e);
      (t', if ElementWritable(e) then Returned((|t'.hashes| - 1, SerElement(e))) else Thrown)
  }

  function Rebuild(t: Timeline, records: seq<(nat, Data)>): Result<Timeline>
  {
    if records == [] then Returned(t)
    else
      var front :- Rebuild(t, records[..|records| - 1]);
      var (number, raw) := records[|records| - 1];
      if number != |front.hashes| then Thrown
      else
        var e :- DeserElement(raw);
        Returned(Push(front, e))
  }

  // ----- the indices -----

  ghost predicate FirstOn(t: Timeline, parent: Hash, i: nat)
  {
    i < |t.list| && t.list[i].Sign? && t.list[i].prevHash == parent &&
    forall j :: 0 <= j < i && t.list[j].Sign? ==> t.list[j].prevHash != parent
  }

  ghost predicate HashesOk(t: Timeline)
  {
    (forall i :: 0 <= i < |t.list| ==> t.list[i].hash in t.hashes && t.hashes[t.list[i].hash] == i) &&
    (forall h :: h in t.hashes ==> t.hashes[h] < |t.list| && t.list[t.hashes[h]].hash == h)
  }

  ghost predicate ParentsOk(t: Timeline)
  {
    (forall h :: h in t.parents ==> FirstOn(t, h, t.parents[h])) &&
    (forall i :: 0 <= i < |t.list| && t.list[i].Sign? ==> t.list[i].prevHash in t.parents)
  }

  /** The indices are exactly what the list says. */
  ghost predicate IndexOk(t: Timeline) { HashesOk(t) && ParentsOk(t) }

  lemma PushParents(t: Timeline, e: Element)
    requires ParentsOk(t)
    ensures ParentsOk(Push(t, e))
  {
    var t' := Push(t, e);
    forall h | h in t'.parents ensures FirstOn(t', h, t'.parents[h]) {
      if h in t.parents { assert FirstOn(t, h, t.parents[h]); }
    }
  }

  lemma PushOk(t: Timeline, e: Element)
    requires IndexOk(t) && e.hash !in t.hashes
    ensures IndexOk(Push(t, e))
  {
    hide ParentsOk;
    PushParents(t, e);
  }

  /** As many hashes as elements. */
  lemma HashCount(t: Timeline)
    requires HashesOk(t)
    ensures |t.hashes| == |t.list|
  {
    ImageCard(t, |t.list|);
    assert t.hashes.Keys == set i | 0 <= i < |t.list| :: t.list[i].hash;
  }

  lemma {:induction false} ImageCard(t: Timeline, n: nat)
    requires HashesOk(t) && n <= |t.list|
    ensures |set i | 0 <= i < n :: t.list[i].hash| == n
  {
    if n > 0 {
      ImageCard(t, n - 1);
      var before := set i | 0 <= i < n - 1 :: t.list[i].hash;
      assert t.list[n - 1].hash !in before;
      assert (set i | 0 <= i < n :: t.list[i].hash) == before + {t.list[n - 1].hash};
    }
  }

  // ----- rebuilding -----

  /** The records stored so far: one per element, under its position. */
  ghost predicate StoredAs(t: Timeline, records: map<nat, Data>)
  {
    (forall i :: i in records <==> 0 <= i < |t.list|) &&
    (forall i :: 0 <= i < |t.list| ==> ElementFits(t.list[i]) && records[i] == SerElement(t.list[i]))
  }

  ghost predicate Numbered(list: seq<(nat, Data)>, k: nat) { exists i :: 0 <= i < |list| && list[i].0 == k }

  /** The records read back sorted by number. */
  ghost predicate Listing(list: seq<(nat, Data)>, records: map<nat, Data>)
  {
    (forall i, j :: 0 <= i < j < |list| ==> list[i].0 < list[j].0) &&
    (forall i :: 0 <= i < |list| ==> list[i].0 in records && records[list[i].0] == list[i].1) &&
    (forall k :: k in records ==> Numbered(list, k))
  }

  lemma {:induction false} ListingAt(list: seq<(nat, Data)>, records: map<nat, Data>, n: nat, i: nat)
    requires Listing(list, records) && (forall k :: k in records <==> 0 <= k < n) && i < n
    ensures i < |list| && list[i].0 == i
    decreases i
  {
    assert Numbered(list, i);
    var j :| 0 <= j < |list| && list[j].0 == i;
    forall k | 0 <= k < i && k < |list| ensures list[k].0 == k { ListingAt(list, records, n, k); }
    ListingLow(list, records, i, j);
  }

  lemma ListingLow(list: seq<(nat, Data)>, records: map<nat, Data>, i: nat, j: nat)
    requires Listing(list, records) && j < |list| && list[j].0 == i
    requires forall k :: 0 <= k < i && k < |list| ==> list[k].0 == k
    ensures i == j
  {
    if i < j { Climbs(list, i); }
  }

  lemma {:induction false} Climbs(list: seq<(nat, Data)>, i: nat)
    requires i < |list| && forall a, b :: 0 <= a < b < |list| ==> list[a].0 < list[b].0
    ensures list[i].0 >= i
  {
    if i > 0 { Climbs(list, i - 1); }
  }

  lemma ListingSize(list: seq<(nat, Data)>, records: map<nat, Data>, n: nat)
    requires Listing(list, records) && forall k :: k in records <==> 0 <= k < n
    ensures |list| == n
  {
    if n > 0 { ListingAt(list, records, n, n - 1); }
    if |list| > n { Climbs(list, |list| - 1); }
  }

  function Prefix(t: Timeline, n: nat): Timeline
    requires n <= |t.list|
    decreases n
  {
    if n == 0 then EMPTY_TIMELINE else Push(Prefix(t, n - 1), t.list[n - 1])
  }

  /** The list determines both indices. */
  lemma {:induction false} PrefixOk(t: Timeline, n: nat)
    requires IndexOk(t) && n <= |t.list|
    ensures Prefix(t, n).list == t.list[..n] && IndexOk(Prefix(t, n))
  {
    hide IndexOk;
    if n == 0 {
      EmptyOk();
    } else {
      PrefixOk(t, n - 1);
      PrefixFresh(t, Prefix(t, n - 1), n - 1);
      PushOk(Prefix(t, n - 1), t.list[n - 1]);
      assert t.list[..n] == t.list[..n - 1] + [t.list[n - 1]];
    }
  }

  lemma EmptyOk()
    ensures IndexOk(EMPTY_TIMELINE)
  {
  }

  lemma PrefixFresh(t: Timeline, p: Timeline, n: nat)
    requires IndexOk(t) && IndexOk(p) && n < |t.list| && p.list == t.list[..n]
    ensures t.list[n].hash !in p.hashes
  {
  }

  lemma SameIndices(a: Timeline, b: Timeline)
    requires IndexOk(a) && IndexOk(b) && a.list == b.list
    ensures a == b
  {
    forall h ensures h in a.hashes <==> h in b.hashes { }
    forall h ensures h in a.parents <==> h in b.parents {
      if h in a.parents { assert FirstOn(a, h, a.parents[h]); }
      if h in b.parents { assert FirstOn(b, h, b.parents[h]); }
    }
    forall h | h in a.parents ensures a.parents[h] == b.parents[h] {
      assert FirstOn(a, h, a.parents[h]) && FirstOn(b, h, b.parents[h]);
    }
  }

  lemma {:induction false} RebuildPrefix(t: Timeline, list: seq<(nat, Data)>, n: nat)
    requires IndexOk(t) && n <= |t.list| && |list| == |t.list|
    requires forall i :: 0 <= i < |list| ==> list[i] == (i, SerElement(t.list[i])) && ElementFits(t.list[i])
    ensures Rebuild(EMPTY_TIMELINE, list[..n]) == Returned(Prefix(t, n))
  {
    hide SerElement; hide DeserElement; hide ElementFits; hide IndexOk;
    if n > 0 {
      RebuildPrefix(t, list, n - 1);
      assert list[..n][..n - 1] == list[..n - 1];
      PrefixOk(t, n - 1);
      HashCountOk(Prefix(t, n - 1));
      ElementRoundTrip(t.list[n - 1]);
      assert list[n - 1] == (n - 1, SerElement(t.list[n - 1]));
    }
  }

  lemma HashCountOk(t: Timeline)
    requires IndexOk(t)
    ensures |t.hashes| == |t.list|
  {
    HashCount(t);
  }

  /** Reading back what was stored gives the same list and the same two indices. */
  lemma RebuildSame(t: Timeline, records: map<nat, Data>, list: seq<(nat, Data)>)
    requires IndexOk(t) && StoredAs(t, records) && Listing(list, records)
    ensures Rebuild(EMPTY_TIMELINE, list) == Returned(t)
  {
    hide SerElement; hide ElementFits; hide IndexOk; hide Rebuild; hide Prefix;
    var n := |t.list|;
    ListingSize(list, records, n);
    forall i | 0 <= i < |list| ensures list[i] == (i, SerElement(t.list[i])) && ElementFits(t.list[i]) {
      ListingAt(list, records, n, i);
    }
    RebuildPrefix(t, list, n);
    assert list[..n] == list;
    PrefixOk(t, n);
    assert t.list[..n] == t.list;
    SameIndices(Prefix(t, n), t);
  }

  /** Every successful addition keeps the indices right and is stored under its position. */
  lemma AddKeeps(t: Timeline, e: Element, records: map<nat, Data>)
    requires IndexOk(t) && StoredAs(t, records) && ElementFits(e)
    ensures var (t', r) := Add(t, e);
            IndexOk(t') &&
            (r.Returned? <==> e.hash !in t.hashes && e.hash != [] && (e.Sign? ==> e.filePos.fileName != [])) &&
            (r.Returned? ==>
              t'.list == t.list + [e] && r.value.0 == |t.list| && StoredAs(t', records[r.value.0 := r.value.1])) &&
            (e.hash in t.hashes ==> t' == t)
  {
    hide SerElement; hide ElementFits; hide IndexOk; hide StoredAs;
    if e.hash !in t.hashes {
      PushOk(t, e);
      HashCountOk(Push(t, e));
      StoredNext(t, e, records);
    }
  }

  lemma StoredNext(t: Timeline, e: Element, records: map<nat, Data>)
    requires StoredAs(t, records) && ElementFits(e)
    ensures StoredAs(Push(t, e), records[|t.list| := SerElement(e)])
  {
    hide SerElement; hide ElementFits;
  }

  // ----- sign blocks between simple blocks -----

  /** The position after the nearest simple block before `i`, or after the first element if there is none. */
  function AfterPrevious(list: seq<Element>, i: nat): (r: nat)
    requires i <= |list|
    ensures r <= i && (i > 0 ==> r > 0)
    decreases i
  {
    if i == 0 then 0
    else if list[i - 1].Simple? || i == 1 then i
    else AfterPrevious(list, i - 1)
  }

  /** The first simple block from `i` on. */
  function NextSimple(list: seq<Element>, i: nat): (r: nat)
    requires i <= |list|
    ensures i <= r <= |list|
    decreases |list| - i
  {
    if i == |list| || list[i].Simple? then i else NextSimple(list, i + 1)
  }

  predicate Signs(list: seq<Element>, from: nat, to: nat)
    requires to <= |list|
  {
    forall i :: from <= i < to ==> list[i].Sign?
  }

  /** With both ends given, the first must stand before the second. */
  predicate Ordered(t: Timeline, first: Option<Hash>, second: Option<Hash>)
  {
    first.Some? && second.Some? && first.value in t.hashes && second.value in t.hashes ==>
      t.hashes[first.value] < t.hashes[second.value]
  }

  ghost predicate Known(t: Timeline, h: Option<Hash>)
  {
    h.Some? ==> h.value in t.hashes && t.hashes[h.value] < |t.list|
  }

  ghost function From(t: Timeline, first: Option<Hash>, second: Option<Hash>): (r: nat)
    requires Known(t, first) && Known(t, second) && (first.Some? || second.Some?)
    ensures r <= |t.list|
  {
    if first.Some? then t.hashes[first.value] + 1 else AfterPrevious(t.list, t.hashes[second.value])
  }

  ghost function Between(t: Timeline, first: Option<Hash>, second: Option<Hash>): Result<seq<Element>>
    requires Ordered(t, first, second)
  {
    if (first.None? && second.None?) || !Known(t, first) || !Known(t, second) then Thrown
    else
      var from := From(t, first, second);
      var to := if second.Some? then t.hashes[second.value] else NextSimple(t.list, from);
      if Signs(t.list, from, to) then Returned(t.list[from..to]) else Thrown
  }

  lemma {:induction false} PreviousIs(list: seq<Element>, i: nat, k: nat)
    requires i < k <= |list| && (list[i].Simple? || i == 0) && Signs(list, i + 1, k)
    ensures AfterPrevious(list, k) == i + 1
    decreases k
  {
    if k > i + 1 { PreviousIs(list, i, k - 1); }
  }

  lemma {:induction false} NextIs(list: seq<Element>, k: nat, j: nat)
    requires k <= j <= |list| && (j == |list| || list[j].Simple?) && Signs(list, k, j)
    ensures NextSimple(list, k) == j
    decreases j - k
  {
    if k < j { NextIs(list, k + 1, j); }
  }

  /** What stands between two positions with only sign blocks in between is found by both ends; by the first alone, if a
      simple block or the end of the list follows; and by the second alone, if the first is simple or the very first. */
  lemma BetweenIs(t: Timeline, i: nat, k: nat)
    requires IndexOk(t) && i < k <= |t.list| && Signs(t.list, i + 1, k)
    ensures k < |t.list| ==>
              Ordered(t, Some(t.list[i].hash), Some(t.list[k].hash)) &&
              Between(t, Some(t.list[i].hash), Some(t.list[k].hash)) == Returned(t.list[i + 1..k])
    ensures k == |t.list| || t.list[k].Simple? ==>
              Between(t, Some(t.list[i].hash), None) == Returned(t.list[i + 1..k])
    ensures k < |t.list| && (t.list[i].Simple? || i == 0) ==>
              Between(t, None, Some(t.list[k].hash)) == Returned(t.list[i + 1..k])
  {
    hide ParentsOk; hide AfterPrevious; hide NextSimple;
    assert t.hashes[t.list[i].hash] == i;
    if k == |t.list| || t.list[k].Simple? { NextIs(t.list, i + 1, k); }
    if k < |t.list| {
      assert t.hashes[t.list[k].hash] == k;
      if t.list[i].Simple? || i == 0 { PreviousIs(t.list, i, k); }
    }
  }

  /** A query fails exactly when no end is given, a given one is not in the timeline, or a simple block stands between
      the two. */
  lemma BetweenFails(t: Timeline, first: Option<Hash>, second: Option<Hash>)
    requires IndexOk(t) && Ordered(t, first, second)
    ensures Between(t, first, second).Thrown? <==>
            (first.None? && second.None?) ||
            (first.Some? && forall i :: 0 <= i < |t.list| ==> t.list[i].hash != first.value) ||
            (second.Some? && forall i :: 0 <= i < |t.list| ==> t.list[i].hash != second.value) ||
            (exists i, j, k :: 0 <= i < j < k < |t.list| && Some(t.list[i].hash) == first && t.list[j].Simple? &&
               Some(t.list[k].hash) == second)
  {
    hide IndexOk; hide AfterPrevious; hide NextSimple; hide Signs;
    KnownIs(t, first);
    KnownIs(t, second);
    if !((first.None? && second.None?) || !Known(t, first) || !Known(t, second)) {
      if second.None? {
        NextOnlySigns(t.list, From(t, first, second));
      } else if first.None? {
        PreviousOnlySigns(t.list, t.hashes[second.value]);
      } else {
        BothSigns(t, first.value, second.value);
      }
    }
  }

  lemma KnownIs(t: Timeline, h: Option<Hash>)
    requires IndexOk(t)
    ensures Known(t, h) <==> h.None? || exists i :: 0 <= i < |t.list| && t.list[i].hash == h.value
    ensures h.Some? && Known(t, h) ==>
              forall i :: 0 <= i < |t.list| ==> (t.list[i].hash == h.value <==> i == t.hashes[h.value])
  {
    hide ParentsOk;
  }

  lemma BothSigns(t: Timeline, first: Hash, second: Hash)
    requires Known(t, Some(first)) && Known(t, Some(second))
    ensures !Signs(t.list, t.hashes[first] + 1, t.hashes[second]) <==>
            exists j :: t.hashes[first] < j < t.hashes[second] && t.list[j].Simple?
  {
  }

  lemma {:induction false} NextOnlySigns(list: seq<Element>, k: nat)
    requires k <= |list|
    ensures Signs(list, k, NextSimple(list, k))
    decreases |list| - k
  {
    if k < |list| && !list[k].Simple? { NextOnlySigns(list, k + 1); }
  }

  lemma {:induction false} PreviousOnlySigns(list: seq<Element>, k: nat)
    requires k <= |list|
    ensures Signs(list, AfterPrevious(list, k), k)
    decreases k
  {
    if k > 1 && !list[k - 1].Simple? { PreviousOnlySigns(list, k - 1); }
  }

  /** Two simple blocks with only sign blocks between them. */
  ghost predicate Consecutive(t: Timeline, i: nat, j: nat)
  {
    i < j < |t.list| && t.list[i].Simple? && t.list[j].Simple? && Signs(t.list, i + 1, j)
  }

  /** The three ways to ask for the sign blocks between consecutive simple blocks agree, and give exactly those. */
  lemma BetweenAgrees(t: Timeline, i: nat, j: nat)
    requires IndexOk(t) && Consecutive(t, i, j)
    ensures var a, b := t.list[i].hash, t.list[j].hash;
            Ordered(t, Some(a), Some(b)) && Ordered(t, Some(a), None) && Ordered(t, None, Some(b)) &&
            Between(t, Some(a), None) == Returned(t.list[i + 1..j]) &&
            Between(t, None, Some(b)) == Returned(t.list[i + 1..j]) &&
            Between(t, Some(a), Some(b)) == Returned(t.list[i + 1..j])
  {
    hide IndexOk; hide Between;
    BetweenIs(t, i, j);
  }

  /** The sign blocks before the first simple block are found without the first of them. */
  lemma LeadingSignsShort(t: Timeline, j: nat)
    requires IndexOk(t) && j < |t.list| && t.list[j].Simple? && Signs(t.list, 0, j)
    ensures Between(t, None, Some(t.list[j].hash)) == Returned(if j == 0 then [] else t.list[1..j])
  {
    hide ParentsOk; hide AfterPrevious; hide NextSimple;
    if j > 0 {
      BetweenIs(t, 0, j);
    } else {
      assert t.hashes[t.list[j].hash] == j;
      ZeroPrevious(t.list);
      assert t.list[0..0] == [];
    }
  }

  lemma ZeroPrevious(list: seq<Element>)
    ensures AfterPrevious(list, 0) == 0
  {
  }

  // ----- the object -----

  class BlocksTimeline {
    var timeline: seq<Element>
    var hashes: map<Hash, nat>
    var signsParent: map<Hash, nat>
    var initialized: bool

    ghost function Value(): Timeline
      reads this
    {
      Timeline(timeline, hashes, signsParent)
    }

    constructor ()
      ensures Value() == EMPTY_TIMELINE && !initialized
    {
      timeline, hashes, signsParent, initialized := [], map[], map[], false;
    }

    method AddElement(e: Element) returns (result: Result<(nat, Data)>)
      modifies this
      ensures (Value(), result) == Add(old(Value()), e) && initialized == old(initialized)
    {
      hide SerElement; hide ElementWritable;
      if e.hash in hashes { return Thrown; }
      var i := |timeline|;
      timeline, hashes := timeline + [e], hashes[e.hash := i];
      if e.Sign? && e.prevHash !in signsParent { signsParent := signsParent[e.prevHash := i]; }
      if !ElementWritable(e) { return Thrown; }
      return Returned((|hashes| - 1, SerElement(e)));
    }

    method Deserialize(records: seq<(nat, Data)>) returns (thrown: bool)
      modifies this
      ensures thrown == Rebuild(old(Value()), records).Thrown?
      ensures !thrown ==> initialized && Rebuild(old(Value()), records) == Returned(Value())
    {
      hide DeserElement;
      ghost var start := Value();
      for k := 0 to |records|
        invariant Rebuild(start, records[..k]) == Returned(Value())
      {
        assert records[..k + 1][..k] == records[..k];
        var (number, raw) := records[k];
        if number != |hashes| { RebuildFails(start, records, k + 1); return true; }
        var e := DeserElement(raw);
        if e.Thrown? { RebuildFails(start, records, k + 1); return true; }
        var i := |timeline|;
        timeline := timeline + [e.value];
        if e.value.hash !in hashes { hashes := hashes[e.value.hash := i]; }
        if e.value.Sign? && e.value.prevHash !in signsParent { signsParent := signsParent[e.value.prevHash := i]; }
      }
      assert records[..|records|] == records;
      initialized := true;
      thrown := false;
    }

    method FindSignForBlock(hash: Hash) returns (result: Result<Option<Element>>)
      requires IndexOk(Value())
      ensures result.Thrown? <==> !initialized
      ensures initialized && result.value.None? ==> forall i :: 0 <= i < |timeline| && timeline[i].Sign? ==>
              timeline[i].prevHash != hash
      ensures initialized && result.value.Some? ==>
              exists i: nat :: FirstOn(Value(), hash, i) && result.value.value == timeline[i]
    {
      if !initialized { return Thrown; }
      if hash !in signsParent { return Returned(None); }
      assert FirstOn(Value(), hash, signsParent[hash]);
      return Returned(Some(timeline[signsParent[hash]]));
    }

    /** Steps back from a position to just after the nearest simple block. */
    method StepBack(start: nat) returns (from: nat)
      requires start <= |timeline|
      ensures from == AfterPrevious(timeline, start)
    {
      var iter := start;
      if iter == 0 { return 0; }
      while iter != 0
        invariant 0 < iter <= start && AfterPrevious(timeline, start) == AfterPrevious(timeline, iter)
        decreases iter
      {
        iter := iter - 1;
        if timeline[iter].Simple? || iter == 0 { break; }
      }
      from := iter + 1;
    }

    /** Steps forward to the next simple block or the end. */
    method StepForward(from: nat) returns (to: nat)
      requires from <= |timeline|
      ensures to == NextSimple(timeline, from)
    {
      to := from;
      while to != |timeline| && !timeline[to].Simple?
        invariant from <= to <= |timeline| && NextSimple(timeline, from) == NextSimple(timeline, to)
      {
        to := to + 1;
      }
    }

    method Collect(from: nat, to: nat) returns (result: Result<seq<Element>>)
      requires from <= to <= |timeline|
      ensures result == if Signs(timeline, from, to) then Returned(timeline[from..to]) else Thrown
    {
      var k, signs := from, [];
      while k < to
        invariant from <= k <= to && signs == timeline[from..k] && Signs(timeline, from, k)
      {
        if !timeline[k].Sign? { return Thrown; }
        signs := signs + [timeline[k]];
        k := k + 1;
      }
      return Returned(signs);
    }

    method GetSignaturesBetween(first: Option<Hash>, second: Option<Hash>) returns (result: Result<seq<Element>>)
      requires IndexOk(Value()) && Ordered(Value(), first, second)
      ensures result == if initialized then Between(Value(), first, second) else Thrown
    {
      hide AfterPrevious; hide NextSimple; hide Signs; hide ParentsOk;
      if (first.None? && second.None?) || !initialized { return Thrown; }
      if (first.Some? && first.value !in hashes) || (second.Some? && second.value !in hashes) { return Thrown; }
      var from: nat, to: nat := 0, 0;
      if first.Some? { from := hashes[first.value] + 1; } else { from := StepBack(hashes[second.value]); }
      if second.Some? { to := hashes[second.value]; } else { to := StepForward(from); }
      result := Collect(from, to);
    }
  }

  lemma {:induction false} RebuildFails(t: Timeline, records: seq<(nat, Data)>, k: nat)
    requires k <= |records| && Rebuild(t, records[..k]).Thrown?
    ensures Rebuild(t, records).Thrown?
    decreases |records| - k
  {
    if k == |records| {
      assert records[..k] == records;
    } else {
      assert records[..k + 1][..k] == records[..k];
      RebuildFails(t, records, k + 1);
    }
  }
}
