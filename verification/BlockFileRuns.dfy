/** A block file over its whole life (src/BlockSource/FileBlockSource.cpp): it is written piece by piece, read,
    confirmed, and read again from the confirmed position after every restart. */
module BlockFileRuns {
  import opened Bytes
  import opened BlockFile

  /** `blocks` are completely written and `tail` begins the next record. The reader stands at `pos`, the database holds
      `stored`, and `last` is the block handed out last with its position. `handled` are the blocks that have been
      confirmed, `pending` those handed out since. */
  datatype Log = Log(blocks: seq<Data>, tail: Data, pos: nat, stored: nat, last: Option<(nat, Data)>,
                     pending: seq<Data>,
                     handled: seq<Data>)

  const NEW_LOG := Log([], [], 0, 0, None, [], [])

  /** Write: the record of the next block has reached that many bytes. */
  datatype Event = Write(block: Data, upTo: nat) | Read | Confirm | Restart

  function File(s: Log): Data { Contents(s.blocks) + s.tail }

  /** A write continues the record that was begun; the file stays below 2^64 bytes. */
  ghost predicate EventOk(s: Log, e: Event)
  {
    e.Write? ==>
      e.block != [] && s.tail <= Record(e.block) && |s.tail| <= e.upTo <= |Record(e.block)| &&
      |Contents(s.blocks)| + |Record(e.block)| < TWO_64
  }

  function Step(s: Log, e: Event): Log
  {
    match e
    case Write(block, n) =>
      if n < |Record(block)| then s.(tail := Record(block)[..n]) else s.(blocks := s.blocks + [block], tail := [])
    case Read =>
      var (block, next) := ReadNext(File(s), s.pos);
      if next == s.pos then s else s.(pos := next, last := Some((s.pos, block)), pending := s.pending + [block])
    case Confirm =>
      if s.last.None? then s
      else s.(stored := s.last.value.0 + |s.last.value.1| + SIZE_SIZE, handled := s.handled + s.pending, pending := [])
    case Restart => s.(pos := s.stored, last := None, pending := [])
  }

  function Run(events: seq<Event>): Log
  {
    if events == [] then NEW_LOG else Step(Run(events[..|events| - 1]), events[|events| - 1])
  }

  ghost predicate RunOk(events: seq<Event>)
  {
    events == [] || (RunOk(events[..|events| - 1]) && EventOk(Run(events[..|events| - 1]), events[|events| - 1]))
  }

  // ----- what every event keeps -----

  ghost predicate TailOk(s: Log) { s.tail == [] || exists torn :: Torn(s.blocks, s.tail, torn) }

  /** The confirmed and the pending blocks are the first ones of the file, and both positions are where they end. */
  ghost predicate PlacesOk(s: Log)
  {
    var c, r := |s.handled|, |s.handled| + |s.pending|;
    r <= |s.blocks| && s.handled == s.blocks[..c] && s.pending == s.blocks[c..r] &&
    s.stored == Position(s.blocks, c) && s.pos == Position(s.blocks, r) &&
    (if s.last.None? then s.pending == [] else r > 0 && s.last.value == (Position(s.blocks, r - 1), s.blocks[r - 1]))
  }

  ghost predicate LogOk(s: Log) { FileOk(s.blocks, s.tail) && TailOk(s) && PlacesOk(s) }

  lemma PositionStays(blocks: seq<Data>, block: Data, i: nat)
    requires i <= |blocks|
    ensures Position(blocks + [block], i) == Position(blocks, i)
  {
    assert (blocks + [block])[..i] == blocks[..i];
  }

  lemma WriteKeeps(s: Log, block: Data, n: nat)
    requires LogOk(s) && EventOk(s, Write(block, n))
    ensures LogOk(Step(s, Write(block, n)))
  {
    hide Record; hide Position; hide Contents;
    var s' := Step(s, Write(block, n));
    if n < |Record(block)| {
      assert Torn(s'.blocks, s'.tail, block);
    } else {
      Written(s.blocks, block);
      var c, r := |s.handled|, |s.handled| + |s.pending|;
      PositionStays(s.blocks, block, c);
      PositionStays(s.blocks, block, r);
      if r > 0 { PositionStays(s.blocks, block, r - 1); }
    }
  }

  lemma Written(blocks: seq<Data>, block: Data)
    ensures Contents(blocks + [block]) == Contents(blocks) + Record(block)
  {
    hide Record;
    assert (blocks + [block])[..|blocks|] == blocks;
  }

  /** Nothing is read behind the last complete block. */
  lemma NothingMore(s: Log)
    requires FileOk(s.blocks, s.tail) && TailOk(s)
    ensures ReadNext(File(s), Position(s.blocks, |s.blocks|)) == ([], Position(s.blocks, |s.blocks|))
  {
    hide FromLittle; hide Record; hide Contents;
    assert s.blocks[..|s.blocks|] == s.blocks;
    if s.tail != [] {
      var torn :| Torn(s.blocks, s.tail, torn);
      TornTail(s.blocks, torn, |s.tail|);
    }
  }

  /** A call hands out the next complete block, if there is one. */
  lemma ReadStep(s: Log)
    requires LogOk(s)
    ensures var r := |s.handled| + |s.pending|;
            var s' := Step(s, Read);
            if r == |s.blocks| then s' == s
            else s' != s && s' == s.(pos := Position(s.blocks, r + 1), last := Some((s.pos, s.blocks[r])),
                                     pending := s.pending + [s.blocks[r]])
  {
    hide ReadNext; hide Contents; hide FileOk; hide TailOk;
    var r := |s.handled| + |s.pending|;
    if r == |s.blocks| {
      NothingMore(s);
    } else {
      ReadBlock(s.blocks, s.tail, r);
      ConfirmedIsNext(s.blocks, r);
    }
  }

  lemma ReadKeeps(s: Log)
    requires LogOk(s)
    ensures LogOk(Step(s, Read))
  {
    hide Step; hide Position; hide FileOk; hide TailOk;
    ReadStep(s);
    SameTail(s, Step(s, Read));
  }

  lemma SameTail(s: Log, s': Log)
    requires s.blocks == s'.blocks && s.tail == s'.tail
    ensures TailOk(s) <==> TailOk(s')
  {
  }

  lemma ConfirmKeeps(s: Log)
    requires LogOk(s)
    ensures LogOk(Step(s, Confirm))
    ensures s.last.Some? ==> Step(s, Confirm).stored == s.pos
  {
    hide Position; hide FileOk; hide TailOk; hide ReadNext;
    SameTail(s, Step(s, Confirm));
    var r := |s.handled| + |s.pending|;
    if s.last.Some? { ConfirmedIsNext(s.blocks, r - 1); }
  }

  lemma RestartKeeps(s: Log)
    requires LogOk(s)
    ensures LogOk(Step(s, Restart))
  {
    hide Position; hide FileOk; hide TailOk; hide ReadNext;
    SameTail(s, Step(s, Restart));
  }

  lemma {:induction false} RunKeeps(events: seq<Event>)
    requires RunOk(events)
    ensures LogOk(Run(events))
    decreases |events|
  {
    hide LogOk; hide Step; hide EventOk;
    if events == [] {
      NewOk();
    } else {
      var s := Run(events[..|events| - 1]);
      RunKeeps(events[..|events| - 1]);
      match events[|events| - 1]
      case Write(block, n) => WriteKeeps(s, block, n);
      case Read => ReadKeeps(s);
      case Confirm => ConfirmKeeps(s);
      case Restart => RestartKeeps(s);
    }
  }

  lemma NewOk()
    ensures LogOk(NEW_LOG)
  {
  }

  // ----- over every run -----

  /** In every run of writes, torn writes, reads, confirmations and restarts, the confirmed blocks followed by the
      pending ones are the first blocks of the file, each once and in order, and a call that makes no progress has left
      none behind. */
  lemma NoLossNoRepeat(events: seq<Event>)
    requires RunOk(events)
    ensures var s := Run(events);
            s.handled + s.pending <= s.blocks && (Step(s, Read) == s <==> s.handled + s.pending == s.blocks)
  {
    hide Step; hide Run; hide Position; hide FileOk; hide TailOk;
    RunKeeps(events);
    ReadStep(Run(events));
  }

  /** That many calls. */
  function ReadOn(s: Log, n: nat): Log { if n == 0 then s else Step(ReadOn(s, n - 1), Read) }

  lemma {:induction false} ReadsOn(s: Log, n: nat)
    requires LogOk(s) && |s.handled| + |s.pending| + n <= |s.blocks|
    ensures var r := |s.handled| + |s.pending|;
            LogOk(ReadOn(s, n)) && ReadOn(s, n).handled == s.handled && ReadOn(s, n).blocks == s.blocks &&
            ReadOn(s, n).pending == s.pending + s.blocks[r..r + n]
  {
    hide Step; hide LogOk;
    if n > 0 {
      ReadsOn(s, n - 1);
      var before := ReadOn(s, n - 1);
      ReadStep(before);
      ReadKeeps(before);
      var r := |s.handled| + |s.pending|;
      assert s.blocks[r..r + n] == s.blocks[r..r + n - 1] + [s.blocks[r + n - 1]];
    }
  }

  /** After a restart at any point, reading on hands out exactly the unconfirmed blocks and ends with all of the
      file. */
  lemma ResumesExactly(events: seq<Event>)
    requires RunOk(events)
    ensures var s := Run(events);
            |s.handled| <= |s.blocks| &&
            var t := ReadOn(Step(s, Restart), |s.blocks| - |s.handled|);
            t.handled == s.handled && t.pending == s.blocks[|s.handled|..] && t.handled + t.pending == s.blocks &&
              Step(t, Read) == t
  {
    hide Run; hide Position; hide FileOk; hide TailOk; hide ReadNext;
    RunKeeps(events);
    var s := Run(events);
    var u := Step(s, Restart);
    var n := |s.blocks| - |s.handled|;
    RestartKeeps(s);
    hide Step;
    ReadsOn(u, n);
    ReadStep(ReadOn(u, n));
  }

  // ----- the object -----

  /** The reader; `log` is the file and the run so far. */
  class FileBlockSource {
    var currPos: nat
    var storedPos: nat
    ghost var log: Log

    ghost predicate Valid()
      reads this
    {
      LogOk(log) && currPos == log.pos && storedPos == log.stored
    }

    constructor ()
      ensures Valid() && log == NEW_LOG
    {
      currPos, storedPos, log := 0, 0, NEW_LOG;
      NewOk();
    }

    /** Takes the position from the database. */
    method Initialize()
      requires Valid()
      modifies this
      ensures Valid() && log == Step(old(log), Restart)
    {
      hide LogOk;
      RestartKeeps(log);
      currPos := storedPos;
      log := Step(log, Restart);
    }

    /** The next complete block of the file with its position, if there is one. */
    method Process(file: Data) returns (block: Option<(nat, Data)>)
      requires Valid() && file == File(log)
      modifies this
      ensures Valid() && log == Step(old(log), Read)
      ensures block == if log == old(log) then None else log.last
    {
      hide LogOk; hide ReadNext;
      ReadKeeps(log);
      ReadStep(log);
      var (dump, next) := ReadNext(file, currPos);
      log := Step(log, Read);
      if next == currPos { return None; }
      block := Some((currPos, dump));
      currPos := next;
    }

    /** Stores the end position of the block handed out last. */
    method ConfirmBlock(pos: nat, size: nat)
      requires Valid() && log.last.Some? && pos == log.last.value.0 && size == |log.last.value.1|
      modifies this
      ensures Valid() && log == Step(old(log), Confirm)
    {
      hide LogOk;
      ConfirmKeeps(log);
      storedPos := pos + size + SIZE_SIZE;
      log := Step(log, Confirm);
    }
  }
}
