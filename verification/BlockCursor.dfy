/**
 * The indexer's block cursor: a height kept in the status row, a process that starts from it, indexes one block a
 * tick and may die at any point. A block is completed when its transactions are done and the row update is issued.
 */
module BlockCursor {
  import opened Wrappers

  datatype Process = Down | Up(current: nat)

  // The stored height (None: no row for this chain), the process, and the heights completed so far, in order
  datatype World = World(stored: Option<nat>, process: Process, completed: seq<nat>)

  // A start reads the row, which may fail, and asks for the tip if there is no row. A tick asks for the tip and, if
  // there is a block to do, fetches and processes it and updates the row; the update's own failure goes unnoticed.
  datatype Event =
    | Start(readFails: bool, tip: Option<nat>)
    | Tick(tip: Option<nat>, blockFails: bool, updateFails: bool)
    | Crash

  function StartProcess(stored: Option<nat>, readFails: bool, tip: Option<nat>): Process {
    if readFails then Up(0)
    else if stored.Some? then Up(stored.value)
    else if tip.Some? then Up(tip.value)
    else Down
  }

  function Step(w: World, e: Event): World {
    match e
    case Start(readFails, tip) =>
      if w.process.Up? then w else w.(process := StartProcess(w.stored, readFails, tip))
    case Tick(tip, blockFails, updateFails) =>
      if w.process.Down? then w
      else if tip.None? then w.(process := Down)
      else if w.process.current >= tip.value then w
      else if blockFails then w.(process := Down)
      else World(
        if updateFails || w.stored.None? then w.stored else Some(w.process.current),
        Up(w.process.current + 1),
        w.completed + [w.process.current])
    case Crash => w.(process := Down)
  }

  function Run(w: World, events: seq<Event>): World
    decreases events
  {
    if events == [] then w else Run(Step(w, events[0]), events[1..])
  }

  class Indexer {
    var stored: Option<nat>
    var running: bool
    var currentHeight: nat
    var completed: seq<nat>

    constructor (stored: Option<nat>)
      ensures State() == World(stored, Down, [])
    {
      this.stored := stored;
      running, currentHeight, completed := false, 0, [];
    }

    ghost function State(): World
      reads this
    {
      World(stored, if running then Up(currentHeight) else Down, completed)
    }

    method Begin(readFails: bool, tip: Option<nat>)
      requires !running
      modifies this
      ensures State() == Step(old(State()), Start(readFails, tip))
    {
      currentHeight := 0;
      if !readFails {
        if stored.None? {
          if tip.None? {
            return;
          }
          currentHeight := tip.value;
        } else {
          currentHeight := stored.value;
        }
      }
      running := true;
    }

    method OnTick(tip: Option<nat>, blockFails: bool, updateFails: bool)
      requires running
      modifies this
      ensures State() == Step(old(State()), Tick(tip, blockFails, updateFails))
    {
      if tip.None? {
        running := false;
        return;
      }
      var maxHeight := tip.value;
      if currentHeight >= maxHeight {
        return;
      }
      if blockFails {
        running := false;
        return;
      }
      completed := completed + [currentHeight];
      if !updateFails && stored.Some? {
        stored := Some(currentHeight);
      }
      currentHeight := currentHeight + 1;
    }
  }

  // ---- safety over runs ----

  predicate RowReadable(e: Event) {
    e.Start? ==> !e.readFails
  }

  // Blocks in the order they were done: from `first` on, and each at most one further than the one before it
  ghost predicate Climbs(done: seq<nat>, first: nat) {
    && (done != [] ==> done[0] == first)
    && (forall k :: 0 <= k < |done| ==> first <= done[k])
    && (forall k :: 0 < k < |done| ==> done[k] <= done[k - 1] + 1)
  }

  // Everything from `first` up to `height`, without it, is done.
  ghost predicate DoneBelow(done: seq<nat>, first: nat, height: nat) {
    forall h :: first <= h < height ==> h in done
  }

  // A height indexing can go on from: all blocks below it are done, and it is at most one past the last one.
  ghost predicate CanGoOn(done: seq<nat>, first: nat, height: nat) {
    && first <= height && DoneBelow(done, first, height)
    && (if done == [] then height == first else height <= done[|done| - 1] + 1)
  }

  // What every run from a stored row at `first` keeps
  ghost predicate NoGaps(w: World, first: nat) {
    && w.stored.Some? && CanGoOn(w.completed, first, w.stored.value)
    && (w.completed != [] ==> w.stored.value in w.completed)
    && (w.process.Up? ==> CanGoOn(w.completed, first, w.process.current) && w.stored.value <= w.process.current)
    && Climbs(w.completed, first)
    && (forall k :: 0 <= k < |w.completed| ==> DoneBelow(w.completed, first, w.completed[k]))
  }

  lemma OneMoreBlock(done: seq<nat>, first: nat, height: nat)
    requires Climbs(done, first) && CanGoOn(done, first, height)
    requires forall k :: 0 <= k < |done| ==> DoneBelow(done, first, done[k])
    ensures var more := done + [height];
      && Climbs(more, first) && CanGoOn(more, first, height) && CanGoOn(more, first, height + 1)
      && (forall k :: 0 <= k < |more| ==> DoneBelow(more, first, more[k]))
      && (forall h :: h in done ==> h in more) && height in more
  {
    var more := done + [height];
    assert more[|done|] == height;
  }

  lemma OldHeightCanGoOn(done: seq<nat>, first: nat, height: nat, earlier: nat)
    requires CanGoOn(done, first, earlier) && earlier <= height
    ensures CanGoOn(done + [height], first, earlier)
  {}

  lemma StepKeepsNoGaps(w: World, e: Event, first: nat)
    requires NoGaps(w, first) && RowReadable(e)
    ensures NoGaps(Step(w, e), first)
    ensures w.stored.value <= Step(w, e).stored.value
  {
    hide Climbs, CanGoOn, DoneBelow;
    var w' := Step(w, e);
    if |w'.completed| != |w.completed| {
      OneMoreBlock(w.completed, first, w.process.current);
      OldHeightCanGoOn(w.completed, first, w.process.current, w.stored.value);
    }
  }

  // No gaps: with a stored row that can be read, in every run with crashes, restarts and lost row updates, the
  // first block done is the stored one, each next one is at most one further, what is done is one interval from
  // there, and the stored height is done (once anything is) and never decreases.
  lemma {:induction false} RunsHaveNoGaps(w: World, events: seq<Event>, first: nat)
    requires NoGaps(w, first) && forall k :: 0 <= k < |events| ==> RowReadable(events[k])
    ensures NoGaps(Run(w, events), first)
    ensures w.stored.value <= Run(w, events).stored.value
    decreases |events|
  {
    if events != [] {
      StepKeepsNoGaps(w, events[0], first);
      RunsHaveNoGaps(Step(w, events[0]), events[1..], first);
    }
  }

  lemma NoGapsFromStoredRow(stored: nat, events: seq<Event>)
    requires forall k :: 0 <= k < |events| ==> RowReadable(events[k])
    ensures var w := Run(World(Some(stored), Down, []), events);
      && w.stored.Some? && stored <= w.stored.value
      && (w.completed != [] ==> w.completed[0] == stored && w.stored.value in w.completed)
      && (forall k :: 0 < k < |w.completed| ==> w.completed[k] <= w.completed[k - 1] + 1)
      && (forall k, h :: 0 <= k < |w.completed| && stored <= h <= w.completed[k] ==> h in w.completed)
      && (forall k :: 0 <= k < |w.completed| ==> stored <= w.completed[k])
  {
    RunsHaveNoGaps(World(Some(stored), Down, []), events, stored);
  }

  // With no row update lost, the stored height is the last one done, and each block done is the last one again
  // (after a restart) or its successor.
  ghost predicate Tight(w: World) {
    && w.stored.Some?
    && (w.completed != [] ==> w.completed[|w.completed| - 1] == w.stored.value)
    && (w.process.Up? ==>
          w.process.current == w.stored.value || (w.completed != [] && w.process.current == w.stored.value + 1))
    && (forall k :: 0 < k < |w.completed| ==> w.completed[k - 1] <= w.completed[k] <= w.completed[k - 1] + 1)
  }

  predicate NothingLost(e: Event) {
    RowReadable(e) && (e.Tick? ==> !e.updateFails)
  }

  lemma StepKeepsTight(w: World, e: Event)
    requires Tight(w) && NothingLost(e)
    ensures Tight(Step(w, e))
  {
    var w' := Step(w, e);
    if |w'.completed| != |w.completed| {
      assert w'.completed[|w.completed|] == w.process.current;
    }
  }

  lemma {:induction false} StoredIsLastCompleted(w: World, events: seq<Event>)
    requires Tight(w) && forall k :: 0 <= k < |events| ==> NothingLost(events[k])
    ensures Tight(Run(w, events))
    decreases |events|
  {
    hide Tight, Step;
    if events != [] {
      StepKeepsTight(w, events[0]);
      StoredIsLastCompleted(Step(w, events[0]), events[1..]);
    }
  }

  // One process life does consecutive blocks, each once.
  lemma {:induction false} LifeIsConsecutive(w: World, events: seq<Event>)
    requires w.process.Up? && forall k :: 0 <= k < |events| ==> !events[k].Start?
    ensures var w' := Run(w, events);
      && w.completed <= w'.completed
      && (forall k :: |w.completed| <= k < |w'.completed| ==>
            w'.completed[k] == w.process.current + (k - |w.completed|))
      && (w'.process.Up? ==> w'.process.current == w.process.current + (|w'.completed| - |w.completed|))
    decreases |events|
  {
    if events != [] {
      var w1 := Step(w, events[0]);
      if w1.process.Up? {
        LifeIsConsecutive(w1, events[1..]);
      } else {
        DownStaysDown(w1, events[1..]);
      }
    }
  }

  lemma {:induction false} DownStaysDown(w: World, events: seq<Event>)
    requires w.process.Down? && forall k :: 0 <= k < |events| ==> !events[k].Start?
    ensures Run(w, events) == w
    decreases |events|
  {
    if events != [] { DownStaysDown(w, events[1..]); }
  }

  // Block k of a run was done by its event j: a tick of a process that stood at it, and that saw a tip above it.
  ghost predicate DoneAt(w: World, events: seq<Event>, j: nat, k: nat)
    requires j < |events| && k < |Run(w, events).completed|
  {
    var before, height := Run(w, events[..j]), Run(w, events).completed[k];
    && |before.completed| == k && before.process == Up(height)
    && events[j].Tick? && events[j].tip.Some? && height < events[j].tip.value
  }

  ghost predicate DoneBelowItsTip(w: World, events: seq<Event>, k: nat)
    requires k < |Run(w, events).completed|
  {
    exists j :: 0 <= j < |events| && DoneAt(w, events, j, k)
  }

  // Every block done in a run lies below the tip that was seen at its own tick, and no tick does two.
  lemma {:induction false} OnlyBelowTheTip(w: World, events: seq<Event>)
    ensures w.completed <= Run(w, events).completed
    ensures forall k :: |w.completed| <= k < |Run(w, events).completed| ==> DoneBelowItsTip(w, events, k)
    decreases |events|
  {
    if events != [] {
      var w1, rest := Step(w, events[0]), events[1..];
      OnlyBelowTheTip(w1, rest);
      forall k | |w.completed| <= k < |Run(w, events).completed|
        ensures DoneBelowItsTip(w, events, k)
      {
        if k < |w1.completed| {
          assert Run(w, events).completed[k] == w1.completed[k];
          assert events[..0] == [];
          assert DoneAt(w, events, 0, k);
        } else {
          assert DoneBelowItsTip(w1, rest, k);
          var j :| 0 <= j < |rest| && DoneAt(w1, rest, j, k);
          assert events[..j + 1][1..] == rest[..j] && events[..j + 1][0] == events[0];
          assert DoneAt(w, events, j + 1, k);
        }
      }
    }
  }

  // What a tick comes to: the process dies without a tip or with a block it cannot get, waits at the tip or above it,
  // and otherwise does its block and goes on; only then, with a row there and the update not lost, does the row change.
  lemma TickExactly(w: World, tip: Option<nat>, blockFails: bool, updateFails: bool)
    requires w.process.Up?
    ensures var w', height := Step(w, Tick(tip, blockFails, updateFails)), w.process.current;
      && (w'.process == Down <==> tip == None || (height < tip.value && blockFails))
      && (w'.completed == w.completed + [height] <==> tip.Some? && height < tip.value && !blockFails)
      && (w'.completed != w.completed ==> w'.process == Up(height + 1))
      && (w'.process.Up? && w'.completed == w.completed ==> w' == w)
      && w'.stored == if w'.completed != w.completed && w.stored.Some? && !updateFails then Some(height) else w.stored
  {}

  // Where a process begins: at the stored height, at the tip if there is no row, at 0 if reading the row fails
  // otherwise; without a row and a tip it does not begin.
  lemma StartExactly(w: World, readFails: bool, tip: Option<nat>)
    requires w.process.Down?
    ensures var w' := Step(w, Start(readFails, tip));
      && w'.stored == w.stored && w'.completed == w.completed
      && (w'.process == Down <==> !readFails && w.stored == None && tip == None)
      && (w'.process.Up? ==>
            w'.process.current
            == if readFails then 0 else if w.stored.Some? then w.stored.value else if tip.Some? then tip.value else 0)
  {}

  // ---- what the stored row is needed for ----

  // With no row a restart goes on at whatever the tip is then, and everything in between is skipped: a start leaves
  // no gap behind the last block done exactly when the tip has not moved past its successor.
  lemma RestartWithoutRow(w: World, last: nat, tip: nat)
    requires w.stored.None? && w.process.Down? && w.completed != [] && last == w.completed[|w.completed| - 1]
    ensures var w' := Step(Step(w, Start(false, Some(tip))), Tick(Some(tip + 1), false, false));
      && w'.completed == w.completed + [tip]
      && w'.stored.None?
      && (w'.completed[|w'.completed| - 1] <= last + 1 <==> tip <= last + 1)
  {}

  lemma {:induction false} LifeStoresLast(w: World, events: seq<Event>)
    requires w.process.Up? && w.stored.Some?
    requires forall k :: 0 <= k < |events| ==> !events[k].Start? && NothingLost(events[k])
    ensures var w' := Run(w, events);
      w'.stored == if |w'.completed| == |w.completed| then w.stored
                   else Some(w.process.current + (|w'.completed| - |w.completed|) - 1)
    decreases |events|
  {
    LifeIsConsecutive(w, events);
    if events != [] {
      var w1 := Step(w, events[0]);
      if w1.process.Up? {
        LifeIsConsecutive(w1, events[1..]);
        LifeStoresLast(w1, events[1..]);
      } else {
        DownStaysDown(w1, events[1..]);
      }
    }
  }

  // If reading the row fails at a start, that process does the blocks from 0 on once more, and the stored height
  // falls back: exactly while at least one and no more than all of the blocks before it are done again.
  lemma FailedReadStartsOver(w: World, tip: Option<nat>, events: seq<Event>)
    requires w.stored.Some? && w.process.Down?
    requires forall k :: 0 <= k < |events| ==> !events[k].Start? && NothingLost(events[k])
    ensures var w' := Run(Step(w, Start(true, tip)), events);
      var redone := |w'.completed| - |w.completed|;
      && w.completed <= w'.completed
      && (forall k :: |w.completed| <= k < |w'.completed| ==> w'.completed[k] == k - |w.completed|)
      && w'.stored.Some?
      && (w'.stored.value < w.stored.value <==> 0 < redone <= w.stored.value)
  {
    var started := Step(w, Start(true, tip));
    LifeIsConsecutive(started, events);
    LifeStoresLast(started, events);
  }

  // ---- the transactions of a block ----

  datatype BlockTx = BlockTx(hash: string, decodable: bool)

  // A missing result reads as code 0.
  function ResultCode(codes: seq<nat>, i: nat): nat {
    if i < |codes| then codes[i] else 0
  }

  predicate Kept(txs: seq<BlockTx>, codes: seq<nat>, i: nat)
    requires i < |txs|
  {
    ResultCode(codes, i) == 0 && txs[i].decodable
  }

  // The hashes are, in block order, those of the transactions at these positions, which are those of the first n
  // that are kept.
  ghost predicate HandsOn(txs: seq<BlockTx>, codes: seq<nat>, n: nat, from: seq<nat>, hashes: seq<string>)
    requires n <= |txs|
  {
    && |from| == |hashes|
    && (forall k :: 0 <= k < |from| ==> from[k] < n && hashes[k] == txs[from[k]].hash)
    && (forall j, k :: 0 <= j < k < |from| ==> from[j] < from[k])
    && (forall i :: 0 <= i < n ==> (i in from <==> txs[i].decodable && (i < |codes| ==> codes[i] == 0)))
  }

  method FetchTransactions(txs: seq<BlockTx>, codes: seq<nat>) returns (transactions: seq<string>)
    ensures exists from :: HandsOn(txs, codes, |txs|, from, transactions)
  {
    transactions := [];
    ghost var from: seq<nat> := [];
    for index := 0 to |txs|
      invariant HandsOn(txs, codes, index, from, transactions)
    {
      if ResultCode(codes, index) != 0 {
        continue;
      }
      if !txs[index].decodable {
        continue;
      }
      transactions := transactions + [txs[index].hash];
      from := from + [index];
    }
  }
}
