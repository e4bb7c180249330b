/** The bounded log of invalidations and the readers that follow it with a cursor. */
module EventLog {
  import opened Common

  const EVENT_CAPACITY: nat := 64

  datatype Event = Event(sequence: nat, manager: string, kind: string, id: string)

  datatype Log = Log(events: seq<Event>, sequence: nat)

  datatype Lost = Changed

  function Publish(log: Log, event: Event): Log {
    Log((if |log.events| == EVENT_CAPACITY then log.events[1..] else log.events) + [event], event.sequence)
  }

  function PublishAll(log: Log, events: seq<Event>): Log {
    if |events| == 0 then log else Publish(PublishAll(log, events[..|events| - 1]), events[|events| - 1])
  }

  function Newer(events: seq<Event>, cursor: nat): seq<Event> {
    if |events| == 0 then []
    else
      var rest := Newer(events[..|events| - 1], cursor);
      if events[|events| - 1].sequence > cursor then rest + [events[|events| - 1]] else rest
  }

  /** A reader that fell behind what the log still holds is told so. */
  function EventsAfter(log: Log, cursor: nat): Result<seq<Event>, Lost> {
    if cursor > log.sequence then Err(Changed)
    else if |log.events| > 0 && log.events[0].sequence > 0 && cursor < log.events[0].sequence - 1 then Err(Changed)
    else Ok(Newer(log.events, cursor))
  }

  // ---------- the log against everything ever published ----------

  ghost predicate Numbered(all: seq<Event>) {
    forall i :: 0 <= i < |all| ==> all[i].sequence == i + 1
  }

  /** The log holds the latest events, consecutive and ending at the sequence number. */
  ghost predicate Tied(log: Log, all: seq<Event>) {
    && Numbered(all) && |all| == log.sequence
    && |log.events| <= EVENT_CAPACITY && |log.events| <= |all|
    && log.events == all[|all| - |log.events|..]
    && (log.events == [] ==> all == [])
  }

  lemma PublishKeepsTied(log: Log, all: seq<Event>, event: Event)
    requires Tied(log, all) && event.sequence == log.sequence + 1
    ensures Tied(Publish(log, event), all + [event])
  {
    var next := Publish(log, event);
    assert next.events == (all + [event])[|all| + 1 - |next.events|..];
  }

  /** Forgetting the log is harmless when an event follows at once. */
  lemma ReloadKeepsTied(log: Log, all: seq<Event>, event: Event)
    requires Tied(log, all) && event.sequence == log.sequence + 1
    ensures Tied(Publish(log.(events := []), event), all + [event])
  {
    assert [event] == (all + [event])[|all|..];
  }

  lemma {:induction false} NewerIsSuffix(all: seq<Event>, from: nat, cursor: nat)
    requires Numbered(all) && from <= |all|
    ensures Newer(all[from..], cursor) == all[(if cursor < from then from else if cursor > |all| then |all| else cursor)..]
    decreases |all|
  {
    if from == |all| {
      assert all[from..] == [];
    } else {
      var front, last := all[..|all| - 1], all[|all| - 1];
      NewerIsSuffix(front, from, cursor);
      assert all[from..][..|all| - from - 1] == front[from..];
      var rest := Newer(front[from..], cursor);
      assert Newer(all[from..], cursor) == if last.sequence > cursor then rest + [last] else rest;
      var at := if cursor < from then from else cursor;
      if cursor < |all| {
        SuffixGrows(all, at);
      }
    }
  }

  lemma SuffixGrows(all: seq<Event>, at: nat)
    requires at < |all|
    ensures all[at..] == all[..|all| - 1][at..] + [all[|all| - 1]]
  {
  }

  /** A reader gets exactly the events after its cursor, or is told it lost some: never a gap, never a repeat. */
  lemma EventsAfterExact(log: Log, all: seq<Event>, cursor: nat)
    requires Tied(log, all)
    ensures EventsAfter(log, cursor) ==
      if |all| - |log.events| <= cursor <= |all| then Ok(all[cursor..]) else Err(Changed)
  {
    NewerIsSuffix(all, |all| - |log.events|, cursor);
    if log.events != [] {
      assert log.events[0] == all[|all| - |log.events|];
    }
  }

  // ---------- a reader over a whole run ----------

  /** What became of one delivery to a subscriber: taken, channel full, subscriber gone. */
  datatype Delivery = Sent | Full | Gone

  datatype Move = Published(event: Event) | Reloaded(event: Event) | Polled(delivery: Delivery)

  datatype Reader = Reader(start: nat, cursor: nat, seen: seq<Event>, present: bool)

  datatype World = World(log: Log, all: seq<Event>, reader: Reader)

  function Poll(log: Log, r: Reader, delivery: Delivery): Reader {
    if !r.present then r
    else
      match EventsAfter(log, r.cursor)
      case Err(_) => r.(present := false)
      case Ok(events) =>
        match delivery
        case Sent => r.(cursor := log.sequence, seen := r.seen + events)
        case Full => r
        case Gone => r.(present := false)
  }

  predicate Enabled(w: World, m: Move) {
    !m.Polled? ==> m.event.sequence == w.log.sequence + 1
  }

  function Step(w: World, m: Move): World {
    match m
    case Published(e) => w.(log := Publish(w.log, e), all := w.all + [e])
    case Reloaded(e) => w.(log := Publish(w.log.(events := []), e), all := w.all + [e])
    case Polled(d) => w.(reader := Poll(w.log, w.reader, d))
  }

  function After(w: World, moves: seq<Move>): World {
    if |moves| == 0 then w else Step(After(w, moves[..|moves| - 1]), moves[|moves| - 1])
  }

  ghost predicate Possible(w: World, moves: seq<Move>) {
    forall k :: 0 <= k < |moves| ==> Enabled(After(w, moves[..k]), moves[k])
  }

  /** What the reader was sent is what was published between its start and its cursor. */
  ghost predicate Follows(w: World) {
    && Tied(w.log, w.all)
    && (|| (w.reader.seen == [] && w.reader.cursor == w.reader.start)
        || (w.reader.start <= w.reader.cursor <= |w.all|
            && w.reader.seen == w.all[w.reader.start..w.reader.cursor]))
  }

  lemma PollFollows(w: World, delivery: Delivery)
    requires Follows(w)
    ensures Follows(Step(w, Polled(delivery)))
  {
    EventsAfterExact(w.log, w.all, w.reader.cursor);
    if w.reader.present && EventsAfter(w.log, w.reader.cursor).Ok? && delivery == Sent {
      assert w.reader.start <= w.reader.cursor <= |w.all|;
      assert w.all[w.reader.start..w.reader.cursor] + w.all[w.reader.cursor..] == w.all[w.reader.start..|w.all|];
    }
  }

  lemma StepFollows(w: World, m: Move)
    requires Follows(w) && Enabled(w, m)
    ensures Follows(Step(w, m))
  {
    match m
    case Published(e) => PublishKeepsTied(w.log, w.all, e);
    case Reloaded(e) => ReloadKeepsTied(w.log, w.all, e);
    case Polled(d) => PollFollows(w, d);
  }

  /** Over every interleaving of publishing, reloading and polling, a reader sees each event once and in order. */
  lemma {:induction false} ReaderSeesEachOnce(w: World, moves: seq<Move>)
    requires Follows(w) && Possible(w, moves)
    ensures Follows(After(w, moves))
  {
    if |moves| > 0 {
      var front := moves[..|moves| - 1];
      assert forall k :: 0 <= k < |front| ==> front[..k] == moves[..k];
      ReaderSeesEachOnce(w, front);
      StepFollows(After(w, front), moves[|moves| - 1]);
    }
  }

  /** Up to 64 events may pass between two polls without losing any. */
  lemma {:induction false} SlowReaderKeepsUp(log: Log, all: seq<Event>, events: seq<Event>)
    requires Tied(log, all)
    requires forall k :: 0 <= k < |events| ==> events[k].sequence == |all| + k + 1
    ensures EventsAfter(PublishAll(log, events), |all|) == if |events| <= EVENT_CAPACITY then Ok(events) else Err(Changed)
  {
    HeldEvents(log, events);
    PublishAllTied(log, all, events);
    EventsAfterExact(PublishAll(log, events), all + events, |all|);
  }

  lemma {:induction false} HeldEvents(log: Log, events: seq<Event>)
    requires |log.events| <= EVENT_CAPACITY
    ensures var held := |log.events| + |events|;
      |PublishAll(log, events).events| == if held <= EVENT_CAPACITY then held else EVENT_CAPACITY
  {
    if |events| > 0 {
      HeldEvents(log, events[..|events| - 1]);
    }
  }

  lemma {:induction false} PublishAllTied(log: Log, all: seq<Event>, events: seq<Event>)
    requires Tied(log, all)
    requires forall k :: 0 <= k < |events| ==> events[k].sequence == |all| + k + 1
    ensures Tied(PublishAll(log, events), all + events)
  {
    if |events| == 0 {
      assert all + events == all;
    } else {
      var front, last := events[..|events| - 1], events[|events| - 1];
      PublishAllTied(log, all, front);
      PublishKeepsTied(PublishAll(log, front), all + front, last);
      assert all + front + [last] == all + events;
    }
  }
}
