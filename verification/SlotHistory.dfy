/**
 * Two alternating slots as crash-consistent storage: saving always overwrites the inactive slot, an
 * interrupted write may leave any prefix of the new record, and opening picks the newest generation.
 */
module SlotHistory {
  import opened Common
  import opened Bytes
  import opened SlotCodec

  datatype Slot = A | B | Legacy

  type File = Option<seq<Byte>>

  datatype Disk = Disk(a: File, b: File, legacy: File)

  datatype OpenFault = ConflictingGenerations | NoValidSlot

  datatype Opened = Opened(slot: Slot, record: Record)

  // ---------- choosing a generation ----------

  function DecodeFile(f: File): Option<Record> {
    if f.Some? then Decode(f.value) else None
  }

  /** The newest complete generation; a conflict is never guessed away. */
  function Select(d: Disk): Result<Opened, OpenFault> {
    match (DecodeFile(d.a), DecodeFile(d.b))
    case (Some(a), Some(b)) =>
      if a.generation == b.generation then
        if a.payload != b.payload then Err(ConflictingGenerations) else Ok(Opened(A, a))
      else if a.generation > b.generation then Ok(Opened(A, a))
      else Ok(Opened(B, b))
    case (Some(a), None) => Ok(Opened(A, a))
    case (None, Some(b)) => Ok(Opened(B, b))
    case (None, None) =>
      if d.legacy.Some? then Ok(Opened(Legacy, Record(0, d.legacy.value)))
      else if d.a.Some? || d.b.Some? then Err(NoValidSlot)
      else Ok(Opened(Legacy, Record(0, [])))
  }

  // ---------- saving ----------

  datatype Owner = Owner(active: Slot, generation: nat)

  /** What an interrupted write left in the target. */
  datatype Left = Untouched | Torn(n: nat)

  /** How a write went; after a failure the slot may still be readable for a check. */
  datatype Outcome = Durable | Lost(left: Left, readable: bool)

  function Target(o: Owner): Slot {
    if o.active == A then B else A
  }

  function Content(d: Disk, s: Slot): File {
    match s case A => d.a case B => d.b case Legacy => d.legacy
  }

  function Put(d: Disk, s: Slot, f: File): Disk {
    match s case A => d.(a := f) case B => d.(b := f) case Legacy => d.(legacy := f)
  }

  function WriteResult(before: File, encoded: seq<Byte>, outcome: Outcome): File {
    match outcome
    case Durable => Some(encoded)
    case Lost(Untouched, _) => before
    case Lost(Torn(n), _) => Some(if n < |encoded| then encoded[..n] else encoded)
  }

  predicate CanEncode(o: Owner, payload: seq<Byte>) {
    o.generation + 1 < U64_LIMIT && |payload| <= MAX_BYTES
  }

  /** The owner, the disk and whether the save is reported as done. */
  function SaveStep(o: Owner, d: Disk, payload: seq<Byte>, outcome: Outcome): (Owner, Disk, bool) {
    if !CanEncode(o, payload) then (o, d, false)
    else
      var next, target := o.generation + 1, Target(o);
      var encoded := Encode(next, payload).value;
      var d' := Put(d, target, WriteResult(Content(d, target), encoded, outcome));
      if outcome.Lost?
        && !(outcome.readable && DecodeFile(Content(d', target)) == Some(Record(next, payload)))
      then (o, d', false)
      else (Owner(target, next), d', true)
  }

  // ---------- histories ----------

  datatype Event =
    | Save(payload: seq<Byte>, outcome: Outcome)
    | Reopen

  /** `base` is the last payload known to be stored, `attempts` those whose save failed since. */
  datatype World = World(disk: Disk, owner: Option<Owner>, base: Opened, attempts: set<seq<Byte>>)

  function Start(legacy: File): World {
    World(Disk(None, None, legacy), None, Opened(Legacy, Record(0, if legacy.Some? then legacy.value else [])), {})
  }

  function Step(w: World, e: Event): World {
    match e
    case Reopen =>
      (match Select(w.disk)
       case Ok(found) => World(w.disk, Some(Owner(found.slot, found.record.generation)), found, {})
       case Err(_) => w.(owner := None))
    case Save(payload, outcome) =>
      if w.owner.None? then w
      else
        var (owner, disk, done) := SaveStep(w.owner.value, w.disk, payload, outcome);
        if done then World(disk, Some(owner), Opened(owner.active, Record(owner.generation, payload)), {})
        else if !CanEncode(w.owner.value, payload) then w
        else World(disk, Some(owner), w.base, w.attempts + {payload})
  }

  function After(legacy: File, events: seq<Event>): World {
    if |events| == 0 then Start(legacy) else Step(After(legacy, events[..|events| - 1]), events[|events| - 1])
  }

  // ---------- what every history keeps ----------

  /** A slot other than the base holds nothing, something older, or the very next generation of an attempt. */
  ghost predicate Spare(f: File, generation: nat, attempts: set<seq<Byte>>) {
    var r := DecodeFile(f);
    r.Some? ==>
      r.value.generation < generation
      || (r.value.generation == generation + 1 && r.value.payload in attempts)
  }

  ghost predicate BaseStored(w: World) {
    match w.base.slot
    case Legacy =>
      && w.base.record == Record(0, if w.disk.legacy.Some? then w.disk.legacy.value else [])
      && w.disk.b == None && Spare(w.disk.a, 0, w.attempts)
    case A => DecodeFile(w.disk.a) == Some(w.base.record) && Spare(w.disk.b, w.base.record.generation, w.attempts)
    case B => DecodeFile(w.disk.b) == Some(w.base.record) && Spare(w.disk.a, w.base.record.generation, w.attempts)
  }

  ghost predicate Inv(w: World) {
    && BaseStored(w)
    && (w.owner.Some? ==> w.owner.value == Owner(w.base.slot, w.base.record.generation))
  }

  /** A record that may have been cut off either decodes to what was written or to nothing. */
  lemma TornDecode(generation: nat, payload: seq<Byte>, n: nat)
    requires 0 < generation < U64_LIMIT && |payload| <= MAX_BYTES
    ensures var e := Encode(generation, payload).value;
      DecodeFile(Some(if n < |e| then e[..n] else e)) == if n < |e| then None else Some(Record(generation, payload))
  {
    RoundTrip(generation, payload);
    if n < |Encode(generation, payload).value| {
      StrictPrefixRejected(generation, payload, n);
    }
  }

  lemma WriteDecode(before: File, generation: nat, payload: seq<Byte>, outcome: Outcome)
    requires 0 < generation < U64_LIMIT && |payload| <= MAX_BYTES
    ensures var f := WriteResult(before, Encode(generation, payload).value, outcome);
      || DecodeFile(f) == None
      || DecodeFile(f) == Some(Record(generation, payload))
      || (f == before && outcome.Lost? && outcome.left.Untouched?)
    ensures outcome.Durable? ==>
      DecodeFile(WriteResult(before, Encode(generation, payload).value, outcome)) == Some(Record(generation, payload))
  {
    RoundTrip(generation, payload);
    if outcome.Lost? && outcome.left.Torn? {
      TornDecode(generation, payload, outcome.left.n);
    }
  }

  lemma StepKeepsInv(w: World, e: Event)
    requires Inv(w)
    ensures Inv(Step(w, e))
  {
    hide Encode, Decode;
    if e.Save? && w.owner.Some? && CanEncode(w.owner.value, e.payload) {
      var o := w.owner.value;
      WriteDecode(Content(w.disk, Target(o)), o.generation + 1, e.payload, e.outcome);
    }
  }

  lemma {:induction false} HistoryKeepsInv(legacy: File, events: seq<Event>)
    ensures Inv(After(legacy, events)) && After(legacy, events).disk.legacy == legacy
  {
    hide Encode, Decode;
    if |events| > 0 {
      HistoryKeepsInv(legacy, events[..|events| - 1]);
      StepKeepsInv(After(legacy, events[..|events| - 1]), events[|events| - 1]);
    }
  }

  // ---------- the promises ----------

  /** Only a first save cut short, with nothing older to fall back on, leaves storage that does not open. */
  ghost predicate TornFirstSave(w: World) {
    w.base.slot == Legacy && w.disk.legacy == None && w.disk.a.Some? && DecodeFile(w.disk.a) == None
  }

  /**
   * After any saves, crashes and reopens, opening returns the last stored payload or one attempted since,
   * never an older one and never a conflict; it fails exactly after a torn first save.
   */
  lemma OpenReturnsRecent(legacy: File, events: seq<Event>)
    ensures var w := After(legacy, events);
      match Select(w.disk)
      case Ok(found) => (found.record.payload == w.base.record.payload || found.record.payload in w.attempts)
        && found.record.generation >= w.base.record.generation && !TornFirstSave(w)
      case Err(fault) => fault == NoValidSlot && TornFirstSave(w)
  {
    HistoryKeepsInv(legacy, events);
  }

  /** A save that was reported as done survives any number of reopens until the next save. */
  lemma {:induction false} DurableSaveSurvives(w: World, payload: seq<Byte>, outcome: Outcome, reopens: nat)
    requires Inv(w) && w.owner.Some? && SaveStep(w.owner.value, w.disk, payload, outcome).2
    ensures var stored := Reopened(Step(w, Save(payload, outcome)), reopens);
      Inv(stored) && stored.attempts == {} && stored.base.record.payload == payload
      && Select(stored.disk).Ok? && Select(stored.disk).value.record.payload == payload
  {
    hide Encode, Decode;
    StepKeepsInv(w, Save(payload, outcome));
    if reopens > 0 {
      DurableSaveSurvives(w, payload, outcome, reopens - 1);
      StepKeepsInv(Reopened(Step(w, Save(payload, outcome)), reopens - 1), Reopen);
    }
  }

  function Reopened(w: World, n: nat): World {
    if n == 0 then w else Step(Reopened(w, n - 1), Reopen)
  }

  /** With a legacy document, or after one save was ever reported as done, storage always opens. */
  lemma {:induction false} OpensOnceStored(legacy: File, events: seq<Event>, more: seq<Event>)
    requires legacy.Some? || After(legacy, events).base.slot != Legacy
    ensures Select(After(legacy, events + more).disk).Ok?
    decreases |more|
  {
    StaysStored(legacy, events, more);
    OpenReturnsRecent(legacy, events + more);
    HistoryKeepsInv(legacy, events + more);
  }

  lemma {:induction false} StaysStored(legacy: File, events: seq<Event>, more: seq<Event>)
    requires After(legacy, events).base.slot != Legacy || legacy.Some?
    ensures After(legacy, events + more).base.slot != Legacy || legacy.Some?
    decreases |more|
  {
    if |more| == 0 {
      assert events + more == events;
    } else {
      var front, last := more[..|more| - 1], more[|more| - 1];
      StaysStored(legacy, events, front);
      assert (events + more)[..|events + more| - 1] == events + front;
      HistoryKeepsInv(legacy, events + front);
    }
  }

  /** The failing family: without a legacy document, a first save cut short can never be opened again. */
  lemma TornFirstSaveNeverOpens(payload: seq<Byte>, n: nat, readable: bool, more: seq<Event>)
    requires |payload| <= MAX_BYTES && n < |Encode(1, payload).value|
    ensures var events := [Reopen, Save(payload, Lost(Torn(n), readable)), Reopen];
      After(None, events + more).owner.None? && Select(After(None, events + more).disk) == Err(NoValidSlot)
    decreases |more|
  {
    var events := [Reopen, Save(payload, Lost(Torn(n), readable)), Reopen];
    if |more| == 0 {
      assert events + more == events;
      assert events[..2] == [Reopen, Save(payload, Lost(Torn(n), readable))];
      assert events[..2][..1] == [Reopen];
      assert events[..2][..1][..0] == [];
      TornDecode(1, payload, n);
      var w1 := After(None, [Reopen]);
      assert w1 == Step(Start(None), Reopen);
      var w2 := After(None, events[..2]);
      assert w2 == Step(w1, Save(payload, Lost(Torn(n), readable)));
      assert After(None, events) == Step(w2, Reopen);
    } else {
      var front := more[..|more| - 1];
      TornFirstSaveNeverOpens(payload, n, readable, front);
      assert (events + more)[..|events + more| - 1] == events + front;
    }
  }
}
