/**
 * The slot owner on top of the file backend that poisons itself: after any uncertain operation it
 * refuses everything until storage is reopened with a new owner.
 */
module SlotFiles {
  import opened Common
  import opened Bytes
  import opened SlotCodec
  import opened SlotHistory

  const CHUNK: nat := 65536
  const MAX_FILE: nat := MAX_BYTES + 24

  datatype IoFault = Storage | Full | ReadOnly

  /** How the file service behaves during one write: which calls succeed and what a failing one leaves. */
  datatype WritePlan = WritePlan(truncates: bool, emptied: bool, chunks: nat, partial: nat, syncs: bool)

  function Least(a: nat, b: nat): nat {
    if a < b then a else b
  }

  /** From here on every read call returns something, and never more than the rest of its chunk. */
  ghost predicate Serves(served: nat -> nat, size: nat, at: nat, call: nat)
    decreases size - at
  {
    at < size ==> 0 < served(call) <= Least(size, at + CHUNK) - at && Serves(served, size, at + served(call), call + 1)
  }

  lemma {:induction false} WholeChunksServe(served: nat -> nat, size: nat, call: nat)
    requires forall k: nat :: k * CHUNK < size ==> served(k) == Least(CHUNK, size - k * CHUNK)
    ensures Serves(served, size, Least(size, call * CHUNK), call)
    decreases size - Least(size, call * CHUNK)
  {
    if call * CHUNK < size {
      WholeChunksServe(served, size, call + 1);
    }
  }

  /** Reads served in full chunks, the last one in part, suffice for a file of any size. */
  lemma FullReadsSucceed(served: nat -> nat, size: nat)
    requires forall k: nat :: k * CHUNK < size ==> served(k) == Least(CHUNK, size - k * CHUNK)
    ensures Serves(served, size, 0, 0)
  {
    WholeChunksServe(served, size, 0);
  }

  /** The file can be read: nothing went wrong before, the service answers, and it serves the file to its end. */
  ghost predicate Readable(file: File, poisoned: bool, available: bool, served: nat -> nat) {
    !poisoned && available && (file.Some? ==> |file.value| <= MAX_FILE && Serves(served, |file.value|, 0, 0))
  }

  /** Nothing goes wrong while this many bytes are written. */
  predicate Healthy(plan: WritePlan, size: nat) {
    plan.truncates && plan.chunks * CHUNK >= size && plan.syncs
  }

  class Backend {
    /** The files as the service holds them. */
    var disk: Disk
    var poisoned: bool

    constructor (disk: Disk)
      ensures this.disk == disk && !poisoned
    {
      this.disk, poisoned := disk, false;
    }

    /** Chunked read of a whole file; `served` tells how many bytes each read call returns. */
    method Read(slot: Slot, available: bool, served: nat -> nat) returns (r: Result<File, IoFault>)
      modifies this`poisoned
      ensures r.Ok? <==> Readable(Content(disk, slot), old(poisoned), available, served)
      ensures r.Ok? ==> r.value == Content(disk, slot) && !poisoned && !old(poisoned)
      ensures r.Err? ==> poisoned
      ensures old(poisoned) ==> r == Err(Storage)
    {
      if poisoned {
        return Err(Storage);
      }
      if !available {
        poisoned := true;
        return Err(Storage);
      }
      var file := Content(disk, slot);
      if file.None? {
        return Ok(None);
      }
      var size := |file.value|;
      if size > MAX_FILE {
        poisoned := true;
        return Err(Full);
      }
      var bytes, at, call := [], 0, 0;
      while at < size
        invariant at <= size && bytes == file.value[..at] && !poisoned
        invariant Serves(served, size, at, call) <==> Serves(served, size, 0, 0)
        decreases size - at
      {
        var end := Least(size, at + CHUNK);
        var n := served(call);
        if n == 0 || n > end - at {
          poisoned := true;
          return Err(Storage);
        }
        bytes := bytes + file.value[at..at + n];
        at := at + n;
        call := call + 1;
      }
      assert file.value[..size] == file.value;
      return Ok(Some(bytes));
    }

    /** Truncate, write chunk by chunk, sync; any failure leaves a prefix and poisons the owner. */
    method Write(slot: Slot, bytes: seq<Byte>, plan: WritePlan) returns (r: Option<IoFault>, ghost left: Left)
      modifies this
      ensures r.None? <==> slot != Legacy && |bytes| <= MAX_FILE && !old(poisoned) && Healthy(plan, |bytes|)
      ensures r.None? ==> !poisoned && disk == Put(old(disk), slot, Some(bytes)) && slot != Legacy
      ensures r.Some? ==>
        disk == Put(old(disk), slot, WriteResult(Content(old(disk), slot), bytes, Lost(left, false)))
      ensures r.Some? && slot != Legacy && |bytes| <= MAX_FILE ==> poisoned
      ensures old(poisoned) || slot == Legacy || |bytes| > MAX_FILE ==>
        r.Some? && disk == old(disk) && poisoned == old(poisoned)
    {
      left := Untouched;
      if slot == Legacy {
        return Some(ReadOnly), left;
      }
      if |bytes| > MAX_FILE {
        return Some(Full), left;
      }
      if poisoned {
        return Some(Storage), left;
      }
      ghost var before := disk;
      if !plan.truncates {
        poisoned := true;
        if plan.emptied {
          disk := Put(disk, slot, Some([]));
          left := Torn(0);
          assert bytes[..0] == [];
        }
        return Some(Storage), left;
      }
      disk := Put(disk, slot, Some([]));
      assert bytes[..|bytes|] == bytes;
      var at, chunk := 0, 0;
      while at < |bytes|
        invariant at == Least(|bytes|, chunk * CHUNK) && chunk <= plan.chunks && !poisoned
        invariant disk == Put(before, slot, Some(bytes[..at]))
        decreases |bytes| - at
      {
        var end := Least(|bytes|, at + CHUNK);
        if chunk == plan.chunks {
          var landed := at + Least(plan.partial, end - at);
          disk := Put(disk, slot, Some(bytes[..landed]));
          poisoned := true;
          return Some(Storage), Torn(landed);
        }
        disk := Put(disk, slot, Some(bytes[..at] + bytes[at..end]));
        assert bytes[..at] + bytes[at..end] == bytes[..end];
        at := end;
        chunk := chunk + 1;
      }
      assert bytes[..at] == bytes;
      if !plan.syncs {
        poisoned := true;
        return Some(Storage), Torn(|bytes|);
      }
      return None, left;
    }
  }

  datatype SlotsFault = Io(io: IoFault) | Choice(open: OpenFault)

  class Files {
    const backend: Backend
    var active: Slot
    var generation: nat

    constructor Init(backend: Backend, active: Slot, generation: nat)
      ensures this.backend == backend && this.active == active && this.generation == generation
    {
      this.backend, this.active, this.generation := backend, active, generation;
    }

    ghost function View(): Owner
      reads this
    {
      Owner(active, generation)
    }

    /** Reads what is needed before the owner starts to mutate; the legacy document only when no slot is valid. */
    static method Open(backend: Backend, available: bool, served: nat -> nat)
      returns (r: Result<(Files, seq<Byte>), SlotsFault>)
      modifies backend`poisoned
      ensures r.Ok? ==> fresh(r.value.0) && r.value.0.backend == backend && !backend.poisoned
      ensures r.Ok? ==> Select(backend.disk).Ok? && r.value.1 == Select(backend.disk).value.record.payload
      ensures r.Ok? ==>
        r.value.0.View() == Owner(Select(backend.disk).value.slot, Select(backend.disk).value.record.generation)
      ensures r.Err? && !backend.poisoned ==> Select(backend.disk).Err?
      ensures (forall slot :: Readable(Content(backend.disk, slot), old(backend.poisoned), available, served)) ==>
        (r.Ok? <==> Select(backend.disk).Ok?)
      ensures backend.disk == old(backend.disk)
    {
      var a := backend.Read(A, available, served);
      if a.Err? {
        return Err(Io(a.error));
      }
      var b := backend.Read(B, available, served);
      if b.Err? {
        return Err(Io(b.error));
      }
      var legacy: File := None;
      if DecodeFile(a.value).None? && DecodeFile(b.value).None? {
        var read := backend.Read(Legacy, available, served);
        if read.Err? {
          return Err(Io(read.error));
        }
        legacy := read.value;
      }
      var found := Select(Disk(a.value, b.value, legacy));
      if found.Err? {
        return Err(Choice(found.error));
      }
      var files := new Files.Init(backend, found.value.slot, found.value.record.generation);
      return Ok((files, found.value.record.payload));
    }

    /** Writes the next generation into the inactive slot; an uncertain write never counts as stored. */
    method Save(payload: seq<Byte>, plan: WritePlan) returns (done: bool, ghost outcome: Outcome)
      modifies this, backend
      ensures old(backend.poisoned) ==> !done && View() == old(View()) && backend.disk == old(backend.disk)
      ensures !old(backend.poisoned) ==>
        (View(), backend.disk, done) == SaveStep(old(View()), old(backend.disk), payload, outcome)
      ensures !done && CanEncode(old(View()), payload) ==> backend.poisoned
      ensures done <==> !old(backend.poisoned) && CanEncode(old(View()), payload) && Healthy(plan, 24 + |payload|)
    {
      hide Decode, Prefix, LeBytes;
      outcome := Durable;
      if generation + 1 >= U64_LIMIT {
        return false, outcome;
      }
      var next, target := generation + 1, if active == A then B else A;
      var encoded := Encode(next, payload);
      if encoded.Err? {
        return false, outcome;
      }
      Layout(next, payload);
      var failed, left := backend.Write(target, encoded.value, plan);
      if failed.Some? {
        outcome := Lost(left, false);
        // a readback would prove cached bytes, not durability: the poisoned backend refuses it
        var written := backend.Read(target, true, n => CHUNK);
        return false, outcome;
      }
      generation := next;
      active := target;
      return true, outcome;
    }
  }
}
