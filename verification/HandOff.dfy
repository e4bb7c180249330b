/** Connections between one acceptor and a fixed pool of workers on a single cooperative core. */
module HandOff {
  import opened Common

  const WORKERS: nat := 8
  const BACKLOG: nat := 32
  const STALE_NS: nat := 90_000_000_000

  datatype Parked = Parked(conn: nat, since: nat)

  /** A worker that was started, one waiting for its mailbox, one serving a connection. */
  datatype Worker = New | Waiting | Serving(conn: nat)

  /** Where the acceptor is suspended: taking connections, refusing them, or pausing after an error. */
  datatype Phase = Ready | Full | Paused

  datatype State = State(
    workers: seq<Worker>, idle: seq<bool>, mailbox: seq<Option<Parked>>,
    backlog: seq<Parked>, next: nat, freed: bool, phase: Phase, accepted: seq<nat>, closed: seq<nat>)

  // ---------- choosing a worker ----------

  /** The first idle worker at or after `next`, going round once. */
  function Pick(idle: seq<bool>, next: nat, tries: nat): Option<nat>
    requires next < |idle|
    decreases tries
  {
    if tries == 0 then None
    else if idle[next] then Some(next)
    else Pick(idle, NextPlace(next, |idle|), tries - 1)
  }

  /** How many places a worker lies behind the starting point, going round. */
  function Distance(from: nat, to: nat, n: nat): nat
    requires from < n && to < n
  {
    if to >= from then to - from else to + n - from
  }

  /** The choice is idle and no idle worker comes earlier in the round; nobody is chosen only when nobody is idle. */
  lemma {:induction false} PickNearest(idle: seq<bool>, next: nat, tries: nat)
    requires next < |idle| && tries <= |idle|
    ensures match Pick(idle, next, tries)
      case Some(i) => i < |idle| && idle[i] && Distance(next, i, |idle|) < tries
        && forall j :: 0 <= j < |idle| && idle[j] ==> Distance(next, i, |idle|) <= Distance(next, j, |idle|)
      case None => forall j :: 0 <= j < |idle| && Distance(next, j, |idle|) < tries ==> !idle[j]
    decreases tries
  {
    if tries > 0 && !idle[next] {
      var after := NextPlace(next, |idle|);
      PickNearest(idle, after, tries - 1);
      assert forall j :: 0 <= j < |idle| && j != next ==> Distance(next, j, |idle|) == Distance(after, j, |idle|) + 1;
    }
  }

  /** The scan with a moving cursor; the cursor ends behind the chosen worker. */
  method PickFrom(idle: seq<bool>, start: nat) returns (r: Option<nat>, cursor: nat)
    requires start < |idle|
    ensures r == Pick(idle, start, |idle|) && (r.Some? ==> r.value < |idle|)
    ensures cursor == if r.Some? then NextPlace(r.value, |idle|) else start
    ensures cursor < |idle|
  {
    var n := |idle|;
    cursor := start;
    for k := 0 to n
      invariant cursor == if start + k < n then start + k else start + k - n
      invariant Pick(idle, start, n) == Pick(idle, cursor, n - k)
    {
      var i := cursor;
      cursor := NextPlace(cursor, n);
      if idle[i] {
        return Some(i), cursor;
      }
    }
    return None, cursor;
  }

  /** The next place in the round. */
  function NextPlace(i: nat, n: nat): (r: nat)
    requires i < n
    ensures r == if i + 1 == n then 0 else i + 1
  {
    (i + 1) % n
  }

  // ---------- the steps ----------

  /** Gives the connection to the chosen worker, whose flag goes down at once; nothing when all are busy. */
  function Give(s: State, p: Parked): Option<State>
    requires s.next < |s.idle| == |s.mailbox|
  {
    match Pick(s.idle, s.next, |s.idle|)
    case None => None
    case Some(i) =>
      PickNearest(s.idle, s.next, |s.idle|);
      Some(s.(mailbox := s.mailbox[i := Some(p)], idle := s.idle[i := false], next := NextPlace(i, |s.idle|)))
  }

  predicate Stale(p: Parked, now: nat) {
    now > p.since + STALE_NS
  }

  predicate Sized(s: State) {
    |s.workers| == |s.idle| == |s.mailbox| == WORKERS && s.next < WORKERS
  }

  /** Those who wait longest go first; what waited too long is closed instead. */
  function Drain(s: State, clock: nat -> nat, k: nat): State
    requires Sized(s)
    decreases |s.backlog|
  {
    if |s.backlog| == 0 then s
    else
      var p, rest := s.backlog[0], s.(backlog := s.backlog[1..]);
      if Stale(p, clock(k)) then Drain(rest.(closed := rest.closed + [p.conn]), clock, k + 1)
      else
        match Give(rest, p)
        case None => s
        case Some(given) => Drain(given, clock, k + 1)
  }

  datatype Move =
    | Accept(conn: nat, clock: nat -> nat)
    | AcceptFails
    | Woken(signal: bool, clock: nat -> nat)
    | Rest(worker: nat)
    | Take(worker: nat)

  /** After draining, the acceptor suspends: a full backlog stops it from taking more. */
  function Settle(s: State): State {
    s.(phase := if |s.backlog| >= BACKLOG then Full else Ready)
  }

  function Admit(s: State, conn: nat, since: nat): State
    requires Sized(s)
  {
    var known := s.(accepted := s.accepted + [conn]);
    match Give(known, Parked(conn, since))
    case Some(given) => given
    case None => known.(backlog := known.backlog + [Parked(conn, since)])
  }

  predicate Enabled(s: State, m: Move) {
    match m
    case Accept(_, _) => s.phase == Ready
    case AcceptFails => s.phase == Ready
    case Woken(signal, _) => signal ==> s.freed
    case Rest(w) => w < WORKERS && |s.workers| == WORKERS && !s.workers[w].Waiting?
    case Take(w) => w < WORKERS && |s.workers| == |s.mailbox| == WORKERS && s.workers[w].Waiting? && s.mailbox[w].Some?
  }

  /** A worker announces itself, tells the acceptor and looks into its mailbox, all in one go. */
  function Resting(s: State, w: nat): State
    requires Sized(s) && w < WORKERS
  {
    var done := if s.workers[w].Serving? then s.(closed := s.closed + [s.workers[w].conn]) else s;
    var free := done.(workers := s.workers[w := Waiting], idle := s.idle[w := true], freed := true);
    if s.mailbox[w].Some? then Taking(free, w) else free
  }

  function Taking(s: State, w: nat): State
    requires Sized(s) && w < WORKERS && s.mailbox[w].Some?
  {
    s.(workers := s.workers[w := Serving(s.mailbox[w].value.conn)], mailbox := s.mailbox[w := None], idle := s.idle[w := false])
  }

  function Step(s: State, m: Move): State
    requires Sized(s) && Enabled(s, m)
  {
    match m
    case Accept(conn, clock) =>
      var admitted := Admit(s, conn, clock(0));
      AdmitSized(s, conn, clock(0));
      Settle(Drain(admitted, clock, 1))
    case AcceptFails => s.(phase := Paused)
    case Woken(signal, clock) => Settle(Drain(if signal then s.(freed := false) else s, clock, 0))
    case Rest(w) => Resting(s, w)
    case Take(w) => Taking(s, w)
  }

  lemma AdmitSized(s: State, conn: nat, since: nat)
    requires Sized(s)
    ensures Sized(Admit(s, conn, since))
  {
  }
}
