/** Every interleaving of acceptor and workers: flags tell the truth and no connection is lost or parked. */
module HandOffRuns {
  import opened Common
  import opened HandOff

  /** The flag is up exactly while the worker waits with an empty mailbox, and mail only lies with a waiting worker. */
  ghost predicate FlagsTrue(s: State) {
    && Sized(s)
    && (forall w :: 0 <= w < WORKERS ==> (s.idle[w] <==> s.workers[w].Waiting? && s.mailbox[w].None?))
    && (forall w :: 0 <= w < WORKERS ==> (s.mailbox[w].Some? ==> s.workers[w].Waiting?))
  }

  ghost predicate SomeIdle(s: State) {
    exists w :: 0 <= w < |s.idle| && s.idle[w]
  }

  ghost predicate Bounded(s: State) {
    |s.backlog| <= BACKLOG && (s.phase != Full ==> |s.backlog| < BACKLOG)
  }

  /** A connection that waits while a worker is free will be looked at: the signal is still up. */
  ghost predicate NoLostSignal(s: State) {
    s.backlog != [] && SomeIdle(s) ==> s.freed
  }

  // ---------- where a connection is ----------

  function One(here: bool): nat {
    if here then 1 else 0
  }

  ghost function Times(conns: seq<nat>, c: nat): nat {
    if |conns| == 0 then 0 else One(conns[0] == c) + Times(conns[1..], c)
  }

  ghost function Queued(backlog: seq<Parked>, c: nat): nat {
    if |backlog| == 0 then 0 else One(backlog[0].conn == c) + Queued(backlog[1..], c)
  }

  predicate Holds(box: Option<Parked>, c: nat) {
    box.Some? && box.value.conn == c
  }

  ghost function Boxed(mailbox: seq<Option<Parked>>, c: nat): nat {
    if |mailbox| == 0 then 0 else One(Holds(mailbox[0], c)) + Boxed(mailbox[1..], c)
  }

  ghost function Served(workers: seq<Worker>, c: nat): nat {
    if |workers| == 0 then 0 else One(workers[0] == Serving(c)) + Served(workers[1..], c)
  }

  ghost function Places(s: State, c: nat): nat {
    Queued(s.backlog, c) + Boxed(s.mailbox, c) + Served(s.workers, c) + Times(s.closed, c)
  }

  /** Each accepted connection is in the backlog, in a mailbox, with a worker or closed, and in one place only. */
  ghost predicate Conserved(s: State) {
    forall c: nat :: Times(s.accepted, c) == Places(s, c)
  }

  lemma {:induction false} QueuedAppended(backlog: seq<Parked>, p: Parked, c: nat)
    ensures Queued(backlog + [p], c) == Queued(backlog, c) + One(p.conn == c)
  {
    if |backlog| == 0 {
      assert backlog + [p] == [p] && [p][1..] == [];
    } else {
      QueuedAppended(backlog[1..], p, c);
      assert (backlog + [p])[1..] == backlog[1..] + [p];
    }
  }

  lemma {:induction false} TimesAppended(conns: seq<nat>, x: nat, c: nat)
    ensures Times(conns + [x], c) == Times(conns, c) + One(x == c)
  {
    if |conns| == 0 {
      assert conns + [x] == [x] && [x][1..] == [];
    } else {
      TimesAppended(conns[1..], x, c);
      assert (conns + [x])[1..] == conns[1..] + [x];
    }
  }

  lemma {:induction false} BoxedUpdated(mailbox: seq<Option<Parked>>, i: nat, box: Option<Parked>, c: nat)
    requires i < |mailbox|
    ensures Boxed(mailbox[i := box], c) + One(Holds(mailbox[i], c)) == Boxed(mailbox, c) + One(Holds(box, c))
  {
    if i == 0 {
      assert mailbox[0 := box][1..] == mailbox[1..];
    } else {
      BoxedUpdated(mailbox[1..], i - 1, box, c);
      assert mailbox[i := box][1..] == mailbox[1..][i - 1 := box];
    }
  }

  lemma {:induction false} ServedUpdated(workers: seq<Worker>, i: nat, worker: Worker, c: nat)
    requires i < |workers|
    ensures Served(workers[i := worker], c) + One(workers[i] == Serving(c)) == Served(workers, c) + One(worker == Serving(c))
  {
    if i == 0 {
      assert workers[0 := worker][1..] == workers[1..];
    } else {
      ServedUpdated(workers[1..], i - 1, worker, c);
      assert workers[i := worker][1..] == workers[1..][i - 1 := worker];
    }
  }

  // ---------- giving ----------

  /** The first worker picked has an empty mailbox and is waiting, so one attempt is enough. */
  lemma FirstPickSucceeds(s: State)
    requires FlagsTrue(s)
    ensures match Pick(s.idle, s.next, |s.idle|)
      case Some(i) => i < WORKERS && s.mailbox[i].None? && s.workers[i].Waiting?
      case None => !SomeIdle(s)
  {
    PickNearest(s.idle, s.next, |s.idle|);
  }

  lemma GiveKeepsFlags(s: State, p: Parked)
    requires FlagsTrue(s) && Give(s, p).Some?
    ensures FlagsTrue(Give(s, p).value)
  {
    FirstPickSucceeds(s);
  }

  lemma GiveConserves(s: State, p: Parked)
    requires FlagsTrue(s) && Give(s, p).Some?
    ensures forall c :: Places(Give(s, p).value, c) == Places(s, c) + One(p.conn == c)
  {
    FirstPickSucceeds(s);
    var i := Pick(s.idle, s.next, |s.idle|).value;
    forall c ensures Places(Give(s, p).value, c) == Places(s, c) + One(p.conn == c) {
      BoxedUpdated(s.mailbox, i, Some(p), c);
    }
  }

  // ---------- draining ----------

  /** One round of draining. */
  lemma PopConserves(s: State, next: State)
    requires FlagsTrue(s) && Conserved(s) && s.backlog != []
    requires var p, rest := s.backlog[0], s.(backlog := s.backlog[1..]);
      next == rest.(closed := rest.closed + [p.conn]) || Give(rest, p) == Some(next)
    ensures FlagsTrue(next) && Conserved(next) && next.freed == s.freed
  {
    var p, rest := s.backlog[0], s.(backlog := s.backlog[1..]);
    if next == rest.(closed := rest.closed + [p.conn]) {
      forall c ensures Places(next, c) == Places(s, c) {
        TimesAppended(rest.closed, p.conn, c);
      }
    } else {
      GiveKeepsFlags(rest, p);
      GiveConserves(rest, p);
      forall c ensures Places(next, c) == Places(s, c) {
        assert Places(rest, c) + One(p.conn == c) == Places(s, c);
      }
    }
  }

  lemma {:induction false} DrainKeeps(s: State, clock: nat -> nat, k: nat)
    requires FlagsTrue(s) && Conserved(s)
    ensures var end := Drain(s, clock, k);
      && FlagsTrue(end) && Conserved(end) && |end.backlog| <= |s.backlog| && end.freed == s.freed
      && (end.backlog != [] ==> !SomeIdle(end))
    decreases |s.backlog|
  {
    if s.backlog != [] {
      var p, rest := s.backlog[0], s.(backlog := s.backlog[1..]);
      if Stale(p, clock(k)) {
        var next := rest.(closed := rest.closed + [p.conn]);
        PopConserves(s, next);
        DrainKeeps(next, clock, k + 1);
      } else if Give(rest, p).Some? {
        PopConserves(s, Give(rest, p).value);
        DrainKeeps(Give(rest, p).value, clock, k + 1);
      } else {
        FirstPickSucceeds(rest);
      }
    }
  }

  /** The connections of a backlog that had waited more than 90 seconds when their turn came, in order. */
  function Overdue(backlog: seq<Parked>, clock: nat -> nat, k: nat): seq<nat> {
    if |backlog| == 0 then []
    else
      (if clock(k) > backlog[0].since + 90 * 1_000_000_000 then [backlog[0].conn] else [])
      + Overdue(backlog[1..], clock, k + 1)
  }

  lemma OverdueFirst(backlog: seq<Parked>, gone: nat, clock: nat -> nat, k: nat)
    requires 0 < gone <= |backlog|
    ensures Overdue(backlog[..gone], clock, k)
      == (if Stale(backlog[0], clock(k)) then [backlog[0].conn] else []) + Overdue(backlog[1..][..gone - 1], clock, k + 1)
  {
    assert backlog[..gone][1..] == backlog[1..][..gone - 1];
  }

  lemma DrainTurn(s: State, clock: nat -> nat, k: nat)
    requires Sized(s)
    ensures s.backlog == [] ==> Drain(s, clock, k) == s
    ensures s.backlog != [] ==>
      var p, rest := s.backlog[0], s.(backlog := s.backlog[1..]);
      if Stale(p, clock(k)) then Drain(s, clock, k) == Drain(rest.(closed := rest.closed + [p.conn]), clock, k + 1)
      else if Give(rest, p).None? then Drain(s, clock, k) == s
      else Sized(Give(rest, p).value) && Drain(s, clock, k) == Drain(Give(rest, p).value, clock, k + 1)
  {
    hide Give;
    if s.backlog != [] && Give(s.(backlog := s.backlog[1..]), s.backlog[0]).Some? {
      GiveKeepsRest(s.(backlog := s.backlog[1..]), s.backlog[0]);
    }
  }

  lemma NoneOverdue(clock: nat -> nat, k: nat)
    ensures Overdue([], clock, k) == []
  {
  }

  lemma GiveKeepsRest(s: State, p: Parked)
    requires Sized(s) && Give(s, p).Some?
    ensures var next := Give(s, p).value; Sized(next) && next.backlog == s.backlog && next.closed == s.closed
  {
  }

  /**
   * Draining looks at the waiting connections in order and closes exactly those that had waited more than 90
   * seconds. What is still in the backlog is its tail, in the old order, and its first has not waited that long.
   */
  lemma {:induction false} DrainKeepsOrder(s: State, clock: nat -> nat, k: nat) returns (gone: nat)
    requires Sized(s)
    ensures var end := Drain(s, clock, k);
      && gone <= |s.backlog| && end.backlog == s.backlog[gone..]
      && end.closed == s.closed + Overdue(s.backlog[..gone], clock, k)
      && (end.backlog != [] ==> clock(k + gone) <= end.backlog[0].since + 90 * 1_000_000_000)
    decreases |s.backlog|
  {
    hide Give, Overdue, Drain;
    DrainTurn(s, clock, k);
    gone := 0;
    if s.backlog != [] {
      var p, rest := s.backlog[0], s.(backlog := s.backlog[1..]);
      if Stale(p, clock(k)) {
        var more := DrainKeepsOrder(rest.(closed := rest.closed + [p.conn]), clock, k + 1);
        gone := more + 1;
        OverdueFirst(s.backlog, gone, clock, k);
      } else if Give(rest, p).Some? {
        GiveKeepsRest(rest, p);
        var more := DrainKeepsOrder(Give(rest, p).value, clock, k + 1);
        gone := more + 1;
        OverdueFirst(s.backlog, gone, clock, k);
      }
    }
    NoneOverdue(clock, k);
  }

  // ---------- every step ----------

  ghost predicate Inv(s: State) {
    FlagsTrue(s) && Bounded(s) && NoLostSignal(s) && Conserved(s)
  }

  lemma AdmitKeeps(s: State, conn: nat, since: nat)
    requires FlagsTrue(s) && Conserved(s)
    ensures FlagsTrue(Admit(s, conn, since)) && Conserved(Admit(s, conn, since))
    ensures |Admit(s, conn, since).backlog| <= |s.backlog| + 1
  {
    var known, p := s.(accepted := s.accepted + [conn]), Parked(conn, since);
    var next := Admit(s, conn, since);
    if Give(known, p).Some? {
      GiveKeepsFlags(known, p);
      GiveConserves(known, p);
    }
    forall c ensures Times(next.accepted, c) == Places(next, c) {
      TimesAppended(s.accepted, conn, c);
      assert Places(known, c) == Places(s, c) == Times(s.accepted, c);
      QueuedAppended(known.backlog, p, c);
    }
  }

  lemma AcceptKeepsInv(s: State, conn: nat, clock: nat -> nat)
    requires Inv(s) && s.phase == Ready
    ensures Inv(Step(s, Accept(conn, clock)))
  {
    AdmitKeeps(s, conn, clock(0));
    DrainKeeps(Admit(s, conn, clock(0)), clock, 1);
    SettleKeeps(Drain(Admit(s, conn, clock(0)), clock, 1));
  }

  lemma SettleKeeps(s: State)
    requires FlagsTrue(s) && Conserved(s) && |s.backlog| <= BACKLOG && (s.backlog != [] ==> !SomeIdle(s))
    ensures Inv(Settle(s))
  {
  }

  lemma WokenKeepsInv(s: State, signal: bool, clock: nat -> nat)
    requires Inv(s) && (signal ==> s.freed)
    ensures Inv(Step(s, Woken(signal, clock)))
  {
    var begin := if signal then s.(freed := false) else s;
    DrainKeeps(begin, clock, 0);
    SettleKeeps(Drain(begin, clock, 0));
  }

  lemma RestKeepsFlags(s: State, w: nat)
    requires FlagsTrue(s) && Enabled(s, Rest(w))
    ensures FlagsTrue(Resting(s, w)) && s.mailbox[w].None? && Resting(s, w).freed
  {
  }

  lemma RestConserves(s: State, w: nat)
    requires FlagsTrue(s) && Conserved(s) && Enabled(s, Rest(w))
    ensures Conserved(Resting(s, w))
  {
    var next := Resting(s, w);
    forall c ensures Places(next, c) == Places(s, c) {
      ServedUpdated(s.workers, w, Waiting, c);
      if s.workers[w].Serving? {
        TimesAppended(s.closed, s.workers[w].conn, c);
      }
    }
  }

  lemma TakeConserves(s: State, w: nat)
    requires FlagsTrue(s) && Conserved(s) && Enabled(s, Take(w))
    ensures Conserved(Taking(s, w))
  {
    var next := Taking(s, w);
    forall c ensures Places(next, c) == Places(s, c) {
      ServedUpdated(s.workers, w, Serving(s.mailbox[w].value.conn), c);
      BoxedUpdated(s.mailbox, w, None, c);
    }
  }

  lemma TakeKeepsFlags(s: State, w: nat)
    requires FlagsTrue(s) && NoLostSignal(s) && Enabled(s, Take(w))
    ensures FlagsTrue(Taking(s, w)) && NoLostSignal(Taking(s, w))
  {
    var next := Taking(s, w);
    if SomeIdle(next) {
      var k :| 0 <= k < |next.idle| && next.idle[k];
      assert s.idle[k];
    }
  }

  lemma StepKeepsInv(s: State, m: Move)
    requires Inv(s) && Enabled(s, m)
    ensures Inv(Step(s, m))
  {
    match m
    case Accept(conn, clock) => AcceptKeepsInv(s, conn, clock);
    case AcceptFails =>
    case Woken(signal, clock) => WokenKeepsInv(s, signal, clock);
    case Rest(w) =>
      RestKeepsFlags(s, w);
      RestConserves(s, w);
    case Take(w) =>
      TakeKeepsFlags(s, w);
      TakeConserves(s, w);
  }

  // ---------- every run ----------

  function Start(): State {
    State(seq(WORKERS, i => New), seq(WORKERS, i => false), seq(WORKERS, i => None), [], 0, false, Ready, [], [])
  }

  /** The moves of a run are each possible where they happen. */
  ghost predicate Reaches(moves: seq<Move>, s: State) {
    if |moves| == 0 then s == Start()
    else exists before ::
      Reaches(moves[..|moves| - 1], before) && Sized(before) && Enabled(before, moves[|moves| - 1])
      && s == Step(before, moves[|moves| - 1])
  }

  lemma StartInv()
    ensures Inv(Start())
  {
    var s := Start();
    forall c ensures Times(s.accepted, c) == Places(s, c) {
      EmptyPool(s.workers, c);
      EmptyBoxes(s.mailbox, c);
    }
  }

  lemma {:induction false} EmptyPool(workers: seq<Worker>, c: nat)
    requires forall i :: 0 <= i < |workers| ==> workers[i] == New
    ensures Served(workers, c) == 0
  {
    if |workers| > 0 {
      EmptyPool(workers[1..], c);
    }
  }

  lemma {:induction false} EmptyBoxes(mailbox: seq<Option<Parked>>, c: nat)
    requires forall i :: 0 <= i < |mailbox| ==> mailbox[i] == None
    ensures Boxed(mailbox, c) == 0
  {
    if |mailbox| > 0 {
      EmptyBoxes(mailbox[1..], c);
    }
  }

  /** In every reachable state the flags are true, the backlog is bounded, no signal is lost and nothing gets lost. */
  lemma {:induction false} EveryRunKeepsInv(moves: seq<Move>, s: State)
    requires Reaches(moves, s)
    ensures Inv(s)
  {
    if |moves| == 0 {
      StartInv();
    } else {
      var before :| Reaches(moves[..|moves| - 1], before) && Sized(before) && Enabled(before, moves[|moves| - 1])
        && s == Step(before, moves[|moves| - 1]);
      EveryRunKeepsInv(moves[..|moves| - 1], before);
      StepKeepsInv(before, moves[|moves| - 1]);
    }
  }

  /**
   * First come, first served fails in one place only: a connection accepted while others wait is handed
   * straight to a worker exactly when one became free since the acceptor last looked.
   */
  lemma NewcomerOvertakes(s: State, conn: nat, since: nat)
    requires Inv(s) && s.phase == Ready && s.backlog != []
    ensures SomeIdle(s) <==> Admit(s, conn, since).backlog == s.backlog
    ensures !SomeIdle(s) <==> Admit(s, conn, since).backlog == s.backlog + [Parked(conn, since)]
    ensures SomeIdle(s) ==> s.freed
  {
    var known := s.(accepted := s.accepted + [conn]);
    FirstPickSucceeds(known);
    PickNearest(s.idle, s.next, |s.idle|);
    assert |s.backlog + [Parked(conn, since)]| != |s.backlog|;
  }
}
