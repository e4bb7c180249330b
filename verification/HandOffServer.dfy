/** The acceptor and its workers as loops over flags, mailboxes and a queue. */
module HandOffServer {
  import opened Common
  import opened HandOff
  import opened HandOffRuns

  class Server {
    const idle: array<bool>
    const mailbox: array<Option<Parked>>
    var workers: seq<Worker>
    var backlog: seq<Parked>
    var next: nat
    var freed: bool
    var phase: Phase
    var accepted: seq<nat>
    var closed: seq<nat>

    ghost function View(): State
      reads this, idle, mailbox
    {
      State(workers, idle[..], mailbox[..], backlog, next, freed, phase, accepted, closed)
    }

    constructor ()
      ensures View() == Start() && fresh(idle) && fresh(mailbox) && Inv(View())
    {
      idle := new bool[WORKERS](i => false);
      mailbox := new Option<Parked>[WORKERS](i => None);
      workers := seq(WORKERS, i => New);
      backlog, next, freed, phase, accepted, closed := [], 0, false, Ready, [], [];
      new;
      assert idle[..] == Start().idle;
      assert mailbox[..] == Start().mailbox;
      StartInv();
    }

    /**
     * Gives the connection to the first worker picked. The program would try others until one has room,
     * from flags it read once; that loop never turns, because the mailbox of the first worker is empty.
     */
    method Offer(p: Parked) returns (taken: bool)
      requires FlagsTrue(View())
      modifies this`next, idle, mailbox
      ensures taken == Give(old(View()), p).Some?
      ensures View() == if taken then Give(old(View()), p).value else old(View())
    {
      ghost var before := View();
      var flags := idle[..];
      var r, cursor := PickFrom(flags, next);
      FirstPickSucceeds(before);
      if r.None? {
        return false;
      }
      var i := r.value;
      assert mailbox[i].None?;
      mailbox[i] := Some(p);
      idle[i] := false;
      next := cursor;
      assert idle[..] == before.idle[i := false];
      assert mailbox[..] == before.mailbox[i := Some(p)];
      return true;
    }

    /** Hands out the backlog in order until a connection finds no worker. */
    method DrainBacklog(clock: nat -> nat, first: nat)
      requires FlagsTrue(View()) && Conserved(View())
      modifies this`next, this`backlog, this`closed, idle, mailbox
      ensures View() == Drain(old(View()), clock, first)
    {
      hide Conserved, Pick, Give, Stale;
      ghost var goal := Drain(View(), clock, first);
      var k := first;
      while |backlog| > 0
        invariant FlagsTrue(View()) && Conserved(View())
        invariant Drain(View(), clock, k) == goal
        decreases |backlog|
      {
        ghost var before := View();
        var p := backlog[0];
        backlog := backlog[1..];
        var now := clock(k);
        k := k + 1;
        if Stale(p, now) {
          closed := closed + [p.conn];
          PopConserves(before, View());
          continue;
        }
        ghost var popped := View();
        assert popped == before.(backlog := before.backlog[1..]);
        var taken := Offer(p);
        if !taken {
          backlog := [p] + backlog;
          assert backlog == before.backlog;
          break;
        }
        PopConserves(before, View());
      }
    }

    method Suspend()
      modifies this`phase
      ensures View() == Settle(old(View()))
    {
      phase := if |backlog| >= BACKLOG then Full else Ready;
    }

    /** One turn of the acceptor after a connection came in. */
    method Accepted(conn: nat, clock: nat -> nat)
      requires Inv(View()) && phase == Ready
      modifies this, idle, mailbox
      ensures View() == Step(old(View()), Accept(conn, clock)) && Inv(View())
    {
      ghost var before := View();
      AcceptKeepsInv(before, conn, clock);
      AdmitKeeps(before, conn, clock(0));
      accepted := accepted + [conn];
      ghost var known := View();
      var p := Parked(conn, clock(0));
      var taken := Offer(p);
      if !taken {
        backlog := backlog + [p];
      }
      assert View() == Admit(before, conn, clock(0));
      DrainBacklog(clock, 1);
      Suspend();
    }

    /** One turn of the acceptor after a signal, a tick or a pause. */
    method Wake(signal: bool, clock: nat -> nat)
      requires Inv(View()) && (signal ==> freed)
      modifies this, idle, mailbox
      ensures View() == Step(old(View()), Woken(signal, clock)) && Inv(View())
    {
      WokenKeepsInv(View(), signal, clock);
      if signal {
        freed := false;
      }
      DrainBacklog(clock, 0);
      Suspend();
    }

    /** A worker between connections: flag up, signal, then wait for mail. */
    method WorkerRests(w: nat)
      requires Inv(View()) && Enabled(View(), Rest(w))
      modifies this, idle
      ensures View() == Step(old(View()), Rest(w)) && Inv(View())
    {
      ghost var before := View();
      StepKeepsInv(before, Rest(w));
      RestKeepsFlags(before, w);
      if workers[w].Serving? {
        closed := closed + [workers[w].conn];
      }
      workers := workers[w := Waiting];
      idle[w] := true;
      freed := true;
      assert idle[..] == before.idle[w := true];
    }

    method WorkerTakes(w: nat)
      requires Inv(View()) && Enabled(View(), Take(w))
      modifies this`workers, idle, mailbox
      ensures View() == Step(old(View()), Take(w)) && Inv(View())
    {
      ghost var before := View();
      StepKeepsInv(before, Take(w));
      var p := mailbox[w].value;
      mailbox[w] := None;
      idle[w] := false;
      workers := workers[w := Serving(p.conn)];
      assert idle[..] == before.idle[w := false];
      assert mailbox[..] == before.mailbox[w := None];
    }
  }
}
