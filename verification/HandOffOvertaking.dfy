/** A run in which a newcomer is served while an earlier connection still waits. */
module HandOffOvertaking {
  import opened Common
  import opened HandOff
  import opened HandOffRuns

  /** All of it happens at one instant. */
  const STILL: nat -> nat := (n: nat) => 0

  function Rests(k: nat): seq<Move> {
    if k == 0 then [] else Rests(k - 1) + [Rest(k - 1)]
  }

  /** All workers rest, then connections 0 to k - 1 come in. */
  function Accepts(k: nat): seq<Move> {
    if k == 0 then Rests(WORKERS) else Accepts(k - 1) + [Accept(k - 1, STILL)]
  }

  /** The first k workers wait. */
  function Rested(k: nat): State {
    State(seq(WORKERS, i => if i < k then Waiting else New), seq(WORKERS, i => i < k), seq(WORKERS, i => None),
          [], 0, k > 0, Ready, [], [])
  }

  /** All workers wait and the first k have mail. */
  function Filled(k: nat): State
    requires k <= WORKERS
  {
    State(seq(WORKERS, i => Waiting), seq(WORKERS, i => i >= k), seq(WORKERS, i => if 0 <= i < k then Some(Parked(i, 0)) else None),
          [], if k == WORKERS then 0 else k, true, Ready, seq(k, i => i), [])
  }

  lemma Extend(moves: seq<Move>, s: State, m: Move, next: State)
    requires Reaches(moves, s) && Sized(s) && Enabled(s, m) && next == Step(s, m)
    ensures Reaches(moves + [m], next)
  {
    assert (moves + [m])[..|moves|] == moves;
  }

  lemma {:induction false} AllRest(k: nat)
    requires k <= WORKERS
    ensures Reaches(Rests(k), Rested(k))
  {
    if k == 0 {
      assert Rested(0).workers == Start().workers && Rested(0).idle == Start().idle;
    } else {
      AllRest(k - 1);
      var before, after := Rested(k - 1), Rested(k);
      assert after.workers == before.workers[k - 1 := Waiting];
      assert after.idle == before.idle[k - 1 := true];
      Extend(Rests(k - 1), before, Rest(k - 1), after);
    }
  }

  lemma FilledPick(k: nat)
    requires k <= WORKERS
    ensures Pick(Filled(k).idle, Filled(k).next, WORKERS) == if k == WORKERS then None else Some(k)
  {
    if k == WORKERS {
      PickNearest(Filled(k).idle, 0, WORKERS);
    }
  }

  lemma FillOne(k: nat)
    requires k < WORKERS
    ensures Step(Filled(k), Accept(k, STILL)) == Filled(k + 1)
  {
    FilledPick(k);
    var before, after := Filled(k), Filled(k + 1);
    assert after.idle == before.idle[k := false];
    assert after.mailbox == before.mailbox[k := Some(Parked(k, 0))];
    assert after.accepted == before.accepted + [k];
  }

  lemma {:induction false} AllFilled(k: nat)
    requires k <= WORKERS
    ensures Reaches(Accepts(k), Filled(k))
  {
    hide Pick, Step;
    if k == 0 {
      AllRest(WORKERS);
      assert Rested(WORKERS).workers == Filled(0).workers;
      assert Rested(WORKERS).idle == Filled(0).idle;
      assert Rested(WORKERS).mailbox == Filled(0).mailbox;
      assert Filled(0).accepted == [];
    } else {
      AllFilled(k - 1);
      FillOne(k - 1);
      Extend(Accepts(k - 1), Filled(k - 1), Accept(k - 1, STILL), Filled(k));
    }
  }

  /** Every worker has mail, and one connection waits. */
  function Crowded(): State {
    Filled(WORKERS).(backlog := [Parked(8, 0)], accepted := Filled(WORKERS).accepted + [8])
  }

  lemma NinthWaits()
    ensures Step(Filled(WORKERS), Accept(8, STILL)) == Crowded()
  {
    FilledPick(WORKERS);
    var s := Filled(WORKERS);
    var known := s.(accepted := s.accepted + [8]);
    assert Admit(s, 8, 0) == Crowded();
    var rest := Crowded().(backlog := Crowded().backlog[1..]);
    assert Give(rest, Parked(8, 0)).None?;
  }

  /** The first worker took its mail, served it and waits again. */
  function Freed(): State {
    var s := Crowded();
    s.(mailbox := s.mailbox[0 := None], idle := s.idle[0 := true], closed := [0])
  }

  lemma FirstComesBack()
    ensures Step(Crowded(), Take(0)) == Crowded().(workers := Crowded().workers[0 := Serving(0)], mailbox := Crowded().mailbox[0 := None])
    ensures Step(Step(Crowded(), Take(0)), Rest(0)) == Freed()
  {
    var s := Crowded();
    assert s.idle[0 := false] == s.idle;
    assert s.workers[0 := Serving(0)][0 := Waiting] == s.workers;
    assert [] + [0] == [0];
  }

  /** The newcomer went straight to the worker that became free. */
  function Overtaken(): State {
    var s := Freed();
    s.(mailbox := s.mailbox[0 := Some(Parked(9, 0))], idle := s.idle[0 := false], next := 1, accepted := s.accepted + [9])
  }

  lemma TenthIsTaken()
    ensures Step(Freed(), Accept(9, STILL)) == Overtaken()
  {
    var s := Freed();
    assert Pick(s.idle, 0, WORKERS) == Some(0);
    var given := Admit(s, 9, 0);
    assert given == Overtaken();
    PickNearest(given.idle, given.next, WORKERS);
    assert forall j :: 0 <= j < WORKERS ==> !given.idle[j];
    assert Drain(given, STILL, 1) == given;
  }

  function OvertakingRun(): seq<Move> {
    Accepts(WORKERS) + [Accept(8, STILL)] + [Take(0)] + [Rest(0)]
  }

  /**
   * Eight workers rest, nine connections come in, the first is served and its worker waits again. Then
   * the ninth connection waits beside an idle worker, and a tenth that comes in goes to that worker while
   * the ninth still waits.
   */
  lemma OvertakingHappens()
    ensures Reaches(OvertakingRun(), Freed()) && Freed().phase == Ready && SomeIdle(Freed())
    ensures Freed().backlog == [Parked(8, 0)]
    ensures Reaches(OvertakingRun() + [Accept(9, STILL)], Overtaken())
    ensures Overtaken().backlog == [Parked(8, 0)] && Overtaken().mailbox[0] == Some(Parked(9, 0))
  {
    hide Step, Pick, Give, Reaches, Accepts;
    AllFilled(WORKERS);
    NinthWaits();
    var full := Accepts(WORKERS) + [Accept(8, STILL)];
    Extend(Accepts(WORKERS), Filled(WORKERS), Accept(8, STILL), Crowded());
    FirstComesBack();
    var serving := Step(Crowded(), Take(0));
    Extend(full, Crowded(), Take(0), serving);
    Extend(full + [Take(0)], serving, Rest(0), Freed());
    TenthIsTaken();
    Extend(OvertakingRun(), Freed(), Accept(9, STILL), Overtaken());
    assert Freed().idle[0];
  }
}
