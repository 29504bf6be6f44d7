/**
 * Several processes running `Dataset.lock` against one persisted record,
 * interleaved step by step. Only the lock fields of the record matter here.
 *
 * The protocol as written (lines 107-134 of panda/models/dataset.py) is a
 * read, a write and a second read. The second read only checks that the
 * token read back is the writer's own; a process that read "unlocked" before
 * another process wrote can still write afterwards, overwrite the first
 * winner's token, read it back and win as well.
 *
 * The intended guarantee (at most one holder) is met by a single atomic
 * compare-and-set, modelled and proved below.
 */
module LockRace {
  import opened Basics

  /** The persisted lock fields: `locked` and the token in `locked_at`. */
  datatype Record = Record(locked: bool, lockedAt: Option<nat>)

  /** Where a process is in the protocol. */
  datatype Phase = Idle | Checked | Wrote | Won | Lost

  datatype System = System(store: Record, phases: seq<Phase>)

  /** The process has left the protocol, holding the lock or refused. */
  predicate Finished(ph: Phase) {
    ph.Won? || ph.Lost?
  }

  /** The token process `p` writes; distinct processes write distinct tokens. */
  function Token(p: nat): nat {
    p + 1
  }

  function Start(processes: nat): System {
    System(Record(false, None), seq(processes, _ => Idle))
  }

  // ---------------------------------------------------------------------------
  // The protocol as written
  // ---------------------------------------------------------------------------

  /** One atomic step of process `p`: the first read (lines 112-118), the
      write (lines 120-125) or the second read (lines 128-134). */
  function Step(sys: System, p: nat): (r: System)
    ensures |r.phases| == |sys.phases|
    ensures forall q :: 0 <= q < |sys.phases| && q != p ==> r.phases[q] == sys.phases[q]
    ensures p < |sys.phases| && Finished(sys.phases[p]) ==> r == sys
    ensures r.store != sys.store ==>
              p < |sys.phases| && sys.phases[p] == Checked && r.store == Record(true, Some(Token(p)))
    ensures p < |sys.phases| && sys.phases[p] != Won && r.phases[p] == Won ==>
              sys.phases[p] == Wrote && sys.store.lockedAt == Some(Token(p))
  {
    if p >= |sys.phases| then sys
    else
      match sys.phases[p]
      case Idle =>
        if sys.store.locked then sys.(phases := sys.phases[p := Lost])
        else sys.(phases := sys.phases[p := Checked])
      case Checked =>
        System(Record(true, Some(Token(p))), sys.phases[p := Wrote])
      case Wrote =>
        if sys.store.lockedAt != Some(Token(p)) then sys.(phases := sys.phases[p := Lost])
        else sys.(phases := sys.phases[p := Won])
      case _ => sys
  }

  /** Runs the processes in the order the schedule names them. A process the
      schedule never names stays where it was, and a finished one stays finished. */
  function Run(sys: System, schedule: seq<nat>): (r: System)
    ensures |r.phases| == |sys.phases|
    ensures forall i :: 0 <= i < |sys.phases| && i !in schedule ==> r.phases[i] == sys.phases[i]
    ensures forall i :: 0 <= i < |sys.phases| && Finished(sys.phases[i]) ==> r.phases[i] == sys.phases[i]
    decreases |schedule|
  {
    if |schedule| == 0 then sys else Run(Step(sys, schedule[0]), schedule[1..])
  }

  /** Both processes read "unlocked" before either writes; the first writes and
      confirms its token, then the second writes and confirms its own.
      Both believe they hold the lock. */
  lemma TwoProcessesBothAcquire()
    ensures Run(Start(2), [0, 1, 0, 0, 1, 1]).phases == [Won, Won]
  {
    var s0 := Start(2);
    assert s0.phases == [Idle, Idle];
    var s1 := Step(s0, 0);
    assert s1.phases == [Checked, Idle];
    var s2 := Step(s1, 1);
    assert s2.phases == [Checked, Checked];
    var s3 := Step(s2, 0);
    assert s3 == System(Record(true, Some(1)), [Wrote, Checked]);
    var s4 := Step(s3, 0);
    assert s4.phases == [Won, Checked];
    var s5 := Step(s4, 1);
    assert s5 == System(Record(true, Some(2)), [Won, Wrote]);
    var s6 := Step(s5, 1);
    assert s6.phases == [Won, Won];
    assert Run(s5, [1]) == s6;
    assert Run(s4, [1, 1]) == Run(s5, [1]);
    assert Run(s3, [0, 1, 1]) == Run(s4, [1, 1]);
    assert Run(s2, [0, 0, 1, 1]) == Run(s3, [0, 1, 1]);
    assert Run(s1, [1, 0, 0, 1, 1]) == Run(s2, [0, 0, 1, 1]);
    assert Run(s0, [0, 1, 0, 0, 1, 1]) == Run(s1, [1, 0, 0, 1, 1]);
  }

  /** Without interleaving the protocol works: the process that runs first
      wins and the one that runs after it is refused at its first read. */
  lemma SequentialProcessesOneWinner()
    ensures Run(Start(2), [0, 0, 0, 1]).phases == [Won, Lost]
  {
    var s0 := Start(2);
    assert s0.phases == [Idle, Idle];
    var s1 := Step(s0, 0);
    assert s1.phases == [Checked, Idle];
    var s2 := Step(s1, 0);
    assert s2 == System(Record(true, Some(1)), [Wrote, Idle]);
    var s3 := Step(s2, 0);
    assert s3.phases == [Won, Idle];
    var s4 := Step(s3, 1);
    assert s4.phases == [Won, Lost];
    assert Run(s3, [1]) == s4;
    assert Run(s2, [0, 1]) == Run(s3, [1]);
    assert Run(s1, [0, 0, 1]) == Run(s2, [0, 1]);
    assert Run(s0, [0, 0, 0, 1]) == Run(s1, [0, 0, 1]);
  }

  // ---------------------------------------------------------------------------
  // Corrected: one atomic compare-and-set
  // ---------------------------------------------------------------------------

  /** Acquire in one atomic step: lock with the own token if unlocked, else refuse. */
  function CasStep(sys: System, p: nat): (r: System)
    ensures |r.phases| == |sys.phases|
    ensures forall q :: 0 <= q < |sys.phases| && q != p ==> r.phases[q] == sys.phases[q]
    ensures p < |sys.phases| && Finished(sys.phases[p]) ==> r == sys
    ensures r.store != sys.store ==>
              p < |sys.phases| && !sys.store.locked && r.store == Record(true, Some(Token(p))) && r.phases[p] == Won
  {
    if p >= |sys.phases| then sys
    else
      match sys.phases[p]
      case Idle =>
        if sys.store.locked then sys.(phases := sys.phases[p := Lost])
        else System(Record(true, Some(Token(p))), sys.phases[p := Won])
      case _ => sys
  }

  function CasRun(sys: System, schedule: seq<nat>): (r: System)
    ensures |r.phases| == |sys.phases|
    ensures forall i :: 0 <= i < |sys.phases| && i !in schedule ==> r.phases[i] == sys.phases[i]
    ensures forall i :: 0 <= i < |sys.phases| && Finished(sys.phases[i]) ==> r.phases[i] == sys.phases[i]
    decreases |schedule|
  {
    if |schedule| == 0 then sys else CasRun(CasStep(sys, schedule[0]), schedule[1..])
  }

  ghost predicate AtMostOneWinner(phases: seq<Phase>) {
    forall i, j :: 0 <= i < |phases| && 0 <= j < |phases| && phases[i] == Won && phases[j] == Won ==> i == j
  }

  /** Every winner's token is the one on record. */
  ghost predicate WinnerOnRecord(sys: System) {
    forall i :: 0 <= i < |sys.phases| && sys.phases[i] == Won ==>
      sys.store.locked && sys.store.lockedAt == Some(Token(i))
  }

  /** Whatever the interleaving, the compare-and-set lock has at most one
      holder, and it is the one on record. */
  lemma {:induction false} CasAtMostOneWinner(sys: System, schedule: seq<nat>)
    requires WinnerOnRecord(sys)
    ensures WinnerOnRecord(CasRun(sys, schedule))
    ensures AtMostOneWinner(CasRun(sys, schedule).phases)
    decreases |schedule|
  {
    if |schedule| == 0 {
    } else {
      var next := CasStep(sys, schedule[0]);
      assert WinnerOnRecord(next);
      CasAtMostOneWinner(next, schedule[1..]);
    }
  }

  /** From an unlocked record, the first process to move wins and keeps winning. */
  lemma {:induction false} CasFirstMoverWins(processes: nat, schedule: seq<nat>)
    requires |schedule| > 0 && schedule[0] < processes
    ensures CasRun(Start(processes), schedule).phases[schedule[0]] == Won
  {
    var first := CasStep(Start(processes), schedule[0]);
    assert first.phases[schedule[0]] == Won;
    CasKeepsWinner(first, schedule[1..], schedule[0]);
  }

  lemma {:induction false} CasKeepsWinner(sys: System, schedule: seq<nat>, w: nat)
    requires w < |sys.phases| && sys.phases[w] == Won
    ensures CasRun(sys, schedule).phases[w] == Won
    decreases |schedule|
  {
    if |schedule| > 0 {
      CasKeepsWinner(CasStep(sys, schedule[0]), schedule[1..], w);
    }
  }
}
