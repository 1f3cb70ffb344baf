/** The agent's hash of process ids, and what its collisions lead to. */
module PidHashes {
  import opened Arith
  import Proc = ProcHistory
  import Takeover = ProcHistoryTakeover

  function PidHash(pid: int): (i: nat)
    ensures i < Proc.PROC_TRACK
  {
    pid % U32 * 2654435761 % U32 % Proc.PROC_TRACK
  }

  function PidHashing(): (h: Proc.Hash)
    ensures forall p :: h(p) == PidHash(p)
  {
    p => PidHash(p)
  }

  lemma {:induction false} PidHashIs(pid: nat)
    requires pid < U32
    ensures PidHash(pid) == pid * 2654435761 % 64
  {
    RestOfRest(pid * 2654435761, U32, 64, 0x400_0000);
  }

  /** Two pids share a slot if and only if they agree in their low six bits. */
  lemma {:induction false} PidsCollideIff(a: nat, b: nat)
    requires a < U32 && b < U32
    ensures PidHash(a) == PidHash(b) <==> a % 64 == b % 64
  {
    PidHashIs(a);
    PidHashIs(b);
    if a % 64 == b % 64 {
      SameAfterFactor(a, b, 2654435761, 64);
    }
    if PidHash(a) == PidHash(b) {
      InvertibleFactor(a, b, 2654435761, 17, 64, 705084499);
    }
  }

  /** So every multiple of 64 is sent to slot 0. */
  lemma {:induction false} MultiplesCollide(n: nat)
    requires 64 * n < U32
    ensures PidHash(64 * n) == 0
  {
    TurnsDropped(0, 64, n);
    PidsCollideIff(64 * n, 0);
  }

  function Multiples(): (pids: seq<int>)
    ensures |pids| == 65 && forall i :: 0 <= i < 65 ==> pids[i] == 64 * (i + 1)
  {
    seq(65, i => 64 * (i + 1))
  }

  lemma {:induction false} MultiplesCrowd()
    ensures Proc.Crowd(PidHashing(), 0, Multiples())
  {
    forall i | 0 <= i < 65 ensures PidHashing()(Multiples()[i]) == 0 {
      MultiplesCollide(i + 1);
    }
  }

  /** With the agent's own hash: processes 64, 128, ..., 4160 bring the table to the point where one of 64 live
      processes reads another's ticks. */
  lemma {:induction false} PidHashExhaustsTheTable(alive: set<int>)
    requires Proc.OthersLive(Multiples(), alive)
    ensures var t := Proc.Run(PidHashing(), seq(Proc.PROC_TRACK, _ => Proc.EMPTY),
                              Proc.ExhaustingRun(Multiples(), alive));
            Proc.Full(t, 4160) && Proc.Previous(PidHashing(), t, 4160) == 100
  {
    MultiplesCrowd();
    Proc.DuplicatesExhaustTheTable(PidHashing(), 0, Multiples(), alive);
  }

  /** And to the point where process 4096 owns every slot, and any other process reads its ticks. */
  lemma {:induction false} PidHashHandsTheTableOver(pid: int)
    requires pid != 0 && pid != 4096
    ensures var t := Proc.Run(PidHashing(), seq(Proc.PROC_TRACK, _ => Proc.EMPTY), Takeover.OwningRun(Multiples()));
            Takeover.Owns(4096, t) && Proc.Full(t, pid) && Proc.Previous(PidHashing(), t, pid) > 0
  {
    MultiplesCrowd();
    Takeover.TwoProcessesExhaustTheTable(PidHashing(), 0, Multiples(), pid);
  }
}
