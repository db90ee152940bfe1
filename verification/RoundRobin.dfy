// The scheduling decision on its own: which slot runs next.

module RoundRobin {
  import opened Options

  const NPROC := 4

  datatype PState = EMPTY | READY | WAITING

  /** The first READY slot among cur + off, cur + off + 1, ..., cur + NPROC. */
  function PickFrom(states: seq<PState>, cur: nat, off: nat): Option<nat>
    requires |states| == NPROC
    decreases NPROC + 1 - off
  {
    if off > NPROC then None
    else if states[(cur + off) % NPROC] == READY then Some((cur + off) % NPROC)
    else PickFrom(states, cur, off + 1)
  }

  function Pick(states: seq<PState>, cur: nat): Option<nat>
    requires |states| == NPROC
  {
    PickFrom(states, cur, 1)
  }

  /** The lowest READY slot, as the idle loop chooses. */
  function FirstReady(states: seq<PState>, from: nat): Option<nat>
    requires |states| == NPROC
    decreases NPROC - from
  {
    if from >= NPROC then None else if states[from] == READY then Some(from) else FirstReady(states, from + 1)
  }

  /** Distance of slot p ahead of slot cur, counted 1..NPROC around the table. */
  function Ahead(cur: nat, p: nat): nat
    requires cur < NPROC && p < NPROC
  {
    if p > cur then p - cur else p + NPROC - cur
  }

  /** Pick returns the nearest READY slot ahead, the current one last; None means no slot is READY. */
  lemma PickNearest(states: seq<PState>, cur: nat)
    requires |states| == NPROC && cur < NPROC
    ensures Pick(states, cur) == None <==> forall p | 0 <= p < NPROC :: states[p] != READY
    ensures Pick(states, cur).Some? ==>
              && var n := Pick(states, cur).value;
              && n < NPROC && states[n] == READY
              && forall p | 0 <= p < NPROC && states[p] == READY :: Ahead(cur, n) <= Ahead(cur, p)
  {
    assert PickFrom(states, cur, 1) ==
      if states[(cur + 1) % NPROC] == READY then Some((cur + 1) % NPROC)
      else if states[(cur + 2) % NPROC] == READY then Some((cur + 2) % NPROC)
      else if states[(cur + 3) % NPROC] == READY then Some((cur + 3) % NPROC)
      else if states[(cur + 4) % NPROC] == READY then Some((cur + 4) % NPROC)
      else None by {
      assert PickFrom(states, cur, 5) == None;
      assert PickFrom(states, cur, 3) == if states[(cur + 3) % NPROC] == READY then Some((cur + 3) % NPROC) else PickFrom(states, cur, 4);
    }
  }

  // ---- Fairness over runs ---------------------------------------------------

  /** A run of schedule calls: slot states at each call (anything may change them between calls). */
  ghost predicate IsRun(states: seq<seq<PState>>, curs: seq<nat>) {
    && |curs| == |states| + 1
    && (forall t | 0 <= t < |curs| :: curs[t] < NPROC)
    && forall t | 0 <= t < |states| :: |states[t]| == NPROC && Pick(states[t], curs[t]) == Some(curs[t + 1])
  }

  /** While p stays READY and undispatched, every call brings the choice closer to p. */
  lemma {:induction false} Closer(states: seq<seq<PState>>, curs: seq<nat>, p: nat, t: nat)
    requires IsRun(states, curs) && p < NPROC && t <= |states|
    requires forall k | 0 <= k < t :: states[k][p] == READY && curs[k + 1] != p
    ensures Ahead(curs[t], p) + t <= Ahead(curs[0], p) || t == 0
    ensures forall k | 0 <= k <= t :: Ahead(curs[t], p) <= Ahead(curs[k], p)
    ensures forall k | 0 <= k < t :: Ahead(curs[t], p) < Ahead(curs[k], p)
  {
    if t > 0 {
      Closer(states, curs, p, t - 1);
      PickNearest(states[t - 1], curs[t - 1]);
      assert states[t - 1][p] == READY;
      assert curs[t] != p;
    }
  }

  /** A process that stays READY is dispatched within NPROC schedule calls. */
  lemma DispatchedWithinNproc(states: seq<seq<PState>>, curs: seq<nat>, p: nat)
    requires IsRun(states, curs) && |states| >= NPROC && p < NPROC
    requires forall k | 0 <= k < NPROC :: states[k][p] == READY
    ensures exists t :: 1 <= t <= NPROC && curs[t] == p
  {
    if forall t | 1 <= t <= NPROC :: curs[t] != p {
      Closer(states, curs, p, NPROC);
    }
  }

  /** Until then no other slot is chosen twice. */
  lemma ChosenAtMostOnce(states: seq<seq<PState>>, curs: seq<nat>, p: nat, a: nat, b: nat)
    requires IsRun(states, curs) && p < NPROC && 1 <= a < b <= |states|
    requires forall k | 0 <= k < b :: states[k][p] == READY && curs[k + 1] != p
    ensures curs[a] != curs[b]
  {
    Closer(states, curs, p, b);
  }
}
