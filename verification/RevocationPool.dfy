/** revokeOtherHydraSessions. */
module RevocationPool {
  import opened Common

  // One sender, up to four workers, an unbuffered channel and a cancellable context, under
  // every interleaving.

  const WORKER_LIMIT: nat := 4

  // ---------------------------------------------------------------- targets

  /** The sessions to revoke, in order: those listed and not excluded. An empty
      identifier excludes nothing. */
  function Targets(listed: seq<Sid>, excluded: set<Sid>): seq<Sid> {
    if listed == [] then []
    else
      var n := |listed| - 1;
      Targets(listed[..n], excluded) + if listed[n].text != "" && listed[n] in excluded then [] else [listed[n]]
  }

  /** The loops that build the exclusion set and the target list. */
  method SelectTargets(listed: seq<Sid>, preserved: seq<Sid>) returns (targets: seq<Sid>)
    ensures targets == Targets(listed, set s | s in preserved)
  {
    var excluded: set<Sid> := {};
    var i := 0;
    while i < |preserved|
      invariant 0 <= i <= |preserved|
      invariant excluded == set s | s in preserved[..i] && s.text != ""
    {
      if preserved[i].text != "" {
        excluded := excluded + {preserved[i]};
      }
      assert preserved[..i + 1] == preserved[..i] + [preserved[i]];
      i := i + 1;
    }
    assert preserved[..i] == preserved;
    targets := [];
    i := 0;
    while i < |listed|
      invariant 0 <= i <= |listed|
      invariant targets == Targets(listed[..i], set s | s in preserved)
    {
      assert listed[..i + 1][..i] == listed[..i];
      if listed[i] !in excluded {
        targets := targets + [listed[i]];
      }
      i := i + 1;
    }
    assert listed[..i] == listed;
  }

  /** A session is a target exactly when it is listed and not excluded, and as often. */
  lemma {:induction false} TargetsAreListedMinusExcluded(listed: seq<Sid>, excluded: set<Sid>, id: Sid)
    ensures id in Targets(listed, excluded) <==> id in listed && (id.text == "" || id !in excluded)
    ensures multiset(Targets(listed, excluded))[id] == if id.text == "" || id !in excluded then multiset(listed)[id] else 0
    decreases |listed|
  {
    if listed != [] {
      var n := |listed| - 1;
      TargetsAreListedMinusExcluded(listed[..n], excluded, id);
      assert listed == listed[..n] + [listed[n]];
    }
  }

  /** Targets come in the order listed. */
  lemma {:induction false} TargetsKeepOrder(first: seq<Sid>, rest: seq<Sid>, excluded: set<Sid>)
    ensures Targets(first + rest, excluded) == Targets(first, excluded) + Targets(rest, excluded)
    decreases |rest|
  {
    if rest == [] {
      assert first + rest == first;
    } else {
      var n := |rest| - 1;
      TargetsKeepOrder(first, rest[..n], excluded);
      assert (first + rest)[..|first + rest| - 1] == first + rest[..n];
    }
  }

  // ---------------------------------------------------------------- the machine

  datatype Worker = Idle | Busy(job: nat) | Exited

  /** Jobs are target positions. `next` is the sender's position, `closed` the channel,
      `cancelled` the revocation context and `parentCancelled` the caller's. */
  datatype Pool = Pool(
    size: nat, next: nat, closed: bool, workers: seq<Worker>,
    cancelled: bool, parentCancelled: bool, failed: set<nat>, revoked: set<nat>, firstError: bool, returned: bool)

  function Start(size: nat): Pool
    requires size > 0
  {
    Pool(size, 0, false, seq(if size < WORKER_LIMIT then size else WORKER_LIMIT, _ => Idle), false, false, {}, {}, false, false)
  }

  datatype Action =
    | HandOver(w: nat)   // the sender and an idle worker meet on the channel
    | StopSending        // the sender sees the context done and closes the channel
    | FinishSending      // the sender has handed over every target and closes the channel
    | Succeed(w: nat)    // a provider call succeeds
    | Fail(w: nat)       // a provider call fails: record the first error, cancel, leave
    | Leave(w: nat)      // an idle worker finds the channel closed
    | CancelParent
    | Return             // every worker has left

  ghost predicate Enabled(p: Pool, a: Action) {
    && !p.returned
    && match a
       case HandOver(w) => !p.closed && p.next < p.size && w < |p.workers| && p.workers[w] == Idle
       case StopSending => !p.closed && p.next < p.size && p.cancelled
       case FinishSending => !p.closed && p.next == p.size
       case Succeed(w) => w < |p.workers| && p.workers[w].Busy?
       case Fail(w) => w < |p.workers| && p.workers[w].Busy?
       case Leave(w) => w < |p.workers| && p.workers[w] == Idle && p.closed
       case CancelParent => !p.parentCancelled
       case Return => p.closed && forall w :: 0 <= w < |p.workers| ==> p.workers[w] == Exited
  }

  ghost function Act(p: Pool, a: Action): Pool
    requires Enabled(p, a)
  {
    match a
    case HandOver(w) => p.(workers := p.workers[w := Busy(p.next)], next := p.next + 1)
    case StopSending => p.(closed := true)
    case FinishSending => p.(closed := true)
    case Succeed(w) => p.(workers := p.workers[w := Idle], revoked := p.revoked + {p.workers[w].job})
    case Fail(w) => p.(workers := p.workers[w := Exited], failed := p.failed + {p.workers[w].job}, firstError := true, cancelled := true)
    case Leave(w) => p.(workers := p.workers[w := Exited])
    case CancelParent => p.(parentCancelled := true, cancelled := true)
    case Return => p.(returned := true)
  }

  /** Where a schedule leads; an action that is not enabled does not happen. */
  ghost function After(size: nat, actions: seq<Action>): Pool
    requires size > 0
  {
    if actions == [] then Start(size)
    else
      var p, a := After(size, actions[..|actions| - 1]), actions[|actions| - 1];
      if Enabled(p, a) then Act(p, a) else p
  }

  // ---------------------------------------------------------------- what every interleaving keeps

  ghost predicate Working(p: Pool, job: nat) {
    exists w :: 0 <= w < |p.workers| && p.workers[w] == Busy(job)
  }

  /** Every job handed over is in exactly one place: with one worker, revoked, or failed;
      no job beyond the sender's position was ever handed over. */
  ghost predicate JobsAccounted(p: Pool) {
    && (forall w :: 0 <= w < |p.workers| && p.workers[w].Busy? ==>
          p.workers[w].job < p.next && p.workers[w].job !in p.revoked && p.workers[w].job !in p.failed)
    && (forall v, w :: 0 <= v < w < |p.workers| && p.workers[v].Busy? && p.workers[w].Busy? ==> p.workers[v].job != p.workers[w].job)
    && p.revoked !! p.failed
    && (forall j :: j in p.revoked || j in p.failed ==> j < p.next)
    && (forall j :: 0 <= j < p.next ==> j in p.revoked || j in p.failed || Working(p, j))
  }

  ghost predicate PoolInv(p: Pool) {
    && 0 < |p.workers| && |p.workers| == (if p.size < WORKER_LIMIT then p.size else WORKER_LIMIT) && p.next <= p.size
    && JobsAccounted(p)
    && (p.firstError <==> p.failed != {})
    && (p.cancelled <==> p.firstError || p.parentCancelled)
    && (p.closed && !p.cancelled ==> p.next == p.size)
    && (!p.closed && !p.firstError ==> forall w :: 0 <= w < |p.workers| ==> p.workers[w] != Exited)
    && (p.returned ==> p.closed && forall w :: 0 <= w < |p.workers| ==> p.workers[w] == Exited)
  }

  lemma ActKeepsJobsAccounted(p: Pool, a: Action)
    requires JobsAccounted(p) && Enabled(p, a)
    ensures JobsAccounted(Act(p, a))
  {
    var q := Act(p, a);
    forall j | 0 <= j < q.next ensures j in q.revoked || j in q.failed || Working(q, j) {
      if a.HandOver? && j == p.next {
        assert q.workers[a.w] == Busy(j);
      } else if Working(p, j) {
        var w :| 0 <= w < |p.workers| && p.workers[w] == Busy(j);
        if q.workers[w] != Busy(j) {
          assert a.Succeed? || a.Fail?;
        }
      }
    }
  }

  lemma ActKeepsPoolInv(p: Pool, a: Action)
    requires PoolInv(p) && Enabled(p, a)
    ensures PoolInv(Act(p, a))
  {
    ActKeepsJobsAccounted(p, a);
  }

  lemma {:induction false} EveryInterleavingKeepsPoolInv(size: nat, actions: seq<Action>)
    requires size > 0
    ensures PoolInv(After(size, actions)) && After(size, actions).size == size
    ensures var n := |After(size, actions).workers|; n <= 4 && n <= size && (n == 4 || n == size)
    decreases |actions|
  {
    if actions != [] {
      var n := |actions| - 1;
      EveryInterleavingKeepsPoolInv(size, actions[..n]);
      if Enabled(After(size, actions[..n]), actions[n]) {
        ActKeepsPoolInv(After(size, actions[..n]), actions[n]);
      }
    }
  }

  ghost predicate AllRevoked(p: Pool) {
    forall j :: 0 <= j < p.size ==> j in p.revoked
  }

  /** The result is an error exactly when some revocation failed. A nil result means that
      every target was revoked exactly when the sender handed over every one; and unless the
      caller cancelled, it always did, so nil means all revoked. */
  lemma ReturnTellsOutcome(size: nat, actions: seq<Action>)
    requires size > 0 && After(size, actions).returned
    ensures var p := After(size, actions);
      && (p.firstError <==> p.failed != {})
      && (!p.firstError ==> (AllRevoked(p) <==> p.next == size))
      && (!p.parentCancelled ==> (!p.firstError <==> AllRevoked(p)))
  {
    EveryInterleavingKeepsPoolInv(size, actions);
    var p := After(size, actions);
    if !p.firstError && p.next == size {
      forall j | 0 <= j < size ensures j in p.revoked { assert !Working(p, j); }
    }
    assert p.next !in p.revoked;
    if p.failed != {} {
      var j :| j in p.failed;
      assert j !in p.revoked;
    }
  }

  // ---------------------------------------------------------------- the call as its callers see it

  /** One call over these sessions that returned nil when `ok`, with `done` at least the
      sessions it revoked, and `cancelled` whenever its caller's context was. A call without
      targets returns at once. */
  ghost predicate Returns(listed: seq<Sid>, excluded: set<Sid>, actions: seq<Action>, ok: bool, done: set<Sid>, cancelled: bool) {
    var ts := Targets(listed, excluded);
    if ts == [] then ok
    else
      var p := After(|ts|, actions);
      && p.returned && ok == !p.firstError && (p.parentCancelled ==> cancelled)
      && forall j :: 0 <= j < |ts| && j in p.revoked ==> ts[j] in done
  }

  /** A nil result under a caller that was not cancelled: every session that is listed and
      not excluded has been revoked. */
  lemma NilMeansAllRevoked(listed: seq<Sid>, excluded: set<Sid>, actions: seq<Action>, done: set<Sid>)
    requires Returns(listed, excluded, actions, true, done, false)
    ensures forall id :: id in listed && (id.text == "" || id !in excluded) ==> id in done
  {
    var ts := Targets(listed, excluded);
    if ts != [] {
      ReturnTellsOutcome(|ts|, actions);
      EveryInterleavingKeepsPoolInv(|ts|, actions);
    }
    forall id | id in listed && (id.text == "" || id !in excluded)
      ensures id in done
    {
      TargetsAreListedMinusExcluded(listed, excluded, id);
      var j :| 0 <= j < |ts| && ts[j] == id;
      assert j in After(|ts|, actions).revoked;
    }
  }

  /** Under a cancelled caller a nil result proves nothing: no target need be revoked. */
  lemma CancelledCallerMayReturnNilUnrevoked()
    ensures var p := After(1, [CancelParent, StopSending, Leave(0), Return]);
      p.returned && !p.firstError && p.revoked == {}
  {
    var script := [CancelParent, StopSending, Leave(0), Return];
    assert script[..3] == [CancelParent, StopSending, Leave(0)] && script[..3][..2] == [CancelParent, StopSending]
        && script[..3][..2][..1] == [CancelParent] && script[..3][..2][..1][..0] == [];
    var s1 := Act(Start(1), CancelParent);
    assert After(1, [CancelParent]) == s1;
    var s2 := Act(s1, StopSending);
    assert After(1, [CancelParent, StopSending]) == s2;
    var s3 := Act(s2, Leave(0));
    assert After(1, [CancelParent, StopSending, Leave(0)]) == s3;
  }

  // ---------------------------------------------------------------- no deadlock, no endless run

  /** Until it returns, the pool can always move, whatever the caller does. */
  lemma PoolNeverDeadlocks(p: Pool) returns (a: Action)
    requires PoolInv(p) && !p.returned
    ensures Enabled(p, a) && !a.CancelParent? && !a.Fail?
  {
    if w :| 0 <= w < |p.workers| && p.workers[w].Busy? {
      return Succeed(w);
    }
    if w :| 0 <= w < |p.workers| && p.workers[w] == Idle {
      if p.closed { return Leave(w); }
      if p.next < p.size { return HandOver(w); }
      return FinishSending;
    }
    assert p.workers[0] == Exited;
    if p.closed { return Return; }
    if p.next < p.size { return StopSending; }
    return FinishSending;
  }

  function WorkerRank(w: Worker): nat {
    match w case Exited => 0 case Idle => 1 case Busy(_) => 2
  }

  function WorkersRank(ws: seq<Worker>): nat {
    if ws == [] then 0 else WorkerRank(ws[0]) + WorkersRank(ws[1..])
  }

  lemma {:induction false} WorkersRankOfUpdate(ws: seq<Worker>, i: nat, w: Worker)
    requires i < |ws|
    ensures WorkersRank(ws[i := w]) == WorkersRank(ws) - WorkerRank(ws[i]) + WorkerRank(w)
    decreases i
  {
    if i == 0 {
      assert ws[i := w][1..] == ws[1..];
    } else {
      WorkersRankOfUpdate(ws[1..], i - 1, w);
      assert ws[i := w][1..] == ws[1..][i - 1 := w];
    }
  }

  function Rank(p: Pool): int {
    2 * (p.size - p.next) + WorkersRank(p.workers)
      + (if p.closed then 0 else 1) + (if p.parentCancelled then 0 else 1) + if p.returned then 0 else 1
  }

  /** Every move uses up rank, so every run ends, and by the above it ends by returning. */
  lemma EveryActionLowersRank(p: Pool, a: Action)
    requires PoolInv(p) && Enabled(p, a)
    ensures 0 <= Rank(Act(p, a)) < Rank(p)
  {
    ActKeepsPoolInv(p, a);
    match a
    case HandOver(w) => WorkersRankOfUpdate(p.workers, w, Busy(p.next));
    case Succeed(w) => WorkersRankOfUpdate(p.workers, w, Idle);
    case Fail(w) => WorkersRankOfUpdate(p.workers, w, Exited);
    case Leave(w) => WorkersRankOfUpdate(p.workers, w, Exited);
    case _ =>
  }

  /** Where a schedule leads from a given state. */
  ghost function Goes(p: Pool, actions: seq<Action>): Pool {
    if actions == [] then p
    else
      var q, a := Goes(p, actions[..|actions| - 1]), actions[|actions| - 1];
      if Enabled(q, a) then Act(q, a) else q
  }

  lemma {:induction false} GoesFromStart(size: nat, actions: seq<Action>)
    requires size > 0
    ensures Goes(Start(size), actions) == After(size, actions)
    decreases |actions|
  {
    if actions != [] {
      GoesFromStart(size, actions[..|actions| - 1]);
    }
  }

  lemma {:induction false} GoesHead(p: Pool, a: Action, rest: seq<Action>)
    requires Enabled(p, a)
    ensures Goes(p, [a] + rest) == Goes(Act(p, a), rest)
    decreases |rest|
  {
    if rest == [] {
      assert [a] + rest == [a] && [a][..0] == [];
      assert Goes(p, []) == p;
    } else {
      var n := |rest| - 1;
      GoesHead(p, a, rest[..n]);
      assert ([a] + rest)[..n + 1] == [a] + rest[..n];
    }
  }

  /** From any state without an error or a cancelled caller, the pool can finish without one. */
  lemma {:induction false} PoolCanFinish(p: Pool) returns (actions: seq<Action>)
    requires PoolInv(p) && !p.firstError && !p.parentCancelled
    ensures var q := Goes(p, actions); q.returned && !q.firstError && !q.parentCancelled
    decreases Rank(p)
  {
    if p.returned {
      actions := [];
    } else {
      var a := PoolNeverDeadlocks(p);
      EveryActionLowersRank(p, a);
      ActKeepsPoolInv(p, a);
      var rest := PoolCanFinish(Act(p, a));
      GoesHead(p, a, rest);
      actions := [a] + rest;
    }
  }

  /** So a call whose provider answers every time revokes every target and returns nil. */
  lemma PoolCanSucceed(listed: seq<Sid>, excluded: set<Sid>, done: set<Sid>) returns (actions: seq<Action>)
    requires forall id :: id in listed ==> id in done
    ensures Returns(listed, excluded, actions, true, done, false)
  {
    var ts := Targets(listed, excluded);
    if ts == [] {
      actions := [];
    } else {
      EveryInterleavingKeepsPoolInv(|ts|, []);
      actions := PoolCanFinish(Start(|ts|));
      GoesFromStart(|ts|, actions);
      forall j | 0 <= j < |ts|
        ensures ts[j] in done
      {
        TargetsAreListedMinusExcluded(listed, excluded, ts[j]);
      }
    }
  }
}
