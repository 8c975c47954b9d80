/** Recovery gets there: a pending logout can always be completed. */
module LogoutProgress {
  import opened Common
  import opened Accounts
  import opened LogoutGrants
  import opened LogoutProtocol
  import opened LogoutSafety
  import RevocationPool

  lemma {:induction false} RunHead(s: World, e: LogoutEvent, rest: seq<LogoutEvent>)
    ensures Run(s, [e] + rest) == Run(Advance(s, e), rest)
    decreases |rest|
  {
    if rest == [] {
      assert [e] + rest == [e] && [e][..0] == [];
      assert Run(s, []) == s;
    } else {
      var n := |rest| - 1;
      RunHead(s, e, rest[..n]);
      assert ([e] + rest)[..n + 1] == [e] + rest[..n];
    }
  }

  /** The worker has this grant in hand, in this phase, with these sessions revoked. */
  ghost predicate Holds(s: World, w: nat, id: Uuid, phase: Phase, done: set<Sid>) {
    && w in s.workers && s.workers[w].grant == id && s.workers[w].phase == phase && s.workers[w].done == done && !s.workers[w].cancelled
    && id in s.grants && s.grants[id].completedAt == None && s.workers[w].sids == s.grants[id].activeSids
  }

  lemma RecoveryClaims(s: World, id: Uuid, w: nat, now: Time)
    requires w !in s.workers && id in s.grants && Recoverable(s.grants[id], now) && now >= s.clock
    ensures var t := Advance(s, ClaimAbandoned(w, id, s.grants.Keys - {id}, now));
      Holds(t, w, id, EndBrowsers, {}) && t.clock == now && t.grants[id].claimedUntil == Some(now + 30 * SECOND)
  {
    assert NextToRecover(s.grants, s.grants.Keys - {id}, now, id);
  }

  lemma RecoveryEndsBrowsers(s: World, id: Uuid, w: nat, now: Time)
    requires Holds(s, w, id, EndBrowsers, {}) && s.clock == now
    ensures var t := Advance(s, WorkerEndsBrowsers(w, true, now)); Holds(t, w, id, RevokeSids, {}) && t.clock == now
  {
  }

  /** Every session of the snapshot can be revoked in turn. */
  lemma {:induction false} RecoveryRevokes(s: World, id: Uuid, w: nat, done: set<Sid>, left: set<Sid>) returns (events: seq<LogoutEvent>)
    requires Holds(s, w, id, RevokeSids, done) && done + left == s.workers[w].sids
    ensures var t := Run(s, events); Holds(t, w, id, RevokeSids, s.workers[w].sids) && t.clock == s.clock && t.workers[w].sids == s.workers[w].sids
    decreases |left|
  {
    if left == {} {
      events := [];
      assert done == s.workers[w].sids;
    } else {
      var sid :| sid in left;
      var next := Advance(s, WorkerRevokes(w, sid));
      assert Holds(next, w, id, RevokeSids, done + {sid});
      assert done + {sid} + (left - {sid}) == done + left;
      var rest := RecoveryRevokes(next, id, w, done + {sid}, left - {sid});
      RunHead(s, WorkerRevokes(w, sid), rest);
      events := [WorkerRevokes(w, sid)] + rest;
    }
  }

  /** The elements of a set, listed. */
  lemma {:induction false} Listing(sids: set<Sid>) returns (listed: seq<Sid>)
    ensures (set sid | sid in listed) == sids
    decreases |sids|
  {
    if sids == {} {
      listed := [];
    } else {
      var sid :| sid in sids;
      var rest := Listing(sids - {sid});
      listed := [sid] + rest;
      assert forall x :: x in listed <==> x == sid || x in rest;
      assert forall x :: x in rest <==> x in sids - {sid};
    }
  }

  lemma RecoveryCompletes(s: World, id: Uuid, w: nat, now: Time) returns (events: seq<LogoutEvent>)
    requires w in s.workers && Holds(s, w, id, RevokeSids, s.workers[w].sids) && s.clock == now
    ensures var t := Run(s, events); id in t.grants && t.grants[id].completedAt == Some(now) && id in t.completions
  {
    var listed := Listing(s.workers[w].sids);
    var pool := RevocationPool.PoolCanSucceed(listed, {}, s.workers[w].sids);
    var returns', completes := WorkerPoolReturns(w, listed, pool, true), WorkerCompletes(w, now);
    assert Holds(Advance(s, returns'), w, id, MarkComplete, s.workers[w].sids);
    RunHead(s, returns', [completes]);
    RunHead(Advance(s, returns'), completes, []);
    assert [returns'] + [completes] == [returns', completes] && [completes] + [] == [completes];
    events := [returns', completes];
  }

  /** From any state a run reaches, a logout that is stored and not complete can be completed,
      by one recovery worker and a provider that answers, at any moment from five minutes after
      its row last changed. */
  lemma {:induction false} PendingLogoutCanComplete(s: World, history: seq<LogoutEvent>, id: Uuid, w: nat, now: Time) returns (events: seq<LogoutEvent>)
    requires Initial(s) && id in Run(s, history).grants && Run(s, history).grants[id].completedAt == None
    requires w !in Run(s, history).workers && now >= Run(s, history).clock
    requires id in Run(s, history).touched && now >= Run(s, history).touched[id] + 5 * MINUTE
    ensures var t := Run(Run(s, history), events); id in t.grants && t.grants[id].completedAt == Some(now) && id in t.completions
  {
    var s0 := Run(s, history);
    EveryRunKeepsInv(s, history);
    RecoveryClaims(s0, id, w, now);
    var claim := ClaimAbandoned(w, id, s0.grants.Keys - {id}, now);
    var s1 := Advance(s0, claim);
    RecoveryEndsBrowsers(s1, id, w, now);
    var ends := WorkerEndsBrowsers(w, true, now);
    var s2 := Advance(s1, ends);
    var revokes := RecoveryRevokes(s2, id, w, {}, s2.workers[w].sids);
    var finish := RecoveryCompletes(Run(s2, revokes), id, w, now);
    RunAppend(s2, revokes, finish);
    RunHead(s1, ends, revokes + finish);
    RunHead(s0, claim, [ends] + (revokes + finish));
    events := [claim] + ([ends] + (revokes + finish));
  }

  lemma {:induction false} RunAppend(s: World, first: seq<LogoutEvent>, second: seq<LogoutEvent>)
    ensures Run(s, first + second) == Run(Run(s, first), second)
    decreases |second|
  {
    if second == [] {
      assert first + second == first;
    } else {
      var n := |second| - 1;
      RunAppend(s, first, second[..n]);
      assert (first + second)[..|first| + n] == first + second[..n];
    }
  }
}
