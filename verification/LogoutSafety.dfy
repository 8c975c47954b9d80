/** What every interleaving of the logout protocol guarantees. */
module LogoutSafety {
  import opened Common
  import opened Accounts
  import opened LogoutGrants
  import opened LogoutProtocol
  import RevocationPool

  // ---------------------------------------------------------------- invariants

  /** Stored rows still hold the snapshot they were created with. */
  ghost predicate SnapshotsKept(s: World) {
    && (forall id :: id in s.births ==> s.births[id].confirmed <= |s.confirmed|)
    && (forall id :: id in s.grants ==>
          && id in s.births && s.grants[id].token == s.births[id].token
          && s.grants[id].activeSids == s.births[id].sids && s.grants[id].activeBrowsers == s.births[id].browsers)
  }

  /** The provider confirmed revoking this session since the grant was created. */
  ghost predicate ConfirmedSince(confirmed: seq<Sid>, from: nat, sid: Sid) {
    exists k :: from <= k < |confirmed| && confirmed[k] == sid
  }

  ghost predicate AllConfirmed(confirmed: seq<Sid>, birth: Birth) {
    forall sid :: sid in birth.sids ==> ConfirmedSince(confirmed, birth.confirmed, sid)
  }

  ghost predicate WorkerOk(s: World, worker: Worker) {
    && worker.grant in s.births
    && worker.sids == s.births[worker.grant].sids && worker.browsers == s.births[worker.grant].browsers
    && (forall sid :: sid in worker.done ==> ConfirmedSince(s.confirmed, s.births[worker.grant].confirmed, sid))
    && (worker.phase == MarkComplete && !worker.cancelled ==> worker.sids <= worker.done)
  }

  ghost predicate WorkersOk(s: World) {
    forall w :: w in s.workers ==> WorkerOk(s, s.workers[w])
  }

  ghost predicate Distinct(ids: seq<Uuid>) {
    forall i, j :: 0 <= i < j < |ids| ==> ids[i] != ids[j]
  }

  /** Each grant is completed at most once, only with every snapshotted session confirmed
      revoked, and a grant that is gone was completed. */
  ghost predicate CompletionsOk(s: World) {
    && Distinct(s.completions)
    && (forall id :: id in s.completions ==> id in s.births && AllConfirmed(s.confirmed, s.births[id]))
    && (forall id :: id in s.grants ==> (s.grants[id].completedAt.Some? <==> id in s.completions))
    && (forall id :: id in s.births && id !in s.grants ==> id in s.completions)
  }

  ghost predicate TimingOk(s: World) {
    forall id :: id in s.grants ==>
      && id in s.touched && s.touched[id] <= s.clock
      && (s.grants[id].completedAt.None? ==>
            && s.grants[id].cleanupAfter <= s.touched[id] + COMPLETION_LIFETIME
            && (s.grants[id].claimedUntil.Some? ==> s.grants[id].claimedUntil.value <= s.touched[id] + CLEANUP_LEASE)
            && (s.grants[id].consumedAt.None? && !s.grants[id].failed ==> s.grants[id].cleanupAfter == s.grants[id].expiresAt))
  }

  ghost predicate Ended(t: Tables, browsers: set<Uuid>) {
    forall b :: b in browsers ==> b in t.sessions && t.sessions[b].revokedAt.Some?
  }

  /** Every snapshotted browser session ended with the snapshot and stays ended. */
  ghost predicate BrowsersEnded(s: World) {
    forall id :: id in s.births ==> Ended(s.tables, s.births[id].browsers)
  }

  ghost predicate Inv(s: World) {
    SnapshotsKept(s) && WorkersOk(s) && CompletionsOk(s) && TimingOk(s) && BrowsersEnded(s)
  }

  // ---------------------------------------------------------------- what one step can do

  /** The four changes a stored, incomplete row can undergo. */
  ghost predicate RowMove(g: Grant, h: Grant, now: Time) {
    && g.completedAt.None?
    && (h == Consumed(g, now) || h == ClaimedGrant(g, now) || h == Completed(g, now)
        || (h == Rescheduled(g, h.cleanupAfter) && h.cleanupAfter <= now + COMPLETION_LIFETIME))
  }

  /** A stored row after a step: as before, changed, or new. */
  ghost predicate RowMoves(s: World, t: World, id: Uuid) {
    if id !in t.grants then id in s.grants ==> s.grants[id].completedAt.Some?
    else if id in s.grants && t.grants[id] == s.grants[id] then
      id in s.touched ==> id in t.touched && (t.touched[id] == s.touched[id] || t.touched[id] == t.clock)
    else
      && id in t.touched && t.touched[id] == t.clock
      && if id in s.grants then RowMove(s.grants[id], t.grants[id], t.clock)
         else
           && id !in s.births && id in t.births && t.births[id] == Birth(t.grants[id].token, t.grants[id].activeSids, t.grants[id].activeBrowsers, |s.confirmed|)
           && t.grants[id].completedAt.None? && t.grants[id].claimedUntil.None?
           && t.grants[id].cleanupAfter == t.grants[id].expiresAt == t.clock + CORRELATION_LIFETIME
  }

  predicate ByWorker(e: LogoutEvent) {
    e.WorkerEndsBrowsers? || e.WorkerRevokes? || e.WorkerPoolReturns? || e.WorkerCancelled? || e.WorkerCompletes?
    || e.WorkerSchedules? || e.WorkerDies?
  }

  lemma RowsMoveByWorker(s: World, e: LogoutEvent, id: Uuid)
    requires ByWorker(e)
    ensures RowMoves(s, Advance(s, e), id) && s.clock <= Advance(s, e).clock
  {
    if Possible(s, e) {
      match e
      case WorkerCompletes(_, _) =>
      case WorkerSchedules(_, _, _) =>
      case _ =>
    }
  }

  lemma RowsMoveOnCreation(s: World, e: LogoutEvent, id: Uuid)
    requires e.CreateLogout?
    ensures RowMoves(s, Advance(s, e), id) && s.clock <= Advance(s, e).clock
  {
  }

  lemma RowsMoveOtherwise(s: World, e: LogoutEvent, id: Uuid)
    requires !ByWorker(e) && !e.CreateLogout?
    ensures RowMoves(s, Advance(s, e), id) && s.clock <= Advance(s, e).clock
  {
    if Possible(s, e) {
      match e
      case Consume(_, _, _, _) =>
      case ClaimAbandoned(_, _, _, _) =>
      case ClaimFinished(_, _, _, _) =>
      case ScheduleRetry(_, _, _) =>
      case _ =>
    }
  }

  lemma RowsMove(s: World, e: LogoutEvent, id: Uuid)
    ensures RowMoves(s, Advance(s, e), id) && s.clock <= Advance(s, e).clock
  {
    if ByWorker(e) {
      RowsMoveByWorker(s, e, id);
    } else if e.CreateLogout? {
      RowsMoveOnCreation(s, e, id);
    } else {
      RowsMoveOtherwise(s, e, id);
    }
  }

  /** A worker after a step: as before, moved on with the same grant, or new. */
  ghost predicate WorkerMoves(s: World, t: World, w: nat) {
    w in t.workers ==>
      var after := t.workers[w];
      if w in s.workers then
        var before := s.workers[w];
        && after == before.(phase := after.phase, done := after.done, cancelled := after.cancelled)
        && (before.cancelled ==> after.cancelled)
        && (after.phase == MarkComplete && !after.cancelled ==> after.sids <= after.done || (before.phase == MarkComplete && after.done == before.done))
        && (after.done == before.done
            || (after.phase != MarkComplete && t.confirmed != [] && |t.confirmed| == |s.confirmed| + 1
                && after.done == before.done + {t.confirmed[|s.confirmed|]}))
      else
        && after.grant in s.grants && after.sids == s.grants[after.grant].activeSids && after.browsers == s.grants[after.grant].activeBrowsers
        && after.done == {} && after.phase != MarkComplete
  }

  lemma WorkersMoveByWorker(s: World, e: LogoutEvent, w: nat)
    requires ByWorker(e)
    ensures WorkerMoves(s, Advance(s, e), w)
  {
    if e.WorkerPoolReturns? {
      WorkersMoveOnReturn(s, e, w);
    } else if e.WorkerCompletes? || e.WorkerSchedules? {
      WorkersMoveAtEnd(s, e, w);
    } else if Possible(s, e) {
      match e
      case WorkerEndsBrowsers(_, _, _) =>
      case WorkerRevokes(_, _) =>
      case WorkerCancelled(_) =>
      case WorkerDies(_) =>
    }
  }

  lemma WorkersMoveAtEnd(s: World, e: LogoutEvent, w: nat)
    requires e.WorkerCompletes? || e.WorkerSchedules?
    ensures WorkerMoves(s, Advance(s, e), w)
  {
  }

  lemma WorkersMoveOnReturn(s: World, e: LogoutEvent, w: nat)
    requires e.WorkerPoolReturns?
    ensures WorkerMoves(s, Advance(s, e), w)
  {
    if Possible(s, e) && e.ok && !s.workers[e.w].cancelled {
      RevocationPool.NilMeansAllRevoked(e.listed, {}, e.pool, s.workers[e.w].done);
    }
  }

  lemma WorkersMoveOtherwise(s: World, e: LogoutEvent, w: nat)
    requires !ByWorker(e)
    ensures WorkerMoves(s, Advance(s, e), w)
  {
    if Possible(s, e) {
      match e
      case ClaimAbandoned(_, _, _, _) =>
      case ClaimFinished(_, _, _, _) =>
      case FinalizeAtOnce(_, _) =>
      case _ =>
    }
  }

  /** The provider's log only grows, and recorded births stay. */
  ghost predicate HistoryGrows(s: World, t: World) {
    && |s.confirmed| <= |t.confirmed| && t.confirmed[..|s.confirmed|] == s.confirmed
    && (forall id :: id in s.births ==> id in t.births && t.births[id] == s.births[id])
    && (forall id :: id in t.births ==> id in s.births || id in t.grants)
  }

  lemma StepGrowsHistory(s: World, e: LogoutEvent)
    ensures HistoryGrows(s, Advance(s, e))
  {
  }

  /** Only a worker ready to mark its grant complete adds a completion, and it is that row
      that becomes complete. */
  ghost predicate CompletionMoves(s: World, t: World) {
    || (t.completions == s.completions
        && forall id :: id in t.grants && t.grants[id].completedAt.Some? ==> id in s.grants && s.grants[id].completedAt.Some?)
    || exists w :: CompletesBy(s, t, w)
  }

  ghost predicate CompletesBy(s: World, t: World, w: nat) {
    && w in s.workers && s.workers[w].phase == MarkComplete && !s.workers[w].cancelled
    && s.workers[w].grant in s.grants && s.grants[s.workers[w].grant].completedAt.None?
    && t.completions == s.completions + [s.workers[w].grant]
    && t.grants == s.grants[s.workers[w].grant := Completed(s.grants[s.workers[w].grant], t.clock)]
    && t.births == s.births
  }

  lemma CompletionsMove(s: World, e: LogoutEvent)
    ensures CompletionMoves(s, Advance(s, e))
  {
    var t := Advance(s, e);
    if t.completions != s.completions {
      assert CompletesBy(s, t, e.w);
    } else {
      forall id | id in t.grants && t.grants[id].completedAt.Some? ensures id in s.grants && s.grants[id].completedAt.Some? {
        CompletedRowsWereCompleted(s, e, id);
      }
    }
  }

  lemma CompletedRowsWereCompleted(s: World, e: LogoutEvent, id: Uuid)
    requires Advance(s, e).completions == s.completions
    requires id in Advance(s, e).grants && Advance(s, e).grants[id].completedAt.Some?
    ensures id in s.grants && s.grants[id].completedAt.Some?
  {
    RowsMove(s, e, id);
  }

  // ---------------------------------------------------------------- steps keep the invariants

  lemma StepKeepsSnapshots(s: World, e: LogoutEvent)
    requires SnapshotsKept(s)
    ensures SnapshotsKept(Advance(s, e))
  {
    var t := Advance(s, e);
    StepGrowsHistory(s, e);
    forall id: Uuid ensures RowMoves(s, t, id) { RowsMove(s, e, id); }
    MovedSnapshotsAreKept(s, t);
  }

  lemma MovedSnapshotsAreKept(s: World, t: World)
    requires SnapshotsKept(s) && HistoryGrows(s, t) && forall id :: RowMoves(s, t, id)
    ensures SnapshotsKept(t)
  {
    forall id | id in t.grants || id in t.births ensures RowMoves(s, t, id) {}
  }

  lemma ConfirmationsStay(before: seq<Sid>, after: seq<Sid>, from: nat, sid: Sid)
    requires |before| <= |after| && after[..|before|] == before && ConfirmedSince(before, from, sid)
    ensures ConfirmedSince(after, from, sid)
  {
  }

  lemma StepKeepsWorkers(s: World, e: LogoutEvent)
    requires SnapshotsKept(s) && WorkersOk(s)
    ensures WorkersOk(Advance(s, e))
  {
    StepGrowsHistory(s, e);
    forall w | w in Advance(s, e).workers ensures WorkerOk(Advance(s, e), Advance(s, e).workers[w]) {
      if ByWorker(e) { WorkersMoveByWorker(s, e, w); } else { WorkersMoveOtherwise(s, e, w); }
      MovedWorkerIsOk(s, Advance(s, e), w);
    }
  }

  lemma MovedWorkerIsOk(s: World, t: World, w: nat)
    requires SnapshotsKept(s) && WorkersOk(s) && HistoryGrows(s, t) && w in t.workers && WorkerMoves(s, t, w)
    ensures WorkerOk(t, t.workers[w])
  {
  }

  lemma StepKeepsCompletions(s: World, e: LogoutEvent)
    requires SnapshotsKept(s) && WorkersOk(s) && CompletionsOk(s)
    ensures CompletionsOk(Advance(s, e))
  {
    var t := Advance(s, e);
    StepGrowsHistory(s, e);
    CompletionsMove(s, e);
    forall id: Uuid ensures RowMoves(s, t, id) { RowsMove(s, e, id); }
    MovedCompletionsAreOk(s, t);
  }

  lemma MovedCompletionsAreOk(s: World, t: World)
    requires SnapshotsKept(s) && WorkersOk(s) && CompletionsOk(s)
    requires HistoryGrows(s, t) && CompletionMoves(s, t) && forall id :: RowMoves(s, t, id)
    ensures CompletionsOk(t)
  {
    if t.completions != s.completions {
      var w :| CompletesBy(s, t, w);
      assert WorkerOk(s, s.workers[w]);
    }
    forall id | id in t.completions ensures id in t.births && AllConfirmed(t.confirmed, t.births[id]) {
      assert id in s.births && AllConfirmed(s.confirmed, s.births[id]);
      forall sid | sid in t.births[id].sids ensures ConfirmedSince(t.confirmed, t.births[id].confirmed, sid) {
        ConfirmationsStay(s.confirmed, t.confirmed, s.births[id].confirmed, sid);
      }
    }
    forall id | id in t.grants ensures t.grants[id].completedAt.Some? <==> id in t.completions {
      assert RowMoves(s, t, id);
    }
    forall id | id in t.births && id !in t.grants ensures id in t.completions {
      assert RowMoves(s, t, id);
    }
  }

  lemma StepKeepsTiming(s: World, e: LogoutEvent)
    requires TimingOk(s)
    ensures TimingOk(Advance(s, e)) && s.clock <= Advance(s, e).clock
  {
    var t := Advance(s, e);
    forall id: Uuid ensures RowMoves(s, t, id) && s.clock <= t.clock { RowsMove(s, e, id); }
    MovedRowsAreTimely(s, t);
  }

  lemma MovedRowsAreTimely(s: World, t: World)
    requires TimingOk(s) && s.clock <= t.clock && forall id :: RowMoves(s, t, id)
    ensures TimingOk(t)
  {
    forall id | id in t.grants ensures RowMoves(s, t, id) {}
  }

  lemma AccountStepsKeepEnded(t: Tables, e: Accounts.Event, browsers: set<Uuid>)
    requires Ended(t, browsers)
    ensures Ended(Accounts.Step(t, e), browsers)
  {
  }

  lemma RevokingKeepsEnded(t: Tables, ids: set<Uuid>, now: Time, browsers: set<Uuid>)
    requires Ended(t, browsers)
    ensures Ended(RevokeAll(t, ids, now), browsers)
  {
  }

  lemma CreationKeepsEnded(s: World, e: LogoutEvent, browsers: set<Uuid>)
    requires Ended(s.tables, browsers) && e.CreateLogout?
    ensures Ended(Advance(s, e).tables, browsers)
  {
    RevokingKeepsEnded(s.tables, UnrevokedOf(s.tables, e.subject), e.now, browsers);
  }

  lemma OtherStepsKeepTables(s: World, e: LogoutEvent)
    requires !e.AccountChange? && !e.CreateLogout? && !e.WorkerEndsBrowsers?
    ensures Advance(s, e).tables == s.tables
  {
  }

  lemma StepKeepsEnded(s: World, e: LogoutEvent, browsers: set<Uuid>)
    requires Ended(s.tables, browsers)
    ensures Ended(Advance(s, e).tables, browsers)
  {
    if e.CreateLogout? {
      CreationKeepsEnded(s, e, browsers);
    } else if e.AccountChange? {
      AccountStepsKeepEnded(s.tables, e.change, browsers);
    } else if e.WorkerEndsBrowsers? {
      if Possible(s, e) {
        RevokingKeepsEnded(s.tables, s.workers[e.w].browsers, e.now, browsers);
      }
    } else {
      OtherStepsKeepTables(s, e);
    }
  }

  lemma StepKeepsBrowsersEnded(s: World, e: LogoutEvent)
    requires BrowsersEnded(s)
    ensures BrowsersEnded(Advance(s, e))
  {
    var t := Advance(s, e);
    StepGrowsHistory(s, e);
    forall id | id in t.births ensures Ended(t.tables, t.births[id].browsers) {
      if id in s.births {
        StepKeepsEnded(s, e, s.births[id].browsers);
      } else {
        SnapshotEndsBrowsers(s, e, id);
      }
    }
  }

  lemma SnapshotEndsBrowsers(s: World, e: LogoutEvent, id: Uuid)
    requires id in Advance(s, e).births && id !in s.births
    ensures Ended(Advance(s, e).tables, Advance(s, e).births[id].browsers)
  {
    assert e.CreateLogout?;
  }

  lemma StepKeepsInv(s: World, e: LogoutEvent)
    requires Inv(s)
    ensures Inv(Advance(s, e))
  {
    StepKeepsSnapshots(s, e);
    StepKeepsWorkers(s, e);
    StepKeepsCompletions(s, e);
    StepKeepsTiming(s, e);
    StepKeepsBrowsersEnded(s, e);
  }

  lemma {:induction false} EveryRunKeepsInv(s: World, events: seq<LogoutEvent>)
    requires Initial(s)
    ensures Inv(Run(s, events))
    decreases |events|
  {
    if events != [] {
      EveryRunKeepsInv(s, events[..|events| - 1]);
      StepKeepsInv(Run(s, events[..|events| - 1]), events[|events| - 1]);
    }
  }

  // ---------------------------------------------------------------- the theorems

  /** In every run a grant is marked complete at most once, and by then the provider has
      confirmed, since the grant was created, the revocation of every session in its snapshot. */
  lemma CompletedOnceAndOnlyAfterRevocation(s: World, events: seq<LogoutEvent>, id: Uuid)
    requires Initial(s) && id in Run(s, events).completions
    ensures var t := Run(s, events);
      && multiset(t.completions)[id] == 1
      && id in t.births && AllConfirmed(t.confirmed, t.births[id])
  {
    EveryRunKeepsInv(s, events);
    DistinctCountsOnce(Run(s, events).completions, id);
  }

  lemma {:induction false} DistinctCountsOnce(ids: seq<Uuid>, id: Uuid)
    requires Distinct(ids)
    ensures multiset(ids)[id] == if id in ids then 1 else 0
    decreases |ids|
  {
    if ids != [] {
      var n := |ids| - 1;
      DistinctCountsOnce(ids[..n], id);
      assert ids == ids[..n] + [ids[n]];
    }
  }

  /** A completed row is never reopened or changed; it can only be deleted, and cleanup
      deletes nothing else. */
  lemma CompletedRowsAreFinal(s: World, e: LogoutEvent, id: Uuid)
    requires id in s.grants
    ensures s.grants[id].completedAt.Some? && id in Advance(s, e).grants ==> Advance(s, e).grants[id] == s.grants[id]
    ensures id !in Advance(s, e).grants ==> e.DeleteCompleted? && s.grants[id].completedAt.Some?
  {
    RowsMove(s, e, id);
    if !e.DeleteCompleted? {
      OtherStepsRemoveNoRow(s, e, id);
    }
  }

  lemma OtherStepsRemoveNoRow(s: World, e: LogoutEvent, id: Uuid)
    requires id in s.grants && !e.DeleteCompleted?
    ensures id in Advance(s, e).grants
  {
  }

  /** No logout is lost: every grant ever created was completed, or is still stored, and
      recovery may lease it at any time from five minutes after its row last changed. */
  lemma {:induction false} NoLogoutIsLost(s: World, events: seq<LogoutEvent>, id: Uuid, later: Time)
    requires Initial(s) && id in Run(s, events).births
    ensures var t := Run(s, events);
      || id in t.completions
      || (id in t.grants && id in t.touched && (later >= t.touched[id] + COMPLETION_LIFETIME ==> Recoverable(t.grants[id], later)))
  {
    EveryRunKeepsInv(s, events);
  }

  /** A row's time of last change is the time of the step that changed it. */
  lemma ChangedRowsAreTouched(s: World, e: LogoutEvent, id: Uuid)
    requires id in Advance(s, e).grants && (id !in s.grants || Advance(s, e).grants[id] != s.grants[id])
    ensures id in Advance(s, e).touched && Advance(s, e).touched[id] == At(s, e)
  {
  }

  /** Whatever recoverable rows exist, exactly one of them is next in line, so a recovery pass
      that meets no locks leases a row whenever any is due. */
  lemma {:induction false} SomeRowIsNext(grants: map<Uuid, Grant>, locked: set<Uuid>, now: Time, due: set<Uuid>) returns (id: Uuid)
    requires due == set x | x in grants && x !in locked && Recoverable(grants[x], now)
    requires due != {}
    ensures NextToRecover(grants, locked, now, id)
    ensures forall other :: NextToRecover(grants, locked, now, other) ==> other == id
  {
    id := LongestWaiting(grants, due);
    forall other | NextToRecover(grants, locked, now, other)
      ensures other == id
    {
      NextIsUnique(grants, locked, now, id, other);
    }
  }

  lemma NextIsUnique(grants: map<Uuid, Grant>, locked: set<Uuid>, now: Time, a: Uuid, b: Uuid)
    requires NextToRecover(grants, locked, now, a) && NextToRecover(grants, locked, now, b)
    ensures a == b
  {
    TextOrderIsTotal(a.text, b.text);
  }

  lemma {:induction false} LongestWaiting(grants: map<Uuid, Grant>, ids: set<Uuid>) returns (id: Uuid)
    requires ids <= grants.Keys && ids != {}
    ensures id in ids && forall other :: other in ids && other != id ==> WaitedLonger(grants, id, other)
    decreases |ids|
  {
    id :| id in ids;
    var rest := ids - {id};
    assert ids == rest + {id};
    if rest != {} {
      var other := LongestWaiting(grants, rest);
      TextOrderIsTotal(id.text, other.text);
      if WaitedLonger(grants, id, other) {
        forall x | x in ids && x != id ensures WaitedLonger(grants, id, x) {
          if x != other && grants[id].cleanupAfter == grants[other].cleanupAfter == grants[x].cleanupAfter {
            TextOrderIsTransitive(id.text, other.text, x.text);
          }
        }
      } else {
        id := other;
      }
    }
  }

  /** Recovery never takes a logout out of its browser's hands: an unconsumed grant that
      never failed cannot be leased while its token is still consumable. */
  lemma {:induction false} RecoveryWaitsForBrowser(s: World, events: seq<LogoutEvent>, id: Uuid, now: Time, subject: Uuid)
    requires Initial(s) && id in Run(s, events).grants
    requires var g := Run(s, events).grants[id]; g.consumedAt.None? && !g.failed
    ensures var g := Run(s, events).grants[id]; !(Recoverable(g, now) && Consumable(g, g.token, subject, now))
  {
    EveryRunKeepsInv(s, events);
  }

  /** Replaying recovery ends no browser session: those of the snapshot already ended with
      it, and no session created later is in it. */
  lemma RecoveryReplayEndsNothing(s: World, events: seq<LogoutEvent>, w: nat, ok: bool, now: Time)
    requires Initial(s)
    ensures Advance(Run(s, events), WorkerEndsBrowsers(w, ok, now)).tables == Run(s, events).tables
  {
    EveryRunKeepsInv(s, events);
    var t := Run(s, events);
    if Possible(t, WorkerEndsBrowsers(w, ok, now)) {
      assert WorkerOk(t, t.workers[w]);
      assert Ended(t.tables, t.workers[w].browsers);
      assert RevokeAll(t.tables, t.workers[w].browsers, now).sessions == t.tables.sessions;
    }
  }

  /** A session created after a snapshot is in none of the snapshots taken before. */
  lemma LaterSessionsAreInNoSnapshot(s: World, events: seq<LogoutEvent>, user: Uuid, id: Uuid, lifetime: Time, now: Time, grant: Uuid)
    requires Initial(s) && grant in Run(s, events).births
    requires Effective(Run(s, events).tables, CreateSession(user, id, lifetime, now))
    ensures id !in Run(s, events).births[grant].browsers
  {
    EveryRunKeepsInv(s, events);
    assert Ended(Run(s, events).tables, Run(s, events).births[grant].browsers);
  }

  // ---------------------------------------------------------------- a token is exchanged once

  /** The token belongs to one grant ever, and that grant's browser has come back. */
  ghost predicate Spent(s: World, id: Uuid, token: string) {
    && id in s.births && s.births[id].token == token
    && (forall other :: other in s.births && other != id ==> s.births[other].token != token)
    && (id in s.grants ==> s.grants[id].consumedAt.Some?)
  }

  /** No two grants ever had the same token. */
  ghost predicate TokensDiffer(s: World) {
    forall a, b :: a in s.births && b in s.births && s.births[a].token == s.births[b].token ==> a == b
  }

  lemma NewTokensAreFresh(s: World, e: LogoutEvent, id: Uuid)
    requires id in Advance(s, e).births && id !in s.births
    ensures forall other :: other in s.births ==> s.births[other].token != Advance(s, e).births[id].token
    ensures forall other :: other in Advance(s, e).births && other !in s.births ==> other == id
  {
    assert e.CreateLogout?;
  }

  lemma StepKeepsTokensDiffer(s: World, e: LogoutEvent)
    requires TokensDiffer(s)
    ensures TokensDiffer(Advance(s, e))
  {
    var t := Advance(s, e);
    StepGrowsHistory(s, e);
    forall a, b | a in t.births && b in t.births && t.births[a].token == t.births[b].token
      ensures a == b
    {
      if a !in s.births {
        NewTokensAreFresh(s, e, a);
      } else if b !in s.births {
        NewTokensAreFresh(s, e, b);
      }
    }
  }

  /** Births a step adds have a token no grant had before. */
  ghost predicate FreshBirths(s: World, t: World) {
    forall id, other :: id in t.births && id !in s.births && other in s.births ==> s.births[other].token != t.births[id].token
  }

  lemma StepBirthsAreFresh(s: World, e: LogoutEvent)
    ensures FreshBirths(s, Advance(s, e))
  {
    forall id | id in Advance(s, e).births && id !in s.births
      ensures forall other :: other in s.births ==> s.births[other].token != Advance(s, e).births[id].token
    {
      NewTokensAreFresh(s, e, id);
    }
  }

  lemma MovedSpentIsSpent(s: World, t: World, id: Uuid, token: string)
    requires Spent(s, id, token) && HistoryGrows(s, t) && RowMoves(s, t, id) && FreshBirths(s, t)
    ensures Spent(t, id, token)
  {
  }

  lemma StepKeepsSpent(s: World, e: LogoutEvent, id: Uuid, token: string)
    requires Spent(s, id, token)
    ensures Spent(Advance(s, e), id, token)
  {
    StepGrowsHistory(s, e);
    RowsMove(s, e, id);
    StepBirthsAreFresh(s, e);
    MovedSpentIsSpent(s, Advance(s, e), id, token);
  }

  lemma {:induction false} RunKeepsTokensDiffer(s: World, events: seq<LogoutEvent>)
    requires Initial(s)
    ensures TokensDiffer(Run(s, events))
    decreases |events|
  {
    if events != [] {
      RunKeepsTokensDiffer(s, events[..|events| - 1]);
      StepKeepsTokensDiffer(Run(s, events[..|events| - 1]), events[|events| - 1]);
    }
  }

  lemma {:induction false} RunKeepsSpent(s: World, events: seq<LogoutEvent>, n: nat, id: Uuid, token: string)
    requires Initial(s) && n <= |events| && Spent(Run(s, events[..n]), id, token)
    ensures Spent(Run(s, events), id, token)
    decreases |events|
  {
    if n == |events| {
      assert events[..n] == events;
    } else {
      var m := |events| - 1;
      assert events[..m][..n] == events[..n];
      RunKeepsSpent(s, events[..m], n, id, token);
      EveryRunKeepsInv(s, events[..m]);
      StepKeepsSpent(Run(s, events[..m]), events[m], id, token);
    }
  }

  /** A token is exchanged once: after an exchange, whatever happens, no grant can be exchanged
      for it again, for any account and at any moment. */
  lemma {:induction false} TokenIsExchangedOnce(s: World, events: seq<LogoutEvent>, n: nat, again: Uuid, subject: Uuid, now: Time)
    requires Initial(s) && n < |events| && events[n].Consume? && Possible(Run(s, events[..n]), events[n])
    ensures var t := Run(s, events);
      again in t.grants ==> !(t.grants[again].token == events[n].token && t.grants[again].subject == subject
                              && t.grants[again].consumedAt == None && t.grants[again].completedAt == None && t.grants[again].expiresAt > now)
    ensures !Possible(Run(s, events), Consume(again, events[n].token, subject, now))
  {
    var before, id, token := Run(s, events[..n]), events[n].id, events[n].token;
    EveryRunKeepsInv(s, events[..n]);
    RunKeepsTokensDiffer(s, events[..n]);
    assert events[..n + 1][..n] == events[..n];
    assert Spent(Run(s, events[..n + 1]), id, token);
    RunKeepsSpent(s, events, n + 1, id, token);
    EveryRunKeepsInv(s, events);
  }
}
