/** Catalog transactions by statement. */
module ValidationLoadSteps {
  import opened Common
  import opened Catalog
  import opened ValidationQueue
  import opened ValidationExclusion
  import opened ValidationAgreement
  import opened ValidationOverlap
  import opened ValidationCreations
  import opened ValidationWrites

  // A write, the start of the catalog load, the end of it, and the commit, under the row locks
  // of the load and read-committed visibility.

  // ---------------------------------------------------------------- the machine

  /** How far a transaction is. `Looking` has the snapshot its load statement began with;
      `Loaded` has locked every row it saw. `outrun` tells that another transaction inserted
      and committed a row since the snapshot. */
  datatype Stage =
    | Wrote
    | Looking(snapshot: set<Uuid>, outrun: bool)
    | Loaded(seen: seq<ManagedApp>, outrun: bool)

  /** `change` is none for an explicit request, which then selects by `ref`. */
  datatype Txn = Txn(change: Option<Change>, write: Write, ref: ManagedAppRef, stage: Stage)

  datatype World = World(db: State, txns: map<nat, Txn>)

  datatype LoadStep =
    | Begin(k: nat, change: Change)
    | Request(k: nat, ref: ManagedAppRef)
    | StartLoad(k: nat)
    | FinishLoad(k: nat)
    | Commit(k: nat, cascade: bool, ids: seq<(Uuid, Uuid)>, now: Time)
    | Abort(k: nat)
    | Elsewhere(e: Event)

  function Ids(apps: seq<ManagedApp>): set<Uuid> { set r | r in apps :: r.id }

  /** The committed rows a transaction holds locked. */
  function LockedBy(t: Txn): set<Uuid> {
    Locks(t.write) + if t.stage.Loaded? then Ids(t.stage.seen) else {}
  }

  /** The catalog as the transaction sees it: committed rows and its own write. */
  function Own(w: World, t: Txn): seq<ManagedApp> { Apply(w.db.catalog, t.write) }

  /** Rows with these identifiers, in order. */
  function Only(apps: seq<ManagedApp>, ids: set<Uuid>): seq<ManagedApp> {
    if apps == [] then []
    else
      var rest := Only(apps[..|apps| - 1], ids);
      if apps[|apps| - 1].id in ids then rest + [apps[|apps| - 1]] else rest
  }

  /** No other transaction holds one of these rows. */
  ghost predicate Unlocked(w: World, k: nat, rows: set<Uuid>) {
    forall j :: j in w.txns && j != k ==> LockedBy(w.txns[j]) !! rows
  }

  ghost predicate Enabled(w: World, e: LoadStep) {
    match e
    case Begin(k, change) =>
      && k !in w.txns && Changed(w.db.catalog, change).Some? && Requeues(w.db.catalog, change)
      && var write := WriteOf(w.db.catalog, change);
         // An update or a deletion waits for the row, an insertion for a like one.
         Unlocked(w, k, Locks(write)) && forall j :: j in w.txns ==> Independent(w.txns[j].write, write)
    case Request(k, _) => k !in w.txns
    case StartLoad(k) => k in w.txns && w.txns[k].stage.Wrote?
    case FinishLoad(k) => k in w.txns && w.txns[k].stage.Looking? && Unlocked(w, k, w.txns[k].stage.snapshot)
    case Commit(k, cascade, ids, _) =>
      k in w.txns && w.txns[k].stage.Loaded? && FreshIds(Prepared(w, k, cascade).runs, w.txns[k].stage.seen, ids)
    case Abort(k) => k in w.txns
    case Elsewhere(e) => !e.Change? && !e.Enqueue?
  }

  /** The tables with the transaction's write, before its requeue. */
  function Prepared(w: World, k: nat, cascade: bool): State
    requires k in w.txns
  {
    var t := w.txns[k];
    if t.change.None? then w.db else AfterCascade(w.db, t.change.value, cascade).(catalog := Own(w, t))
  }

  function ToStage(w: World, k: nat, stage: Stage): World
    requires k in w.txns
  {
    w.(txns := w.txns[k := w.txns[k].(stage := stage)])
  }

  /** A committed insertion outruns every load that began before it. */
  function Outrun(t: Txn): Txn {
    match t.stage
    case Wrote => t
    case Looking(snapshot, _) => t.(stage := Looking(snapshot, true))
    case Loaded(seen, _) => t.(stage := Loaded(seen, true))
  }

  /** The transactions left after one commits. */
  function Rest(txns: map<nat, Txn>, k: nat): map<nat, Txn>
    requires k in txns
  {
    map j | j in txns && j != k :: if txns[k].write.Insert? then Outrun(txns[j]) else txns[j]
  }

  ghost function Advance(env: Env, w: World, e: LoadStep): World {
    if !Enabled(w, e) then w
    else match e
      case Begin(k, change) => w.(txns := w.txns[k := Txn(Some(change), WriteOf(w.db.catalog, change), EVERY_APP, Wrote)])
      case Request(k, ref) => w.(txns := w.txns[k := Txn(None, Nothing, ref, Wrote)])
      case StartLoad(k) => ToStage(w, k, Looking(Ids(Own(w, w.txns[k])), false))
      case FinishLoad(k) =>
        // Rows that changed while the statement waited are read again; rows inserted since are not seen.
        ToStage(w, k, Loaded(Only(Own(w, w.txns[k]), w.txns[k].stage.snapshot), w.txns[k].stage.outrun))
      case Commit(k, cascade, ids, now) =>
        var t := w.txns[k];
        World(RequeueSeeing(env, Prepared(w, k, cascade), t.stage.seen, t.ref, ids, now),
              Rest(w.txns, k))
      case Abort(k) => w.(txns := w.txns - {k})
      case Elsewhere(e) => w.(db := Step(env, w.db, e))
  }

  ghost function Run(env: Env, w: World, events: seq<LoadStep>): World {
    if events == [] then w
    else Advance(env, Run(env, w, events[..|events| - 1]), events[|events| - 1])
  }

  // ---------------------------------------------------------------- what every interleaving keeps

  /** What a transaction under way may rely on: its write still applies; the rows it saw are
      still as it saw them; and unless it was outrun, they are all there are. */
  ghost predicate TxnOk(w: World, t: Txn) {
    && Applicable(w.db.catalog, t.write)
    && (t.change.None? ==> t.write.Nothing?)
    && (t.change.Some? ==> t.ref == EVERY_APP)
    && (t.stage.Looking? && !t.stage.outrun ==> Ids(Own(w, t)) <= t.stage.snapshot)
    && (t.stage.Loaded? ==> SeesSome(Own(w, t), t.stage.seen))
    && (t.stage.Loaded? && !t.stage.outrun ==> t.stage.seen == Own(w, t))
  }

  predicate Apart(v: Txn, t: Txn) {
    LockedBy(v) !! LockedBy(t) && Independent(v.write, t.write)
  }

  ghost predicate AllOk(w: World) {
    forall k :: k in w.txns ==> TxnOk(w, w.txns[k])
  }

  ghost predicate AllApart(txns: map<nat, Txn>) {
    forall j, k :: j in txns && k in txns && j != k ==> Apart(txns[j], txns[k])
  }

  ghost predicate WorldInv(w: World) {
    Inv(w.db) && CatalogOk(w.db.catalog) && AllOk(w) && AllApart(w.txns)
  }

  // ---------------------------------------------------------------- loads

  lemma {:induction false} OnlyRows(apps: seq<ManagedApp>, ids: set<Uuid>, r: ManagedApp)
    ensures r in Only(apps, ids) <==> r in apps && r.id in ids
  {
    if apps != [] {
      var n := |apps| - 1;
      OnlyRows(apps[..n], ids, r);
      assert apps == apps[..n] + [apps[n]];
    }
  }

  lemma {:induction false} OnlyKeepsCatalogOk(apps: seq<ManagedApp>, ids: set<Uuid>)
    requires CatalogOk(apps)
    ensures CatalogOk(Only(apps, ids))
  {
    if apps != [] {
      var n := |apps| - 1;
      OnlyKeepsCatalogOk(apps[..n], ids);
      forall r | r in Only(apps[..n], ids)
        ensures TextLess(r.slug, apps[n].slug) && r.id != apps[n].id && r.clientID != apps[n].clientID
      {
        OnlyRows(apps[..n], ids, r);
      }
      var rest := Only(apps[..n], ids);
      assert forall i :: 0 <= i < |rest| ==> rest[i] in rest;
    }
  }

  lemma {:induction false} OnlyAll(apps: seq<ManagedApp>, ids: set<Uuid>)
    requires forall i :: 0 <= i < |apps| ==> apps[i].id in ids
    ensures Only(apps, ids) == apps
  {
    if apps != [] {
      OnlyAll(apps[..|apps| - 1], ids);
    }
  }

  lemma LoadingKeepsOk(w: World, t: Txn, snapshot: set<Uuid>, outrun: bool)
    requires CatalogOk(w.db.catalog) && TxnOk(w, t) && t.stage == Looking(snapshot, outrun)
    ensures var after := t.(stage := Loaded(Only(Own(w, t), snapshot), outrun));
      TxnOk(w, after) && LockedBy(after) <= Locks(t.write) + snapshot
  {
    var own := Own(w, t);
    ApplyingKeepsCatalogOk(w.db.catalog, t.write);
    OnlyKeepsCatalogOk(own, snapshot);
    forall r | r in Only(own, snapshot)
      ensures r in own && r.id in snapshot
    {
      OnlyRows(own, snapshot, r);
    }
    if !outrun {
      assert forall i :: 0 <= i < |own| ==> own[i] in own && own[i].id in Ids(own);
      OnlyAll(own, snapshot);
    }
  }

  // ---------------------------------------------------------------- commits of others

  /** A row that the committed write does not lock is still there for the transaction. */
  lemma SeenRowStays(apps: seq<ManagedApp>, v: Write, w: Write, r: ManagedApp)
    requires CatalogOk(apps) && Applicable(apps, v) && Applicable(apps, w) && Independent(v, w)
    requires r in Apply(apps, w) && r.id !in Locks(v)
    ensures r in Apply(Apply(apps, v), w)
  {
    AppliedRows(apps, w, r);
    AppliedRows(apps, v, r);
    ApplyingKeepsCatalogOk(apps, v);
    IndependentStaysApplicable(apps, v, w);
    AppliedRows(Apply(apps, v), w, r);
  }

  /** A committed update or deletion brings no new identifier. */
  lemma NoNewIds(apps: seq<ManagedApp>, v: Write, w: Write)
    requires CatalogOk(apps) && Applicable(apps, v) && Applicable(apps, w) && Independent(v, w) && !v.Insert?
    ensures Ids(Apply(Apply(apps, v), w)) <= Ids(Apply(apps, w))
  {
    ApplyingKeepsCatalogOk(apps, v);
    IndependentStaysApplicable(apps, v, w);
    forall r | r in Apply(Apply(apps, v), w)
      ensures r.id in Ids(Apply(apps, w))
    {
      AppliedRows(Apply(apps, v), w, r);
      AppliedRows(apps, v, r);
      AppliedRows(apps, w, r);
      if v.Update? && r == v.app {
        var old' :| old' in apps && old'.id == r.id;
        AppliedRows(apps, w, old');
      }
    }
  }

  /** A load that was not outrun holds every committed row. */
  lemma HolderLocksEveryRow(w: World, t: Txn, r: ManagedApp)
    requires CatalogOk(w.db.catalog) && TxnOk(w, t) && t.stage.Loaded? && !t.stage.outrun && r in w.db.catalog
    ensures r.id in LockedBy(t)
  {
    AppliedRows(w.db.catalog, t.write, r);
  }

  /** So no other transaction has an update or a deletion under way. */
  lemma HolderShutsOthersOut(w: World, j: Txn, t: Txn)
    requires CatalogOk(w.db.catalog) && TxnOk(w, j) && TxnOk(w, t) && Apart(j, t)
    requires t.stage.Loaded? && !t.stage.outrun
    ensures j.write.Insert? || j.write.Nothing?
  {
    if j.write.Update? {
      var r :| r in w.db.catalog && r.id == j.write.app.id;
      HolderLocksEveryRow(w, t, r);
    } else if j.write.Remove? {
      var r :| r in w.db.catalog && r.id == j.write.id;
      HolderLocksEveryRow(w, t, r);
    }
  }

  lemma OthersCommitKeepsOk(w: World, after: World, j: Txn, t: Txn)
    requires CatalogOk(w.db.catalog) && TxnOk(w, j) && TxnOk(w, t) && Apart(j, t)
    requires after.db.catalog == Apply(w.db.catalog, j.write)
    ensures TxnOk(after, if j.write.Insert? then Outrun(t) else t)
  {
    IndependentStaysApplicable(w.db.catalog, j.write, t.write);
    if t.stage.Looking? && !j.write.Insert? {
      NoNewIds(w.db.catalog, j.write, t.write);
    }
    if t.stage.Loaded? {
      SeenStaysSeen(w, after, j, t);
      if !t.stage.outrun {
        HolderShutsOthersOut(w, j, t);
      }
    }
  }

  lemma SeenStaysSeen(w: World, after: World, j: Txn, t: Txn)
    requires CatalogOk(w.db.catalog) && TxnOk(w, j) && TxnOk(w, t) && Apart(j, t) && t.stage.Loaded?
    requires after.db.catalog == Apply(w.db.catalog, j.write)
    ensures SeesSome(Own(after, t), t.stage.seen)
  {
    ApplyingKeepsCatalogOk(w.db.catalog, j.write);
    IndependentStaysApplicable(w.db.catalog, j.write, t.write);
    ApplyingKeepsCatalogOk(after.db.catalog, t.write);
    forall r | r in t.stage.seen
      ensures r in Own(after, t)
    {
      assert r.id in LockedBy(t);
      SeenRowStays(w.db.catalog, j.write, t.write, r);
    }
  }

  // ---------------------------------------------------------------- every step

  lemma PreparedIsSound(w: World, k: nat, cascade: bool)
    requires WorldInv(w) && k in w.txns
    ensures var p := Prepared(w, k, cascade); Inv(p) && p.catalog == Own(w, w.txns[k]) && CatalogOk(p.catalog)
  {
    var t := w.txns[k];
    assert TxnOk(w, t);
    ApplyingKeepsCatalogOk(w.db.catalog, t.write);
    if t.change.Some? {
      CascadeKeepsInv(w.db, t.change.value, cascade);
      assert Inv(AfterCascade(w.db, t.change.value, cascade).(catalog := Own(w, t)));
    }
  }

  lemma RestStaysApart(txns: map<nat, Txn>, k: nat)
    requires AllApart(txns) && k in txns
    ensures AllApart(Rest(txns, k))
  {
    var rest := Rest(txns, k);
    assert forall j :: j in rest ==> LockedBy(rest[j]) == LockedBy(txns[j]) && rest[j].write == txns[j].write;
    forall i, j | i in rest && j in rest && i != j
      ensures Apart(rest[i], rest[j])
    {
      assert Apart(txns[i], txns[j]);
    }
  }

  lemma RestStaysOk(w: World, k: nat, after: World)
    requires CatalogOk(w.db.catalog) && AllOk(w) && AllApart(w.txns) && k in w.txns
    requires after.txns == Rest(w.txns, k) && after.db.catalog == Apply(w.db.catalog, w.txns[k].write)
    ensures AllOk(after)
  {
    forall j | j in after.txns
      ensures TxnOk(after, after.txns[j])
    {
      assert Apart(w.txns[k], w.txns[j]);
      OthersCommitKeepsOk(w, after, w.txns[k], w.txns[j]);
    }
  }

  lemma CommittingKeepsInv(env: Env, w: World, e: LoadStep)
    requires WorldInv(w) && e.Commit? && Enabled(w, e)
    ensures WorldInv(Advance(env, w, e))
  {
    var after, t := Advance(env, w, e), w.txns[e.k];
    PreparedIsSound(w, e.k, e.cascade);
    SeeingKeepsInv(env, Prepared(w, e.k, e.cascade), t.stage.seen, t.ref, e.ids, e.now);
    RestStaysApart(w.txns, e.k);
    RestStaysOk(w, e.k, after);
  }

  /** The catalog stands, and one transaction was added, moved on or removed. */
  lemma SameCatalogKeepsOk(w: World, after: World, k: nat)
    requires AllOk(w) && after.db.catalog == w.db.catalog
    requires forall j :: j in after.txns && j != k ==> j in w.txns && after.txns[j] == w.txns[j]
    requires k in after.txns ==> TxnOk(w, after.txns[k])
    ensures AllOk(after)
  {
    forall j | j in after.txns
      ensures TxnOk(after, after.txns[j])
    {
      assert TxnOk(w, after.txns[j]);
    }
  }

  lemma OneMoreStaysApart(txns: map<nat, Txn>, k: nat, t: Txn)
    requires AllApart(txns) && forall j :: j in txns && j != k ==> Apart(txns[j], t)
    ensures AllApart(txns[k := t])
  {
    var after := txns[k := t];
    forall i, j | i in after && j in after && i != j
      ensures Apart(after[i], after[j])
    {
      if i != k && j != k {
        assert Apart(txns[i], txns[j]);
      }
    }
  }

  lemma BeginningKeepsInv(env: Env, w: World, e: LoadStep)
    requires WorldInv(w) && (e.Begin? || e.Request?) && Enabled(w, e)
    ensures WorldInv(Advance(env, w, e))
  {
    var after := Advance(env, w, e);
    if e.Begin? {
      WriteIsChange(w.db.catalog, e.change);
    }
    assert TxnOk(w, after.txns[e.k]);
    SameCatalogKeepsOk(w, after, e.k);
    OneMoreStaysApart(w.txns, e.k, after.txns[e.k]);
  }

  lemma LoadingStepKeepsInv(env: Env, w: World, e: LoadStep)
    requires WorldInv(w) && (e.StartLoad? || e.FinishLoad?) && Enabled(w, e)
    ensures WorldInv(Advance(env, w, e))
  {
    var after, t := Advance(env, w, e), w.txns[e.k];
    assert TxnOk(w, t);
    if e.FinishLoad? {
      LoadingKeepsOk(w, t, t.stage.snapshot, t.stage.outrun);
    }
    SameCatalogKeepsOk(w, after, e.k);
    forall j | j in w.txns && j != e.k
      ensures Apart(w.txns[j], after.txns[e.k])
    {
      assert Apart(w.txns[j], t);
    }
    OneMoreStaysApart(w.txns, e.k, after.txns[e.k]);
  }

  lemma ElsewhereKeepsInv(env: Env, w: World, e: Event)
    requires WorldInv(w) && !e.Change? && !e.Enqueue?
    ensures WorldInv(w.(db := Step(env, w.db, e)))
  {
    StepKeepsInv(env, w.db, e);
    OtherStepsQueueNothing(env, w.db, e);
    var after := w.(db := Step(env, w.db, e));
    forall k | k in w.txns
      ensures TxnOk(after, after.txns[k])
    {
      assert TxnOk(w, w.txns[k]);
    }
  }

  lemma AbortingKeepsInv(w: World, k: nat)
    requires WorldInv(w)
    ensures WorldInv(w.(txns := w.txns - {k}))
  {
    var after := w.(txns := w.txns - {k});
    SameCatalogKeepsOk(w, after, k);
    forall i, j | i in after.txns && j in after.txns && i != j
      ensures Apart(after.txns[i], after.txns[j])
    {
      assert Apart(w.txns[i], w.txns[j]);
    }
  }

  lemma AdvanceKeepsInv(env: Env, w: World, e: LoadStep)
    requires WorldInv(w)
    ensures WorldInv(Advance(env, w, e))
  {
    if Enabled(w, e) {
      if e.Commit? {
        CommittingKeepsInv(env, w, e);
      } else if e.Begin? || e.Request? {
        BeginningKeepsInv(env, w, e);
      } else if e.StartLoad? || e.FinishLoad? {
        LoadingStepKeepsInv(env, w, e);
      } else if e.Elsewhere? {
        ElsewhereKeepsInv(env, w, e.e);
      } else {
        AbortingKeepsInv(w, e.k);
      }
    }
  }

  lemma {:induction false} EveryRunKeepsInv(env: Env, w: World, events: seq<LoadStep>)
    requires Inv(w.db) && CatalogOk(w.db.catalog) && w.txns == map[]
    ensures WorldInv(Run(env, w, events))
    decreases |events|
  {
    if events != [] {
      var n := |events| - 1;
      EveryRunKeepsInv(env, w, events[..n]);
      AdvanceKeepsInv(env, Run(env, w, events[..n]), events[n]);
    }
  }

  // ---------------------------------------------------------------- agreement

  /** The step commits a load that was outrun. */
  predicate CommitsOutrun(w: World, e: LoadStep) {
    e.Commit? && e.k in w.txns && w.txns[e.k].stage.Loaded? && w.txns[e.k].stage.outrun
  }

  lemma CommitKeepsAgreement(env: Env, w: World, e: LoadStep)
    requires WorldInv(w) && Agrees(env, w.db) && e.Commit? && Enabled(w, e) && !CommitsOutrun(w, e)
    ensures Agrees(env, Advance(env, w, e).db)
  {
    var t, p := w.txns[e.k], Prepared(w, e.k, e.cascade);
    PreparedIsSound(w, e.k, e.cascade);
    assert TxnOk(w, t);
    assert RequeueSeeing(env, p, t.stage.seen, t.ref, e.ids, e.now) == Requeued(env, p, t.ref, e.ids, e.now);
    if t.change.Some? {
      RequeueAllAgrees(env, p, e.ids, e.now);
    } else {
      RequeueKeepsAgreement(env, p, t.ref, e.ids, e.now);
    }
  }

  lemma AdvanceKeepsAgreement(env: Env, w: World, e: LoadStep)
    requires WorldInv(w) && Agrees(env, w.db) && !CommitsOutrun(w, e)
    ensures Agrees(env, Advance(env, w, e).db)
  {
    if Enabled(w, e) {
      if e.Commit? {
        CommitKeepsAgreement(env, w, e);
      } else if e.Elsewhere? {
        StepKeepsAgreement(env, w.db, e.e);
      }
    }
  }

  /** In every interleaving of catalog changes and requests, statement by statement, with
      claims, completions and expiries in between, the queue agrees with the catalog after
      every commit, as long as no transaction commits a load that another's insertion outran. */
  lemma {:induction false} EveryInterleavingAgrees(env: Env, w: World, events: seq<LoadStep>)
    requires Inv(w.db) && CatalogOk(w.db.catalog) && w.txns == map[] && Agrees(env, w.db)
    requires forall i :: 0 <= i < |events| ==> !CommitsOutrun(Run(env, w, events[..i]), events[i])
    ensures Agrees(env, Run(env, w, events).db)
    decreases |events|
  {
    if events != [] {
      var n := |events| - 1;
      assert forall i :: 0 <= i < n ==> events[..n][..i] == events[..i];
      EveryInterleavingAgrees(env, w, events[..n]);
      EveryRunKeepsInv(env, w, events[..n]);
      AdvanceKeepsAgreement(env, Run(env, w, events[..n]), events[n]);
    }
  }

  /** Exactly when a commit agrees, outrun or not: no row it requeued has its witness among
      the rows it missed, and every other row is already queued for the present catalog. */
  lemma CommitAgreesIff(env: Env, w: World, e: LoadStep)
    requires CollisionFree(env) && WorldInv(w) && e.Commit? && Enabled(w, e)
    requires AllStorable(Own(w, w.txns[e.k]))
    ensures var t, p := w.txns[e.k], Prepared(w, e.k, e.cascade);
      Agrees(env, Advance(env, w, e).db) <==> AllWellSeen(env, p, t.stage.seen, t.ref)
  {
    var t, p := w.txns[e.k], Prepared(w, e.k, e.cascade);
    PreparedIsSound(w, e.k, e.cascade);
    assert TxnOk(w, t);
    SeeingAgreesIff(env, p, t.stage.seen, t.ref, e.ids, e.now);
  }

  // ---------------------------------------------------------------- a request that was outrun

  lemma RunSnoc(env: Env, w: World, events: seq<LoadStep>, e: LoadStep)
    ensures Run(env, w, events + [e]) == Advance(env, Run(env, w, events), e)
  {
    assert (events + [e])[..|events|] == events;
  }

  /** A request has begun its load, and an application was created and its own load is done. */
  function Crossing(b: ManagedApp): seq<LoadStep> {
    [] + [Request(0, EVERY_APP)] + [StartLoad(0)] + [Begin(1, CreateApp(b))] + [StartLoad(1)] + [FinishLoad(1)]
  }

  function Asking(stage: Stage): Txn { Txn(None, Nothing, EVERY_APP, stage) }

  function Creating(b: ManagedApp, stage: Stage): Txn { Txn(Some(CreateApp(b)), Insert(b), EVERY_APP, stage) }

  lemma CrossingBegins(env: Env, db: State, a: ManagedApp, b: ManagedApp)
    requires db.catalog == [a] && a.id != b.id && a.clientID != b.clientID && TextLess(a.slug, b.slug)
    ensures Run(env, World(db, map[]), [] + [Request(0, EVERY_APP)] + [StartLoad(0)] + [Begin(1, CreateApp(b))])
         == World(db, map[0 := Asking(Looking({a.id}, false)), 1 := Creating(b, Wrote)])
  {
    var w := World(db, map[]);
    var e0, e1, e2: LoadStep := Request(0, EVERY_APP), StartLoad(0), Begin(1, CreateApp(b));
    RunSnoc(env, w, [], e0);
    RunSnoc(env, w, [] + [e0], e1);
    RunSnoc(env, w, [] + [e0] + [e1], e2);
    assert Ids([a]) == {a.id};
    TextOrderIsTotal(a.slug, b.slug);
    assert Run(env, w, [] + [e0] + [e1]) == World(db, map[0 := Asking(Looking({a.id}, false))]);
    assert Enabled(World(db, map[0 := Asking(Looking({a.id}, false))]), e2);
  }

  lemma PairInsert(a: ManagedApp, b: ManagedApp)
    requires TextLess(a.slug, b.slug)
    ensures InsertBySlug([a], b) == [a, b]
  {
    TextOrderIsTotal(a.slug, b.slug);
    assert InsertPosition([a], b.slug) == 1;
  }

  lemma PairIds(a: ManagedApp, b: ManagedApp)
    requires a.id != b.id
    ensures Ids([a, b]) == {a.id, b.id}
    ensures Only([a, b], {a.id, b.id}) == [a, b] && Only([a, b], {a.id}) == [a]
  {
    assert [a, b][..1] == [a] && [a][..0] == [];
    assert Only([a], {a.id}) == [a] && Only([a], {a.id, b.id}) == [a];
    assert a in [a, b] && b in [a, b];
  }

  /** The two transactions side by side. */
  function Both(db: State, asking: Stage, b: ManagedApp, creating: Stage): World {
    World(db, map[0 := Asking(asking), 1 := Creating(b, creating)])
  }

  lemma OwnOfCreation(db: State, a: ManagedApp, b: ManagedApp, asking: Stage, creating: Stage)
    requires db.catalog == [a] && a.id != b.id && TextLess(a.slug, b.slug)
    ensures Own(Both(db, asking, b, creating), Creating(b, creating)) == [a, b]
  {
    PairInsert(a, b);
  }

  lemma CreationStartsLoad(env: Env, db: State, b: ManagedApp, asking: Stage, own: seq<ManagedApp>)
    requires Own(Both(db, asking, b, Wrote), Creating(b, Wrote)) == own
    ensures Advance(env, Both(db, asking, b, Wrote), StartLoad(1)) == Both(db, asking, b, Looking(Ids(own), false))
  {
  }

  lemma CreationLoads(env: Env, db: State, b: ManagedApp, asking: set<Uuid>, snapshot: set<Uuid>, own: seq<ManagedApp>)
    requires Own(Both(db, Looking(asking, false), b, Looking(snapshot, false)), Creating(b, Looking(snapshot, false))) == own
    ensures Advance(env, Both(db, Looking(asking, false), b, Looking(snapshot, false)), FinishLoad(1))
         == Both(db, Looking(asking, false), b, Loaded(Only(own, snapshot), false))
  {
    var w := Both(db, Looking(asking, false), b, Looking(snapshot, false));
    assert LockedBy(w.txns[0]) == {};
  }

  lemma CrossingState(env: Env, db: State, a: ManagedApp, b: ManagedApp)
    requires db.catalog == [a] && a.id != b.id && a.clientID != b.clientID && TextLess(a.slug, b.slug)
    ensures Run(env, World(db, map[]), Crossing(b)) == Both(db, Looking({a.id}, false), b, Loaded([a, b], false))
  {
    var w := World(db, map[]);
    var h := [] + [Request(0, EVERY_APP)] + [StartLoad(0)] + [Begin(1, CreateApp(b))];
    CrossingBegins(env, db, a, b);
    OwnOfCreation(db, a, b, Looking({a.id}, false), Wrote);
    OwnOfCreation(db, a, b, Looking({a.id}, false), Looking({a.id, b.id}, false));
    PairIds(a, b);
    CreationStartsLoad(env, db, b, Looking({a.id}, false), [a, b]);
    CreationLoads(env, db, b, {a.id}, {a.id, b.id}, [a, b]);
    RunSnoc(env, w, h, StartLoad(1));
    RunSnoc(env, w, h + [StartLoad(1)], FinishLoad(1));
  }

  lemma PreparedCreation(db: State, a: ManagedApp, b: ManagedApp)
    requires db.catalog == [a] && a.id != b.id && TextLess(a.slug, b.slug)
    ensures Prepared(Both(db, Looking({a.id}, false), b, Loaded([a, b], false)), 1, false) == db.(catalog := [a, b])
  {
    OwnOfCreation(db, a, b, Looking({a.id}, false), Loaded([a, b], false));
  }

  lemma RestOfCreation(b: ManagedApp, snapshot: set<Uuid>, creating: Stage)
    ensures Rest(map[0 := Asking(Looking(snapshot, false)), 1 := Creating(b, creating)], 1) == map[0 := Asking(Looking(snapshot, true))]
  {
  }

  lemma CreationCommits(env: Env, db: State, a: ManagedApp, b: ManagedApp, ids: seq<(Uuid, Uuid)>, now: Time)
    requires db.catalog == [a] && a.id != b.id && TextLess(a.slug, b.slug) && FreshIds(db.runs, [a, b], ids)
    ensures Advance(env, Both(db, Looking({a.id}, false), b, Loaded([a, b], false)), Commit(1, false, ids, now))
         == World(RequeueSeeing(env, db.(catalog := [a, b]), [a, b], EVERY_APP, ids, now), map[0 := Asking(Looking({a.id}, true))])
  {
    PreparedCreation(db, a, b);
    RestOfCreation(b, {a.id}, Loaded([a, b], false));
  }

  lemma RequestLoads(env: Env, db: State, snapshot: set<Uuid>)
    ensures Advance(env, World(db, map[0 := Asking(Looking(snapshot, true))]), FinishLoad(0))
         == World(db, map[0 := Asking(Loaded(Only(db.catalog, snapshot), true))])
  {
  }

  lemma LateRequestDisagrees(env: Env, db: State, a: ManagedApp, b: ManagedApp, again: seq<(Uuid, Uuid)>, now: Time)
    requires CollisionFree(env) && Storable(a) && Storable(b) && db.catalog == [a, b] && Eligible(env, a, b)
    requires var late := World(db, map[0 := Asking(Loaded([a], true))]); WorldInv(late) && FreshIds(db.runs, [a], again)
    ensures !Agrees(env, Advance(env, World(db, map[0 := Asking(Loaded([a], true))]), Commit(0, false, again, now)).db)
  {
    PairMissesWitness(env, db, a, b);
    var late := World(db, map[0 := Asking(Loaded([a], true))]);
    assert Prepared(late, 0, false) == db && Own(late, late.txns[0]) == db.catalog;
    assert AllStorable(db.catalog);
    CommitAgreesIff(env, late, Commit(0, false, again, now));
  }

  lemma PairMissesWitness(env: Env, db: State, a: ManagedApp, b: ManagedApp)
    requires db.catalog == [a, b] && Eligible(env, a, b)
    ensures !AllWellSeen(env, db, [a], EVERY_APP)
  {
    assert ValidationWitness(env, a, [a, b]) == Some(b) by { assert RingAt([a, b], 0, 1) == b; }
    assert a in db.catalog && !WellSeen(env, db, [a], EVERY_APP, a);
  }

  /** A request whose load began before a creation committed, and waited for it, puts the
      queue behind the catalog although only one insertion was ever under way: it queues the
      old application again, without the witness it now has. */
  lemma OutrunRequestDisagrees(env: Env, db: State, a: ManagedApp, b: ManagedApp, ids: seq<(Uuid, Uuid)>, again: seq<(Uuid, Uuid)>, now: Time)
    requires CollisionFree(env) && Storable(a) && Storable(b) && Inv(db) && db.catalog == [a]
    requires a.id != b.id && a.clientID != b.clientID && TextLess(a.slug, b.slug) && Eligible(env, a, b)
    requires FreshIds(db.runs, [a, b], ids)
    requires FreshIds(RequeueSeeing(env, db.(catalog := [a, b]), [a, b], EVERY_APP, ids, now).runs, [a], again)
    ensures !Agrees(env, Run(env, World(db, map[]),
                            Crossing(b) + [Commit(1, false, ids, now)] + [FinishLoad(0)] + [Commit(0, false, again, now)]).db)
  {
    var w, h, created := World(db, map[]), Crossing(b), RequeueSeeing(env, db.(catalog := [a, b]), [a, b], EVERY_APP, ids, now);
    CrossingState(env, db, a, b);
    CreationCommits(env, db, a, b, ids, now);
    PairIds(a, b);
    RequestLoads(env, created, {a.id});
    RunSnoc(env, w, h, Commit(1, false, ids, now));
    RunSnoc(env, w, h + [Commit(1, false, ids, now)], FinishLoad(0));
    RunSnoc(env, w, h + [Commit(1, false, ids, now)] + [FinishLoad(0)], Commit(0, false, again, now));
    EveryRunKeepsInv(env, w, h + [Commit(1, false, ids, now)] + [FinishLoad(0)]);
    LateRequestDisagrees(env, created, a, b, again, now);
  }
}
