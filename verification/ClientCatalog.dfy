/** OAuth clients at the provider against the catalog rows that name them. */
module ClientCatalog {
  import opened Common

  datatype Slug = Slug(text: string)

  datatype Kind = Creating | Deleting | Booting

  /** How far an operation is. It holds its client's lock from Locked to Inserted. */
  datatype Stage = Waiting | Locked | Checked | Failing | Inserted | Over

  /** `existed` is what a bootstrap read at the provider before it took any lock. */
  datatype Operation = Operation(kind: Kind, slug: Slug, client: ClientId, existed: bool, stage: Stage)

  /** What the deployment's configuration declares. */
  datatype Deployment = Deployment(slugs: set<Slug>, clients: set<ClientId>)

  /** `rows` are the committed ones; a row an operation has inserted is its own until it commits. */
  datatype State = State(
    clients: set<ClientId>, rows: map<Slug, ClientId>, holder: map<ClientId, nat>, operations: map<nat, Operation>)

  datatype Event =
    | Begin(id: nat, kind: Kind, slug: Slug, client: ClientId)
    | Acquire(id: nat)
    | Verify(id: nat)
    | CheckUsed(id: nat)
    | DeleteAtProvider(id: nat, effective: bool)
    | WriteAtProvider(id: nat, effective: bool, answered: bool)
    | Insert(id: nat, ok: bool)
    | RemoveNewClient(id: nat, effective: bool)
    | Commit(id: nat)
    | Abandon(id: nat)
    | CreateClient(client: ClientId)
    | DeleteApp(slug: Slug)
    | LoseLock(id: nat)

  predicate Holding(stage: Stage) { stage != Waiting && stage != Over }

  predicate Named(rows: map<Slug, ClientId>, client: ClientId) {
    exists s :: s in rows && rows[s] == client
  }

  /** Another operation has a row of this slug in its open transaction. */
  predicate Pending(s: State, slug: Slug) {
    exists id :: id in s.operations && s.operations[id].stage == Inserted && s.operations[id].slug == slug
  }

  predicate At(s: State, id: nat, kinds: set<Kind>, stage: Stage) {
    id in s.operations && s.operations[id].kind in kinds && s.operations[id].stage == stage
  }

  function Move(s: State, id: nat, stage: Stage): State
    requires id in s.operations
  {
    s.(operations := s.operations[id := s.operations[id].(stage := stage)])
  }

  /** The transaction ends, so PostgreSQL drops the lock it held. */
  function Finish(s: State, id: nat): State
    requires id in s.operations
  {
    var c := s.operations[id].client;
    Move(s, id, Over).(holder := if c in s.holder && s.holder[c] == id then s.holder - {c} else s.holder)
  }

  predicate Enabled(s: State, d: Deployment, e: Event) {
    match e
    case Begin(id, kind, slug, client) =>
      && id !in s.operations
      && (kind == Deleting ==> client !in d.clients)
      && (kind == Booting ==> client in d.clients && slug in d.slugs)
    case Acquire(id) => id in s.operations && s.operations[id].stage == Waiting && s.operations[id].client !in s.holder
    case Verify(id) => At(s, id, {Creating}, Locked)
    case CheckUsed(id) => At(s, id, {Deleting}, Locked)
    case DeleteAtProvider(id, _) => At(s, id, {Deleting}, Checked)
    case WriteAtProvider(id, _, _) => At(s, id, {Booting}, Locked)
    case Insert(id, _) => At(s, id, {Creating, Booting}, Checked)
    case RemoveNewClient(id, _) => At(s, id, {Booting}, Failing)
    case Commit(id) => At(s, id, {Creating, Booting}, Inserted)
    case Abandon(id) => id in s.operations && s.operations[id].stage != Over
    case CreateClient(client) => true
    case DeleteApp(slug) => slug !in d.slugs && !Pending(s, slug)
    case LoseLock(id) => id in s.operations && Holding(s.operations[id].stage)
  }

  /** The row may be inserted: the slug is free, or a bootstrap's own row is being refreshed. */
  predicate Fits(s: State, op: Operation) {
    && !Pending(s, op.slug)
    && (op.slug in s.rows ==> op.kind == Booting && s.rows[op.slug] == op.client)
  }

  /** A provider write: an update of a client that exists, or a creation, which answers with
      a conflict when the client exists. The request may take effect and its answer be lost. */
  function Written(s: State, id: nat, effective: bool, answered: bool): State
    requires id in s.operations
  {
    var op := s.operations[id];
    if op.existed != (op.client in s.clients) || !effective then Finish(s, id)
    else
      var wrote := s.(clients := s.clients + {op.client});
      if answered then Move(wrote, id, Checked) else Finish(wrote, id)
  }

  function Step(s: State, d: Deployment, e: Event): State {
    if !Enabled(s, d, e) then s
    else match e
      case Begin(id, kind, slug, client) =>
        s.(operations := s.operations[id := Operation(kind, slug, client, client in s.clients, Waiting)])
      case Acquire(id) => Move(s, id, Locked).(holder := s.holder[s.operations[id].client := id])
      case Verify(id) => if s.operations[id].client in s.clients then Move(s, id, Checked) else Finish(s, id)
      case CheckUsed(id) => if Named(s.rows, s.operations[id].client) then Finish(s, id) else Move(s, id, Checked)
      case DeleteAtProvider(id, effective) =>
        Finish(s.(clients := if effective then s.clients - {s.operations[id].client} else s.clients), id)
      case WriteAtProvider(id, effective, answered) => Written(s, id, effective, answered)
      case Insert(id, ok) =>
        if ok && Fits(s, s.operations[id]) then Move(s, id, Inserted)
        else if s.operations[id].kind == Booting && !s.operations[id].existed then Move(s, id, Failing)
        else Finish(s, id)
      case RemoveNewClient(id, effective) =>
        Finish(s.(clients := if effective then s.clients - {s.operations[id].client} else s.clients), id)
      case Commit(id) => Finish(s.(rows := s.rows[s.operations[id].slug := s.operations[id].client]), id)
      case Abandon(id) => Finish(s, id)
      case CreateClient(client) => s.(clients := s.clients + {client})
      case DeleteApp(slug) => s.(rows := s.rows - {slug})
      case LoseLock(id) =>
        var c := s.operations[id].client;
        s.(holder := if c in s.holder && s.holder[c] == id then s.holder - {c} else s.holder)
  }

  function Exec(s: State, d: Deployment, events: seq<Event>): State {
    if events == [] then s
    else Step(Exec(s, d, events[..|events| - 1]), d, events[|events| - 1])
  }

  // ---------------------------------------------------------------- the invariant

  /** Every committed row names a client the provider holds. */
  ghost predicate Grounded(s: State) {
    forall slug :: slug in s.rows ==> s.rows[slug] in s.clients
  }

  /** What an operation under way may rely on while it holds its lock. */
  predicate Relies(s: State, id: nat)
    requires id in s.operations
  {
    var op := s.operations[id];
    && (Holding(op.stage) ==> op.client in s.holder && s.holder[op.client] == id)
    && (op.kind == Deleting ==> op.stage != Inserted && op.stage != Failing)
    && (op.kind == Creating ==> op.stage != Failing)
    && (op.kind != Deleting && (op.stage == Checked || op.stage == Inserted) ==> op.client in s.clients)
    && (op.kind == Deleting && op.stage == Checked ==> !Named(s.rows, op.client))
    && (op.kind == Booting && !op.existed && (op.stage == Checked || op.stage == Failing) ==> !Named(s.rows, op.client))
    && (op.stage == Failing ==> !op.existed)
  }

  ghost predicate Inv(s: State) {
    && Grounded(s)
    && (forall id :: id in s.operations ==> Relies(s, id))
  }

  lemma FinishingKeepsInv(s: State, t: State, id: nat)
    requires Inv(s) && id in s.operations && t == Finish(s, id)
    ensures Inv(t)
  {
  }

  lemma AddingKeepsInv(s: State, client: ClientId)
    requires Inv(s)
    ensures Inv(s.(clients := s.clients + {client}))
  {
  }

  lemma CommittingKeepsInv(s: State, id: nat)
    requires Inv(s) && id in s.operations && s.operations[id].stage == Inserted
    ensures Inv(Finish(s.(rows := s.rows[s.operations[id].slug := s.operations[id].client]), id))
  {
  }

  lemma MovingKeepsInv(s: State, t: State, id: nat)
    requires Inv(s) && id in s.operations && t.clients == s.clients && t.rows == s.rows
    requires t.operations.Keys == s.operations.Keys && forall o :: o in s.operations && o != id ==> t.operations[o] == s.operations[o]
    requires forall c :: c in s.holder && s.holder[c] != id ==> c in t.holder && t.holder[c] == s.holder[c]
    requires Relies(t, id)
    ensures Inv(t)
  {
  }

  lemma WritingKeepsInv(s: State, id: nat, effective: bool, answered: bool)
    requires Inv(s) && At(s, id, {Booting}, Locked)
    ensures Inv(Written(s, id, effective, answered))
  {
  }

  lemma InsertingKeepsInv(s: State, d: Deployment, id: nat, ok: bool)
    requires Inv(s) && Enabled(s, d, Insert(id, ok))
    ensures Inv(Step(s, d, Insert(id, ok)))
  {
  }

  lemma DeletingRowKeepsInv(s: State, slug: Slug)
    requires Inv(s)
    ensures Inv(s.(rows := s.rows - {slug}))
  {
  }

  lemma StepKeepsInv(s: State, d: Deployment, e: Event)
    requires Inv(s) && !e.LoseLock?
    ensures Inv(Step(s, d, e))
  {
    if Enabled(s, d, e) {
      var t := Step(s, d, e);
      match e
      case Begin(_, _, _, _) => forall id | id in t.operations ensures Relies(t, id) { assert id in s.operations ==> Relies(s, id); }
      case Acquire(id) => assert Relies(s, id); MovingKeepsInv(s, t, id);
      case Verify(id) => VerifyingKeepsInv(s, d, e);
      case CheckUsed(id) => VerifyingKeepsInv(s, d, e);
      case DeleteAtProvider(id, effective) => assert Relies(s, id); EndingKeepsInv(s, t, id, effective);
      case WriteAtProvider(id, effective, answered) => WritingKeepsInv(s, id, effective, answered);
      case Insert(id, ok) => InsertingKeepsInv(s, d, id, ok);
      case RemoveNewClient(id, effective) => assert Relies(s, id); EndingKeepsInv(s, t, id, effective);
      case Commit(id) => CommittingKeepsInv(s, id);
      case Abandon(id) => FinishingKeepsInv(s, t, id);
      case CreateClient(client) => AddingKeepsInv(s, client);
      case DeleteApp(slug) => DeletingRowKeepsInv(s, slug);
    }
  }

  lemma EndingKeepsInv(s: State, t: State, id: nat, effective: bool)
    requires Inv(s) && id in s.operations && Holding(s.operations[id].stage)
    requires !Named(s.rows, s.operations[id].client)
    requires t == Finish(s.(clients := if effective then s.clients - {s.operations[id].client} else s.clients), id)
    ensures Inv(t)
  {
  }

  lemma VerifyingKeepsInv(s: State, d: Deployment, e: Event)
    requires Inv(s) && (e.Verify? || e.CheckUsed?) && Enabled(s, d, e)
    ensures Inv(Step(s, d, e))
  {
    var t := Step(s, d, e);
    assert Relies(s, e.id);
    if t.operations[e.id].stage == Over {
      FinishingKeepsInv(s, t, e.id);
    } else {
      MovingKeepsInv(s, t, e.id);
    }
  }

  /** In every interleaving of app creations, app deletions, client creations, client
      deletions and bootstraps, with provider calls that fail or lose their answers and
      processes that die, every committed row names a client the provider holds. */
  lemma {:induction false} EveryRowNamesAClient(s: State, d: Deployment, events: seq<Event>)
    requires Grounded(s) && s.operations == map[]
    requires forall i :: 0 <= i < |events| ==> !events[i].LoseLock?
    ensures Inv(Exec(s, d, events))
    decreases |events|
  {
    if events != [] {
      var n := |events| - 1;
      EveryRowNamesAClient(s, d, events[..n]);
      StepKeepsInv(Exec(s, d, events[..n]), d, events[n]);
    }
  }

  // ---------------------------------------------------------------- the exact guard

  /** The moment a step must be right: the provider may delete a client only while no
      committed row names it, and a row may be committed only while the provider holds its
      client. */
  predicate Guarded(s: State, d: Deployment, e: Event) {
    Enabled(s, d, e) ==>
      && ((e.DeleteAtProvider? || e.RemoveNewClient?) && e.effective ==> !Named(s.rows, s.operations[e.id].client))
      && (e.Commit? ==> s.operations[e.id].client in s.clients)
  }

  /** A step keeps every row grounded if and only if it is guarded, locks or no locks. */
  lemma StepGroundedIffGuarded(s: State, d: Deployment, e: Event)
    requires Grounded(s)
    ensures Grounded(Step(s, d, e)) <==> Guarded(s, d, e)
  {
    if Enabled(s, d, e) && e.Commit? {
      var op := s.operations[e.id];
      assert Step(s, d, e).rows[op.slug] == op.client;
    }
  }

  ghost predicate GroundedAt(s: State, d: Deployment, events: seq<Event>, i: nat)
    requires i <= |events|
  {
    Grounded(Exec(s, d, events[..i]))
  }

  ghost predicate GuardedAt(s: State, d: Deployment, events: seq<Event>, i: nat)
    requires i < |events|
  {
    Guarded(Exec(s, d, events[..i]), d, events[i])
  }

  lemma NextGroundedIffGuarded(s: State, d: Deployment, events: seq<Event>, n: nat)
    requires n < |events| && GroundedAt(s, d, events, n)
    ensures GroundedAt(s, d, events, n + 1) <==> GuardedAt(s, d, events, n)
  {
    assert events[..n + 1][..n] == events[..n];
    StepGroundedIffGuarded(Exec(s, d, events[..n]), d, events[n]);
  }

  /** So a run, even one that loses locks, keeps every row grounded up to its n-th step if and
      only if each of those steps is guarded at its moment. */
  lemma {:induction false} RunGroundedIffGuarded(s: State, d: Deployment, events: seq<Event>, n: nat)
    requires Grounded(s) && n <= |events|
    ensures (forall i: nat :: i <= n ==> GroundedAt(s, d, events, i)) <==> (forall i: nat :: i < n ==> GuardedAt(s, d, events, i))
  {
    if n > 0 {
      RunGroundedIffGuarded(s, d, events, n - 1);
      if GroundedAt(s, d, events, n - 1) {
        NextGroundedIffGuarded(s, d, events, n - 1);
      }
    }
  }

  /** Holding the locks is what guards every step. */
  lemma {:induction false} LocksGuardEveryStep(s: State, d: Deployment, events: seq<Event>, i: nat)
    requires Grounded(s) && s.operations == map[] && i < |events|
    requires forall k :: 0 <= k < |events| ==> !events[k].LoseLock?
    ensures GuardedAt(s, d, events, i)
  {
    EveryRowNamesAClient(s, d, events[..i]);
    StepKeepsInv(Exec(s, d, events[..i]), d, events[i]);
    StepGroundedIffGuarded(Exec(s, d, events[..i]), d, events[i]);
  }

  // ---------------------------------------------------------------- rows keep their client

  /** A row in an open transaction replaces no other client's row, and no other open
      transaction holds that slug. */
  predicate Replaces(s: State, id: nat)
    requires id in s.operations
  {
    var op := s.operations[id];
    op.stage == Inserted ==> op.slug !in s.rows || s.rows[op.slug] == op.client
  }

  predicate OneSlug(s: State, id: nat, other: nat)
    requires id in s.operations && other in s.operations
  {
    s.operations[id].stage == s.operations[other].stage == Inserted && s.operations[id].slug == s.operations[other].slug ==> id == other
  }

  ghost predicate RowsInv(s: State) {
    && (forall id :: id in s.operations ==> Replaces(s, id))
    && (forall id, other :: id in s.operations && other in s.operations ==> OneSlug(s, id, other))
  }

  /** Steps other than an insert or a commit open no row and write none. */
  lemma OtherStepsWriteNoRow(s: State, d: Deployment, e: Event)
    requires !e.Insert? && !e.Commit?
    ensures var t := Step(s, d, e);
      && (forall id :: id in t.operations && t.operations[id].stage == Inserted ==> id in s.operations && t.operations[id] == s.operations[id])
      && (forall slug :: slug in t.rows ==> slug in s.rows && t.rows[slug] == s.rows[slug])
  {
  }

  lemma OtherStepsKeepRowsInv(s: State, t: State)
    requires RowsInv(s)
    requires forall id :: id in t.operations && t.operations[id].stage == Inserted ==> id in s.operations && t.operations[id] == s.operations[id]
    requires forall slug :: slug in t.rows ==> slug in s.rows && t.rows[slug] == s.rows[slug]
    ensures RowsInv(t)
  {
  }

  lemma InsertKeepsRowsInv(s: State, id: nat)
    requires RowsInv(s) && id in s.operations && Fits(s, s.operations[id])
    ensures RowsInv(Move(s, id, Inserted))
  {
  }

  lemma CommitKeepsRowsInv(s: State, id: nat)
    requires RowsInv(s) && id in s.operations && s.operations[id].stage == Inserted
    ensures RowsInv(Finish(s.(rows := s.rows[s.operations[id].slug := s.operations[id].client]), id))
  {
  }

  lemma StepKeepsRowsInv(s: State, d: Deployment, e: Event)
    requires RowsInv(s)
    ensures RowsInv(Step(s, d, e))
  {
    if e.Commit? {
      if Enabled(s, d, e) {
        CommitKeepsRowsInv(s, e.id);
      }
    } else if e.Insert? {
      if Enabled(s, d, e) && e.ok && Fits(s, s.operations[e.id]) {
        InsertKeepsRowsInv(s, e.id);
      } else {
        OtherStepsKeepRowsInv(s, Step(s, d, e));
      }
    } else {
      OtherStepsWriteNoRow(s, d, e);
      OtherStepsKeepRowsInv(s, Step(s, d, e));
    }
  }

  /** Over any run, even one that loses locks, a slug's row changes its client only by being
      deleted first: no step replaces the client of a committed row. */
  lemma {:induction false} RowsKeepTheirClient(s: State, d: Deployment, events: seq<Event>, e: Event, slug: Slug)
    requires s.operations == map[]
    requires slug in Exec(s, d, events).rows
    ensures var before, after := Exec(s, d, events), Step(Exec(s, d, events), d, e);
      if slug in after.rows then after.rows[slug] == before.rows[slug]
      else e == DeleteApp(slug) && slug !in d.slugs
  {
    RunKeepsRowsInv(s, d, events);
    var before := Exec(s, d, events);
    if e.Commit? && Enabled(before, d, e) {
      assert Replaces(before, e.id);
    }
  }

  lemma {:induction false} RunKeepsRowsInv(s: State, d: Deployment, events: seq<Event>)
    requires s.operations == map[]
    ensures RowsInv(Exec(s, d, events))
    decreases |events|
  {
    if events != [] {
      var n := |events| - 1;
      RunKeepsRowsInv(s, d, events[..n]);
      StepKeepsRowsInv(Exec(s, d, events[..n]), d, events[n]);
    }
  }

  // ---------------------------------------------------------------- what a lost lock does

  lemma ExecSnoc(s: State, d: Deployment, events: seq<Event>, e: Event)
    ensures Exec(s, d, events + [e]) == Step(Exec(s, d, events), d, e)
  {
  }

  /** A deletion that has found its client unused, and then lost its lock. */
  function Interrupted(slug: Slug, client: ClientId): (events: seq<Event>) {
    [Begin(0, Deleting, slug, client)] + [Acquire(0)] + [CheckUsed(0)] + [LoseLock(0)]
  }

  lemma InterruptedState(s: State, d: Deployment, slug: Slug, client: ClientId)
    requires client in s.clients && client !in d.clients && s.rows == map[] && s.operations == map[] && s.holder == map[]
    ensures Exec(s, d, Interrupted(slug, client))
         == s.(operations := map[0 := Operation(Deleting, slug, client, true, Checked)])
  {
    var e0, e1, e2, e3: Event := Begin(0, Deleting, slug, client), Acquire(0), CheckUsed(0), LoseLock(0);
    ExecSnoc(s, d, [], e0);
    ExecSnoc(s, d, [e0], e1);
    ExecSnoc(s, d, [e0] + [e1], e2);
    ExecSnoc(s, d, [e0] + [e1] + [e2], e3);
    assert [] + [e0] == [e0];
    assert map[client := 0 as nat] - {client} == map[];
  }

  /** The lock must last as long as the call it guards. When a deletion loses its
      connection between its usage check and the provider's deletion, or gives up on a
      deletion the provider carries out later, an app created in between is stranded. */
  lemma LostLockStrandsRow(s: State, d: Deployment, slug: Slug, client: ClientId)
    requires client in s.clients && client !in d.clients && s.rows == map[] && s.operations == map[] && s.holder == map[]
    ensures var events := Interrupted(slug, client) + [Begin(1, Creating, slug, client)] + [Acquire(1)] + [Verify(1)]
                          + [Insert(1, true)] + [Commit(1)] + [DeleteAtProvider(0, true)];
      !Grounded(Exec(s, d, events))
  {
    InterruptedState(s, d, slug, client);
    var h := Interrupted(slug, client);
    var c := h + [Begin(1, Creating, slug, client)] + [Acquire(1)] + [Verify(1)] + [Insert(1, true)] + [Commit(1)];
    CreationState(s, d, h, slug, client);
    ExecSnoc(s, d, c, DeleteAtProvider(0, true));
    var after := Step(Exec(s, d, c), d, DeleteAtProvider(0, true));
    assert after.rows == map[slug := client] && client !in after.clients;
    assert slug in after.rows;
  }

  /** A creation at a given stage beside the interrupted deletion. */
  function Beside(s: State, slug: Slug, client: ClientId, stage: Stage): State {
    State(s.clients, map[], if Holding(stage) then map[client := 1] else map[],
          map[0 := Operation(Deleting, slug, client, true, Checked), 1 := Operation(Creating, slug, client, true, stage)])
  }

  lemma CreationLocks(s: State, d: Deployment, slug: Slug, client: ClientId)
    requires s.operations == map[0 := Operation(Deleting, slug, client, true, Checked)]
    requires client in s.clients && s.rows == map[] && s.holder == map[]
    ensures Step(s, d, Begin(1, Creating, slug, client)) == Beside(s, slug, client, Waiting)
    ensures Step(Beside(s, slug, client, Waiting), d, Acquire(1)) == Beside(s, slug, client, Locked)
  {
  }

  lemma CreationInserts(s: State, d: Deployment, slug: Slug, client: ClientId)
    requires client in s.clients
    ensures Step(Beside(s, slug, client, Locked), d, Verify(1)) == Beside(s, slug, client, Checked)
    ensures Step(Beside(s, slug, client, Checked), d, Insert(1, true)) == Beside(s, slug, client, Inserted)
  {
    var now := Beside(s, slug, client, Checked);
    assert Fits(now, now.operations[1]);
  }

  lemma CreationState(s: State, d: Deployment, h: seq<Event>, slug: Slug, client: ClientId)
    requires var now := Exec(s, d, h);
      && now.operations == map[0 := Operation(Deleting, slug, client, true, Checked)]
      && client in now.clients && now.rows == map[] && now.holder == map[]
    ensures Exec(s, d, h + [Begin(1, Creating, slug, client)] + [Acquire(1)] + [Verify(1)] + [Insert(1, true)] + [Commit(1)])
         == Step(Beside(Exec(s, d, h), slug, client, Inserted), d, Commit(1))
  {
    var now := Exec(s, d, h);
    var e0, e1, e2, e3: Event := Begin(1, Creating, slug, client), Acquire(1), Verify(1), Insert(1, true);
    CreationLocks(now, d, slug, client);
    CreationInserts(now, d, slug, client);
    ExecSnoc(s, d, h, e0);
    ExecSnoc(s, d, h + [e0], e1);
    ExecSnoc(s, d, h + [e0] + [e1], e2);
    ExecSnoc(s, d, h + [e0] + [e1] + [e2], e3);
    ExecSnoc(s, d, h + [e0] + [e1] + [e2] + [e3], Commit(1));
  }
}
