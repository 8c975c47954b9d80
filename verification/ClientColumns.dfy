/** What the operations on clients and rows achieve, said without the machine's own helpers. */
module ClientColumns {
  import opened Common
  import opened ClientCatalog

  // ---------------------------------------------------------------- what a step may change

  /** The operation a step belongs to is of this kind, about this client. */
  predicate Concerns(s: State, id: nat, kind: Kind, client: ClientId) {
    id in s.operations && s.operations[id].kind == kind && s.operations[id].client == client && s.operations[id].stage != Over
  }

  /** A client goes from the provider only by a deletion that found it unused, or by a
      bootstrap taking back the client it created; it comes only by being created or by a
      bootstrap's write. */
  lemma ClientsChangeOnlyBy(s: State, d: Deployment, e: Event, c: ClientId)
    ensures c in s.clients && c !in Step(s, d, e).clients ==>
      || (e.DeleteAtProvider? && e.effective && Concerns(s, e.id, Deleting, c))
      || (e.RemoveNewClient? && e.effective && Concerns(s, e.id, Booting, c))
    ensures c !in s.clients && c in Step(s, d, e).clients ==>
      e == CreateClient(c) || (e.WriteAtProvider? && e.effective && Concerns(s, e.id, Booting, c))
  {
  }

  /** A row comes only by the commit of the operation that inserted it, and goes only by
      the deletion of an app the deployment does not own. */
  lemma RowsChangeOnlyBy(s: State, d: Deployment, e: Event, slug: Slug)
    ensures slug in s.rows && slug !in Step(s, d, e).rows ==> e == DeleteApp(slug) && slug !in d.slugs
    ensures slug in Step(s, d, e).rows && !(slug in s.rows && Step(s, d, e).rows[slug] == s.rows[slug]) ==>
      && e.Commit? && e.id in s.operations && s.operations[e.id].stage == Inserted
      && s.operations[e.id].slug == slug && s.operations[e.id].client == Step(s, d, e).rows[slug]
  {
  }

  /** A lock goes only to who waits for it, and only its holder's own step gives it up. */
  lemma LocksChangeOnlyBy(s: State, d: Deployment, e: Event, c: ClientId)
    ensures c !in s.holder && c in Step(s, d, e).holder ==>
      e == Acquire(Step(s, d, e).holder[c]) && e.id in s.operations && s.operations[e.id].stage == Waiting && s.operations[e.id].client == c
    ensures c in s.holder && c in Step(s, d, e).holder ==> Step(s, d, e).holder[c] == s.holder[c]
    ensures c in s.holder && c !in Step(s, d, e).holder ==>
      var id := s.holder[c]; id in s.operations && s.operations[id].client == c && (e == LoseLock(id) || Step(s, d, e).operations[id].stage == Over)
  {
  }

  /** Creating a client creates it; deleting an app deletes its row, unless the deployment
      owns it or an operation has a row of its slug in its open transaction. */
  lemma PlainRequests(s: State, d: Deployment, client: ClientId, slug: Slug)
    ensures Step(s, d, CreateClient(client)) == s.(clients := s.clients + {client})
    ensures slug !in d.slugs && (forall id :: id in s.operations && s.operations[id].slug == slug ==> s.operations[id].stage != Inserted)
      ==> Step(s, d, DeleteApp(slug)) == s.(rows := s.rows - {slug})
    ensures slug in d.slugs ==> Step(s, d, DeleteApp(slug)) == s
  {
  }

  // ---------------------------------------------------------------- operations nobody interrupts

  function Five(s: State, d: Deployment, a: Event, b: Event, c: Event, e: Event, f: Event): State {
    Step(Step(Step(Step(Step(s, d, a), d, b), d, c), d, e), d, f)
  }

  lemma FiveIsExec(s: State, d: Deployment, a: Event, b: Event, c: Event, e: Event, f: Event)
    ensures Exec(s, d, [] + [a] + [b] + [c] + [e] + [f]) == Five(s, d, a, b, c, e, f)
  {
    ExecSnoc(s, d, [], a);
    ExecSnoc(s, d, [] + [a], b);
    ExecSnoc(s, d, [] + [a] + [b], c);
    ExecSnoc(s, d, [] + [a] + [b] + [c], e);
    ExecSnoc(s, d, [] + [a] + [b] + [c] + [e], f);
  }

  /** No operation under way has a row of this slug in its transaction. */
  ghost predicate Untouched(s: State, slug: Slug) {
    forall id :: id in s.operations && s.operations[id].slug == slug ==> s.operations[id].stage != Inserted
  }

  /** The state while operation `id` is under way and nothing else has happened since `s`. */
  function During(s: State, id: nat, op: Operation): State {
    State(s.clients, s.rows, if Holding(op.stage) then s.holder[op.client := id] else s.holder, s.operations[id := op])
  }

  /** It may begin: a new operation whose client nobody holds. */
  predicate CanBegin(s: State, id: nat, client: ClientId) {
    id !in s.operations && client !in s.holder
  }

  lemma OperationLocks(s: State, d: Deployment, id: nat, op: Operation)
    requires CanBegin(s, id, op.client) && Enabled(s, d, Begin(id, op.kind, op.slug, op.client))
    requires op.existed == (op.client in s.clients) && op.stage == Locked
    ensures Step(Step(s, d, Begin(id, op.kind, op.slug, op.client)), d, Acquire(id)) == During(s, id, op)
  {
    assert Step(s, d, Begin(id, op.kind, op.slug, op.client)) == During(s, id, op.(stage := Waiting));
  }

  lemma EndingFreesLock(s: State, id: nat, op: Operation)
    requires CanBegin(s, id, op.client) && Holding(op.stage)
    ensures Finish(During(s, id, op), id) == During(s, id, op.(stage := Over))
  {
    assert s.holder[op.client := id] - {op.client} == s.holder;
  }

  lemma VerifyAlone(s: State, d: Deployment, id: nat, op: Operation)
    requires CanBegin(s, id, op.client) && op.kind == Creating && op.stage == Locked
    ensures Step(During(s, id, op), d, Verify(id)) == During(s, id, op.(stage := if op.client in s.clients then Checked else Over))
  {
    EndingFreesLock(s, id, op);
  }

  /** The slug is free, or a bootstrap's own row is there already. */
  ghost predicate Free(s: State, op: Operation) {
    Untouched(s, op.slug) && (op.slug !in s.rows || (op.kind == Booting && s.rows[op.slug] == op.client))
  }

  lemma FitsIffFree(s: State, id: nat, op: Operation)
    requires CanBegin(s, id, op.client) && op.stage == Checked
    ensures Fits(During(s, id, op), op) <==> Free(s, op)
  {
    var now := During(s, id, op);
    if !Untouched(s, op.slug) {
      var other :| other in s.operations && s.operations[other].slug == op.slug && s.operations[other].stage == Inserted;
      assert now.operations[other] == s.operations[other];
    }
  }

  lemma InsertAlone(s: State, d: Deployment, id: nat, op: Operation, ok: bool)
    requires CanBegin(s, id, op.client) && op.kind != Deleting && op.stage == Checked
    ensures Step(During(s, id, op), d, Insert(id, ok))
      == During(s, id, op.(stage := if ok && Free(s, op) then Inserted else if op.kind == Booting && !op.existed then Failing else Over))
  {
    FitsIffFree(s, id, op);
    EndingFreesLock(s, id, op);
  }

  lemma CommitAlone(s: State, d: Deployment, id: nat, op: Operation)
    requires CanBegin(s, id, op.client) && op.kind != Deleting && op.stage == Inserted
    ensures Step(During(s, id, op), d, Commit(id)) == During(s.(rows := s.rows[op.slug := op.client]), id, op.(stage := Over))
  {
    EndingFreesLock(s.(rows := s.rows[op.slug := op.client]), id, op);
  }

  /** What is over does nothing more. */
  lemma OverStays(s: State, d: Deployment, id: nat, op: Operation, e: Event)
    requires op.stage == Over && (e.Verify? || e.Insert? || e.Commit? || e.DeleteAtProvider? || e.RemoveNewClient? || e.Abandon?) && e.id == id
    ensures Step(During(s, id, op), d, e) == During(s, id, op)
  {
  }

  /** An app creation that runs alone registers the app, exactly when the provider has its
      client and its slug is free; otherwise it changes neither clients nor rows. Either way
      it gives its lock back. */
  lemma CreationRegistersApp(s: State, d: Deployment, id: nat, slug: Slug, client: ClientId)
    requires CanBegin(s, id, client)
    ensures var t := Exec(s, d, [] + [Begin(id, Creating, slug, client)] + [Acquire(id)] + [Verify(id)] + [Insert(id, true)] + [Commit(id)]);
      && t.clients == s.clients && t.holder == s.holder
      && t.rows == if client in s.clients && Untouched(s, slug) && slug !in s.rows then s.rows[slug := client] else s.rows
  {
    FiveIsExec(s, d, Begin(id, Creating, slug, client), Acquire(id), Verify(id), Insert(id, true), Commit(id));
    var op := Operation(Creating, slug, client, client in s.clients, Locked);
    OperationLocks(s, d, id, op);
    VerifyAlone(s, d, id, op);
    if client in s.clients {
      InsertAlone(s, d, id, op.(stage := Checked), true);
      if Free(s, op) {
        CommitAlone(s, d, id, op.(stage := Inserted));
      } else {
        OverStays(s, d, id, op.(stage := Over), Commit(id));
      }
    } else {
      OverStays(s, d, id, op.(stage := Over), Insert(id, true));
      OverStays(s, d, id, op.(stage := Over), Commit(id));
    }
  }

  lemma CheckUsedAlone(s: State, d: Deployment, id: nat, op: Operation)
    requires CanBegin(s, id, op.client) && op.kind == Deleting && op.stage == Locked
    ensures Step(During(s, id, op), d, CheckUsed(id)) == During(s, id, op.(stage := if op.client in s.rows.Values then Over else Checked))
  {
    EndingFreesLock(s, id, op);
    assert Named(s.rows, op.client) <==> op.client in s.rows.Values;
  }

  lemma DeleteAlone(s: State, d: Deployment, id: nat, op: Operation)
    requires CanBegin(s, id, op.client) && op.kind == Deleting && op.stage == Checked
    ensures Step(During(s, id, op), d, DeleteAtProvider(id, true)) == During(s.(clients := s.clients - {op.client}), id, op.(stage := Over))
  {
    EndingFreesLock(s.(clients := s.clients - {op.client}), id, op);
  }

  /** A client deletion that runs alone deletes the client, exactly when no committed row
      names it and the deployment does not declare it. */
  lemma DeletionRemovesUnusedClient(s: State, d: Deployment, id: nat, slug: Slug, client: ClientId)
    requires CanBegin(s, id, client)
    ensures var t := Exec(s, d, [] + [Begin(id, Deleting, slug, client)] + [Acquire(id)] + [CheckUsed(id)] + [DeleteAtProvider(id, true)] + [Abandon(id)]);
      && t.rows == s.rows && t.holder == s.holder
      && t.clients == if client in d.clients || client in s.rows.Values then s.clients else s.clients - {client}
  {
    FiveIsExec(s, d, Begin(id, Deleting, slug, client), Acquire(id), CheckUsed(id), DeleteAtProvider(id, true), Abandon(id));
    var op := Operation(Deleting, slug, client, client in s.clients, Locked);
    if client !in d.clients {
      OperationLocks(s, d, id, op);
      CheckUsedAlone(s, d, id, op);
      if client in s.rows.Values {
        OverStays(s, d, id, op.(stage := Over), DeleteAtProvider(id, true));
        OverStays(s, d, id, op.(stage := Over), Abandon(id));
      } else {
        DeleteAlone(s, d, id, op.(stage := Checked));
        OverStays(s.(clients := s.clients - {client}), d, id, op.(stage := Over), Abandon(id));
      }
    }
  }

  lemma WriteAlone(s: State, d: Deployment, id: nat, op: Operation)
    requires CanBegin(s, id, op.client) && op.kind == Booting && op.stage == Locked && op.existed == (op.client in s.clients)
    ensures Step(During(s, id, op), d, WriteAtProvider(id, true, true)) == During(s.(clients := s.clients + {op.client}), id, op.(stage := Checked))
  {
  }

  lemma RemoveAlone(s: State, d: Deployment, id: nat, op: Operation)
    requires CanBegin(s, id, op.client) && op.kind == Booting && op.stage == Failing
    ensures Step(During(s, id, op), d, RemoveNewClient(id, true)) == During(s.(clients := s.clients - {op.client}), id, op.(stage := Over))
  {
    EndingFreesLock(s.(clients := s.clients - {op.client}), id, op);
  }

  /** A bootstrap that runs alone leaves the declared client at the provider and the declared
      row in the catalog. When the row is refused it takes back the client it created, and
      none it found. */
  lemma BootstrapDeclares(s: State, d: Deployment, id: nat, slug: Slug, client: ClientId, ok: bool)
    requires CanBegin(s, id, client) && client in d.clients && slug in d.slugs
    ensures var fits := ok && Untouched(s, slug) && (slug !in s.rows || s.rows[slug] == client);
      var last: Event := if fits then Commit(id) else RemoveNewClient(id, true);
      var t := Exec(s, d, [] + [Begin(id, Booting, slug, client)] + [Acquire(id)] + [WriteAtProvider(id, true, true)] + [Insert(id, ok)] + [last]);
      && t.holder == s.holder
      && t.clients == (if fits then s.clients + {client} else s.clients)
      && t.rows == if fits then s.rows[slug := client] else s.rows
  {
    var op := Operation(Booting, slug, client, client in s.clients, Locked);
    var more := s.(clients := s.clients + {client});
    var fits := ok && Free(s, op);
    var last: Event := if fits then Commit(id) else RemoveNewClient(id, true);
    FiveIsExec(s, d, Begin(id, Booting, slug, client), Acquire(id), WriteAtProvider(id, true, true), Insert(id, ok), last);
    OperationLocks(s, d, id, op);
    WriteAlone(s, d, id, op);
    InsertAlone(more, d, id, op.(stage := Checked), ok);
    if fits {
      CommitAlone(more, d, id, op.(stage := Inserted));
    } else if client in s.clients {
      OverStays(more, d, id, op.(stage := Over), last);
    } else {
      RemoveAlone(more, d, id, op.(stage := Failing));
    }
  }
}
