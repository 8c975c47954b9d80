/** The provider's token lifetimes against the stored session policy. */
module PolicyAgreement {
  import opened Common

  /** The lifetimes an operator sets. */
  datatype Policy = Policy(absolute: Time, idle: Time, oidc: Time, access: Time, id: Time, refresh: Time)

  /** One grant's access, ID and refresh token lifetimes. */
  datatype Lifetimes = Lifetimes(access: Time, id: Time, refresh: Time)

  datatype GrantType = AuthorizationCode | RefreshToken

  /** Both grants an application uses get the policy's lifetimes. */
  function Lifespans(p: Policy): map<GrantType, Lifetimes> {
    map[AuthorizationCode := Lifetimes(p.access, p.id, p.refresh), RefreshToken := Lifetimes(p.access, p.id, p.refresh)]
  }

  // ---------------------------------------------------------------- the steps

  /** What the holder of the policy lock is doing. `todo` are the listed clients not yet written. */
  datatype Work =
    | Listing(target: Policy)
    | Applying(target: Policy, todo: set<ClientId>)
    | Stored(target: Policy)
    | RelistingToRestore
    | Restoring(todo: set<ClientId>)
    | NotRestored
    | Registering(client: ClientId, isNew: bool)

  datatype State = State(clients: map<ClientId, map<GrantType, Lifetimes>>, stored: Policy, lock: Option<Work>)

  /** A call may fail before it takes effect, or take effect and lose its answer. */
  datatype Event =
    | BeginChange(target: Policy)
    | BeginRegistration(client: ClientId, isNew: bool)
    | List(ok: bool)
    | Put(client: ClientId, effective: bool, answered: bool)
    | Store(ok: bool)
    | Register(effective: bool)
    | Release(committed: bool)
    | Die
    | DeleteClient(client: ClientId)

  predicate Enabled(s: State, e: Event) {
    match e
    case BeginChange(_) => s.lock.None?
    case BeginRegistration(_, _) => s.lock.None?
    case List(_) => s.lock.Some? && (s.lock.value.Listing? || s.lock.value.RelistingToRestore?)
    case Put(c, _, _) => s.lock.Some? && (s.lock.value.Applying? || s.lock.value.Restoring?) && c in s.lock.value.todo
    case Store(_) => s.lock.Some? && s.lock.value.Applying? && s.lock.value.todo == {}
    case Register(_) => s.lock.Some? && s.lock.value.Registering?
    case Release(_) =>
      s.lock.Some? && (s.lock.value.Stored? || s.lock.value.NotRestored? || (s.lock.value.Restoring? && s.lock.value.todo == {}))
    case Die => s.lock.Some?
    case DeleteClient(_) => true
  }

  /** The lifetimes the holder is writing. */
  function Target(s: State): Policy {
    if s.lock.Some? && (s.lock.value.Listing? || s.lock.value.Applying?) then s.lock.value.target else s.stored
  }

  /** A failed first pass is followed by a restoring pass; a failed restoring pass is only logged. */
  function Failed(work: Work): Work {
    if work.Restoring? || work.RelistingToRestore? then NotRestored else RelistingToRestore
  }

  /** The pass under way, with these clients still to write. */
  function Pass(work: Work, todo: set<ClientId>): Work {
    if work.Listing? || work.Applying? then Applying(work.target, todo) else Restoring(todo)
  }

  function Step(s: State, e: Event): State {
    if !Enabled(s, e) then s
    else match e
      case BeginChange(target) => s.(lock := Some(Listing(target)))
      case BeginRegistration(c, isNew) => s.(lock := Some(Registering(c, isNew)))
      case List(ok) =>
        s.(lock := Some(if ok then Pass(s.lock.value, s.clients.Keys) else Failed(s.lock.value)))
      case Put(c, effective, answered) =>
        var wrote := if effective && c in s.clients then s.(clients := s.clients[c := Lifespans(Target(s))]) else s;
        wrote.(lock := Some(
          if effective && answered && c in s.clients then Pass(s.lock.value, s.lock.value.todo - {c}) else Failed(s.lock.value)))
      case Store(ok) => s.(lock := Some(if ok then Stored(s.lock.value.target) else RelistingToRestore))
      case Register(effective) =>
        var c := s.lock.value.client;
        if effective && s.lock.value.isNew == (c !in s.clients)
        then s.(clients := s.clients[c := Lifespans(s.stored)], lock := None) else s.(lock := None)
      case Release(committed) =>
        s.(stored := if s.lock.value.Stored? && committed then s.lock.value.target else s.stored, lock := None)
      case Die => s.(lock := None)
      case DeleteClient(c) => s.(clients := s.clients - {c})
  }

  function Exec(s: State, events: seq<Event>): State {
    if events == [] then s
    else Step(Exec(s, events[..|events| - 1]), events[|events| - 1])
  }

  // ---------------------------------------------------------------- what a step may change

  /** These are the policy's lifetimes, for both grants. */
  ghost predicate Gets(grants: map<GrantType, Lifetimes>, p: Policy) {
    forall g: GrantType :: g in grants && grants[g] == Lifetimes(p.access, p.id, p.refresh)
  }

  lemma LifespansGets(p: Policy)
    ensures Gets(Lifespans(p), p)
  {
    forall g: GrantType
      ensures g in Lifespans(p) && Lifespans(p)[g] == Lifetimes(p.access, p.id, p.refresh)
    {
      match g
      case AuthorizationCode =>
      case RefreshToken =>
    }
  }

  /** The stored policy changes only when a change that stored its target commits. */
  lemma StoredChangesOnlyBy(s: State, e: Event)
    ensures Step(s, e).stored != s.stored ==> e == Release(true) && s.lock == Some(Stored(Step(s, e).stored))
    ensures s.lock.Some? && s.lock.value.Stored? && e == Release(true) ==> Step(s, e) == State(s.clients, s.lock.value.target, None)
    ensures s.lock.Some? && (e.BeginChange? || e.BeginRegistration?) ==> Step(s, e) == s
  {
  }

  /** A client's lifetimes change only under the policy lock: by a pass that still has it to
      write, to the policy of that pass, or by its registration, to the stored policy. */
  lemma ClientsChangeOnlyBy(s: State, e: Event, c: ClientId)
    ensures c in s.clients && c !in Step(s, e).clients ==> e == DeleteClient(c)
    ensures c !in Step(s, DeleteClient(c)).clients
    ensures c in Step(s, e).clients && !(c in s.clients && Step(s, e).clients[c] == s.clients[c]) ==>
      && s.lock.Some?
      && match s.lock.value
         case Applying(target, todo) => c in todo && e.Put? && e.client == c && e.effective && Gets(Step(s, e).clients[c], target)
         case Restoring(todo) => c in todo && e.Put? && e.client == c && e.effective && Gets(Step(s, e).clients[c], s.stored)
         case Registering(client, isNew) => client == c && isNew == (c !in s.clients) && e == Register(true) && Gets(Step(s, e).clients[c], s.stored)
         case _ => false
  {
    LifespansGets(Target(s));
    LifespansGets(s.stored);
  }

  /** A registration under the lock creates a client that is not there, or updates one that is. */
  lemma RegistrationGivesStoredLifetimes(s: State, c: ClientId, isNew: bool)
    requires s.lock.None?
    ensures var t := Step(Step(s, BeginRegistration(c, isNew)), Register(true));
      && t.lock.None? && t.stored == s.stored
      && (if isNew == (c !in s.clients) then c in t.clients && Gets(t.clients[c], s.stored) && t.clients - {c} == s.clients - {c} else t == s)
  {
    LifespansGets(s.stored);
  }

  // ---------------------------------------------------------------- agreement

  ghost predicate Agree(s: State, p: Policy) {
    forall c :: c in s.clients ==> s.clients[c] == Lifespans(p)
  }

  /** The step breaks the proviso: a compensating call failed, the lock's transaction did
      not commit what was stored, or the process died in the middle of a change. */
  predicate Fault(s: State, e: Event) {
    && s.lock.Some?
    && match e
       case List(ok) => s.lock.value.RelistingToRestore? && !ok
       case Put(c, effective, answered) => s.lock.value.Restoring? && !(effective && answered && c in s.clients)
       case Release(committed) => s.lock.value.Stored? && !committed
       case Die => !s.lock.value.Registering?
       case _ => false
  }

  ghost predicate Faultless(s: State, events: seq<Event>) {
    forall i :: 0 <= i < |events| ==> !Fault(Exec(s, events[..i]), events[i])
  }

  ghost predicate Inv(s: State) {
    match s.lock
    case None => Agree(s, s.stored)
    case Some(Listing(_)) => Agree(s, s.stored)
    case Some(Applying(target, todo)) =>
      forall c :: c in s.clients ==> s.clients[c] == Lifespans(if c in todo then s.stored else target)
    case Some(Stored(target)) => Agree(s, target)
    case Some(RelistingToRestore) => true
    case Some(Restoring(todo)) => forall c :: c in s.clients && c !in todo ==> s.clients[c] == Lifespans(s.stored)
    case Some(NotRestored) => false
    case Some(Registering(_, _)) => Agree(s, s.stored)
  }

  lemma StepKeepsInv(s: State, e: Event)
    requires Inv(s) && !Fault(s, e)
    ensures Inv(Step(s, e))
  {
  }

  lemma {:induction false} FaultlessRunKeepsInv(s: State, events: seq<Event>)
    requires s.lock.None? && Agree(s, s.stored) && Faultless(s, events)
    ensures Inv(Exec(s, events))
    decreases |events|
  {
    if events != [] {
      var n := |events| - 1;
      forall i | 0 <= i < n
        ensures !Fault(Exec(s, events[..n][..i]), events[..n][i])
      {
        assert events[..n][..i] == events[..i];
      }
      FaultlessRunKeepsInv(s, events[..n]);
      StepKeepsInv(Exec(s, events[..n]), events[n]);
    }
  }

  /** Whenever no one holds the policy lock, every client has the stored policy's lifetimes
      for both grants, whatever forward calls failed and whichever clients went meanwhile. */
  lemma {:induction false} UnlockedMeansAgreed(s: State, events: seq<Event>, c: ClientId, g: GrantType)
    requires s.lock.None? && Agree(s, s.stored) && Faultless(s, events)
    ensures var t := Exec(s, events);
      t.lock.None? && c in t.clients ==>
        g in t.clients[c] && t.clients[c][g] == Lifetimes(t.stored.access, t.stored.id, t.stored.refresh)
  {
    FaultlessRunKeepsInv(s, events);
  }

  // ---------------------------------------------------------------- repair

  /** What holds in every state of every run, faults included: the clients a pass has
      written have the lifetimes it writes. */
  ghost predicate Written(s: State) {
    match s.lock
    case Some(Applying(target, todo)) => forall c :: c in s.clients && c !in todo ==> s.clients[c] == Lifespans(target)
    case Some(Restoring(todo)) => forall c :: c in s.clients && c !in todo ==> s.clients[c] == Lifespans(s.stored)
    case Some(Stored(target)) => Agree(s, target)
    case _ => true
  }

  lemma {:induction false} EveryRunKeepsWritten(s: State, events: seq<Event>)
    requires s.lock.None?
    ensures Written(Exec(s, events))
    decreases |events|
  {
    if events != [] {
      EveryRunKeepsWritten(s, events[..|events| - 1]);
    }
  }

  /** However badly provider and policy disagree, a change that stores and commits, or one
      that finishes its restoring pass, ends in agreement. */
  lemma FinishedChangeRepairs(s: State, events: seq<Event>)
    requires s.lock.None?
    ensures var t := Exec(s, events);
      Enabled(t, Release(true)) && !t.lock.value.NotRestored? ==> Agree(Step(t, Release(true)), Step(t, Release(true)).stored)
  {
    EveryRunKeepsWritten(s, events);
  }

  // ---------------------------------------------------------------- the provisos are needed

  lemma ExecSnoc(s: State, events: seq<Event>, e: Event)
    ensures Exec(s, events + [e]) == Step(Exec(s, events), e)
  {
  }

  /** The change whose first client was updated and whose second call failed. */
  function HalfApplied(q: Policy, a: ClientId, b: ClientId): seq<Event> {
    [] + [BeginChange(q)] + [List(true)] + [Put(b, true, true)] + [Put(a, false, false)]
  }

  lemma HalfAppliedState(p: Policy, q: Policy, a: ClientId, b: ClientId)
    requires a != b
    ensures Exec(State(map[a := Lifespans(p), b := Lifespans(p)], p, None), HalfApplied(q, a, b))
         == State(map[a := Lifespans(p), b := Lifespans(q)], p, Some(RelistingToRestore))
  {
    var s := State(map[a := Lifespans(p), b := Lifespans(p)], p, None);
    var e0, e1, e2, e3: Event := BeginChange(q), List(true), Put(b, true, true), Put(a, false, false);
    ExecSnoc(s, [], e0);
    ExecSnoc(s, [] + [e0], e1);
    assert s.clients.Keys == {a, b};
    assert Exec(s, [] + [e0] + [e1]) == s.(lock := Some(Applying(q, {a, b})));
    ExecSnoc(s, [] + [e0] + [e1], e2);
    ExecSnoc(s, [] + [e0] + [e1] + [e2], e3);
  }

  /** Clients may be deleted without the policy lock. A deletion between the listing and the
      write of a restoring pass stops that pass, and the clients after it keep the
      lifetimes of a policy that was never stored. */
  lemma DeletionStopsRestoring(p: Policy, q: Policy, a: ClientId, b: ClientId)
    requires a != b && Lifespans(p) != Lifespans(q)
    ensures var s := State(map[a := Lifespans(p), b := Lifespans(p)], p, None);
      var t := Exec(s, HalfApplied(q, a, b) + [List(true)] + [DeleteClient(a)] + [Put(a, true, true)] + [Release(true)]);
      t.lock.None? && t.stored == p && b in t.clients && t.clients[b] == Lifespans(q)
  {
    var s := State(map[a := Lifespans(p), b := Lifespans(p)], p, None);
    var h := HalfApplied(q, a, b);
    var e0, e1, e2, e3: Event := List(true), DeleteClient(a), Put(a, true, true), Release(true);
    HalfAppliedState(p, q, a, b);
    ExecSnoc(s, h, e0);
    ExecSnoc(s, h + [e0], e1);
    ExecSnoc(s, h + [e0] + [e1], e2);
    ExecSnoc(s, h + [e0] + [e1] + [e2], e3);
    assert Exec(s, h + [e0]).lock.value.todo == Exec(s, h).clients.Keys;
    var t := Exec(s, h + [e0] + [e1]);
    assert a !in t.clients && b in t.clients && t.clients[b] == Lifespans(q);
  }

  /** Exactly when a commit that fails does no harm: in any state a run reaches, the release
      of a stored change whose commit fails leaves agreement if and only if there is no
      client or the two policies have the same token lifetimes. */
  lemma FailedCommitAgreesIff(s: State, target: Policy)
    requires Written(s) && s.lock == Some(Stored(target))
    ensures Agree(Step(s, Release(false)), s.stored) <==> s.clients == map[] || Lifespans(target) == Lifespans(s.stored)
  {
    if s.clients != map[] {
      var c :| c in s.clients;
      assert s.clients[c] == Lifespans(target);
    }
  }

  /** Exactly when a process may die in the middle of the forward pass: in any state a
      faultless run reaches, nothing was written yet, or the two policies have the same
      token lifetimes. */
  lemma DeathAgreesIff(s: State, target: Policy, todo: set<ClientId>)
    requires Inv(s) && s.lock == Some(Applying(target, todo))
    ensures Agree(Step(s, Die), s.stored) <==> s.clients.Keys <= todo || Lifespans(target) == Lifespans(s.stored)
  {
    if !(s.clients.Keys <= todo) {
      var c :| c in s.clients.Keys && c !in todo;
      assert s.clients[c] == Lifespans(target);
    }
  }

  /** A commit that fails after the provider was updated leaves the provider ahead. */
  lemma FailedCommitDisagrees(p: Policy, q: Policy, a: ClientId)
    requires Lifespans(p) != Lifespans(q)
    ensures var s := State(map[a := Lifespans(p)], p, None);
      var t := Exec(s, [] + [BeginChange(q)] + [List(true)] + [Put(a, true, true)] + [Store(true)] + [Release(false)]);
      t.lock.None? && t.stored == p && a in t.clients && t.clients[a] == Lifespans(q)
  {
    var s := State(map[a := Lifespans(p)], p, None);
    var e0, e1, e2, e3, e4: Event := BeginChange(q), List(true), Put(a, true, true), Store(true), Release(false);
    ExecSnoc(s, [], e0);
    ExecSnoc(s, [] + [e0], e1);
    assert s.clients.Keys == {a};
    assert Exec(s, [] + [e0] + [e1]) == s.(lock := Some(Applying(q, {a})));
    ExecSnoc(s, [] + [e0] + [e1], e2);
    assert {a} - {a} == {};
    ExecSnoc(s, [] + [e0] + [e1] + [e2], e3);
    ExecSnoc(s, [] + [e0] + [e1] + [e2] + [e3], e4);
  }
}
