/** One change of the session policy as the server makes it, call by call: the pass over the
    listed clients, the store, the restoring pass after a failure, and the commit. */
module PolicyChange {
  import opened Common
  import opened PolicyAgreement

  /** What the provider does with a write, and which clients others delete before it. */
  datatype Reply = Reply(gone: seq<ClientId>, effective: bool, answered: bool)

  /** How the calls of one pass fare: whether the listing answers, and the reply to each write. */
  datatype Script = Script(listed: bool, replies: map<ClientId, Reply>)

  const SMOOTH := Reply([], true, true)

  function ReplyTo(script: Script, c: ClientId): Reply {
    if c in script.replies then script.replies[c] else SMOOTH
  }

  function Deletions(gone: seq<ClientId>): seq<Event> {
    if gone == [] then [] else Deletions(gone[..|gone| - 1]) + [DeleteClient(gone[|gone| - 1])]
  }

  function Members(gone: seq<ClientId>): set<ClientId> {
    set c | c in gone
  }

  lemma DeletionsNext(gone: seq<ClientId>, i: nat)
    requires i < |gone|
    ensures Deletions(gone[..i + 1]) == Deletions(gone[..i]) + [DeleteClient(gone[i])]
    ensures Members(gone[..i + 1]) == Members(gone[..i]) + {gone[i]}
  {
    assert gone[..i + 1][..i] == gone[..i] && gone[..i + 1] == gone[..i] + [gone[i]];
  }

  // ---------------------------------------------------------------- when a pass succeeds

  /** The order in which the provider lists clients; it names each of these once. */
  ghost predicate Lists(directory: seq<ClientId>, clients: set<ClientId>) {
    && (forall c :: c in clients ==> c in directory)
    && (forall i, j :: 0 <= i < j < |directory| ==> directory[i] != directory[j])
  }

  /** The clients left, and whether no call has failed yet. */
  datatype Progress = Progress(alive: set<ClientId>, going: bool)

  /** A pass over the listed clients, after the first n names of the directory. */
  function PassTo(listed: set<ClientId>, directory: seq<ClientId>, script: Script, n: nat): Progress
    requires n <= |directory|
  {
    if n == 0 then Progress(listed, true)
    else
      var before, c := PassTo(listed, directory, script, n - 1), directory[n - 1];
      if !before.going || c !in listed then before
      else
        var alive := before.alive - Members(ReplyTo(script, c).gone);
        Progress(alive, ReplyTo(script, c).effective && ReplyTo(script, c).answered && c in alive)
  }

  /** A whole pass: without a listing nothing is written. */
  function PassEnd(clients: set<ClientId>, directory: seq<ClientId>, script: Script): Progress {
    if script.listed then PassTo(clients, directory, script, |directory|) else Progress(clients, false)
  }

  /** The listed clients from the i-th name on. */
  ghost function Left(listed: set<ClientId>, directory: seq<ClientId>, i: nat): set<ClientId>
    requires i <= |directory|
  {
    set c | c in listed && c in directory[i..]
  }

  lemma LeftNext(listed: set<ClientId>, directory: seq<ClientId>, i: nat)
    requires i < |directory| && Lists(directory, listed)
    ensures Left(listed, directory, i + 1) == Left(listed, directory, i) - {directory[i]}
    ensures directory[i] in listed <==> directory[i] in Left(listed, directory, i)
    ensures directory[i] !in listed ==> Left(listed, directory, i + 1) == Left(listed, directory, i)
  {
    assert directory[i..] == [directory[i]] + directory[i + 1..];
  }

  lemma LeftAtEnds(listed: set<ClientId>, directory: seq<ClientId>)
    requires Lists(directory, listed)
    ensures Left(listed, directory, 0) == listed && Left(listed, directory, |directory|) == {}
  {
    assert directory[0..] == directory;
  }

  /** Deleted by the time of the write to the i-th name, when the pass gets that far. */
  ghost predicate GoneBy(listed: set<ClientId>, directory: seq<ClientId>, script: Script, c: ClientId, i: nat)
    requires i <= |directory|
  {
    exists k :: 0 <= k < i && directory[k] in listed && c in ReplyTo(script, directory[k]).gone
  }

  /** The write to the i-th name takes effect and is answered, its client not deleted before. */
  ghost predicate WriteLands(listed: set<ClientId>, directory: seq<ClientId>, script: Script, i: nat)
    requires i < |directory|
  {
    var c := directory[i];
    ReplyTo(script, c).effective && ReplyTo(script, c).answered && !GoneBy(listed, directory, script, c, i + 1)
  }

  lemma {:induction false} PassGoesOnIff(listed: set<ClientId>, directory: seq<ClientId>, script: Script, n: nat)
    requires n <= |directory|
    ensures var p := PassTo(listed, directory, script, n);
      && (p.going <==> forall i :: 0 <= i < n && directory[i] in listed ==> WriteLands(listed, directory, script, i))
      && (p.going ==> forall c :: c in p.alive <==> c in listed && !GoneBy(listed, directory, script, c, n))
  {
    if n > 0 {
      PassGoesOnIff(listed, directory, script, n - 1);
      var before, c := PassTo(listed, directory, script, n - 1), directory[n - 1];
      forall x
        ensures GoneBy(listed, directory, script, x, n)
          <==> GoneBy(listed, directory, script, x, n - 1) || (c in listed && x in ReplyTo(script, c).gone)
      {
      }
    }
  }

  /** Exactly when a pass writes every client: the listing answered, every write took effect
      and was answered, and no listed client was deleted before its write. */
  lemma PassSucceedsIff(clients: set<ClientId>, directory: seq<ClientId>, script: Script)
    ensures PassEnd(clients, directory, script).going <==>
      script.listed && forall i :: 0 <= i < |directory| && directory[i] in clients ==> WriteLands(clients, directory, script, i)
  {
    PassGoesOnIff(clients, directory, script, |directory|);
  }

  // ---------------------------------------------------------------- the change

  datatype Outcome = Changed | Restored | Unrestored | CommitFailed

  class Server {
    var clients: map<ClientId, map<GrantType, Lifetimes>>
    var stored: Policy
    ghost var lock: Option<Work>

    /** The run so far, from the moment the change began. */
    ghost var origin: State
    ghost var trace: seq<Event>

    ghost function Now(): State
      reads this
    {
      State(clients, stored, lock)
    }

    ghost predicate Traced()
      reads this
    {
      Now() == Exec(origin, trace) && origin.lock.None?
    }

    ghost method Record(e: Event)
      requires Traced()
      modifies this`trace, this`lock
      ensures trace == old(trace) + [e] && lock == Step(old(Now()), e).lock
      ensures Exec(origin, trace) == Step(old(Now()), e)
    {
      ExecSnoc(origin, trace, e);
      lock := Step(Now(), e).lock;
      trace := trace + [e];
    }

    method DeleteOne(c: ClientId)
      requires Traced()
      modifies this`clients, this`trace, this`lock
      ensures Traced() && lock == old(lock) && clients.Keys == old(clients.Keys) - {c} && trace == old(trace) + [DeleteClient(c)]
    {
      Record(DeleteClient(c));
      clients := clients - {c};
    }

    /** Other requests delete clients; they need no policy lock. */
    method Interfere(gone: seq<ClientId>)
      requires Traced()
      modifies this`clients, this`trace, this`lock
      ensures Traced() && lock == old(lock) && clients.Keys == old(clients.Keys) - Members(gone)
      ensures trace == old(trace) + Deletions(gone)
    {
      var i := 0;
      while i < |gone|
        invariant 0 <= i <= |gone| && Traced() && lock == old(lock)
        invariant clients.Keys == old(clients.Keys) - Members(gone[..i])
        invariant trace == old(trace) + Deletions(gone[..i])
      {
        DeleteOne(gone[i]);
        DeletionsNext(gone, i);
        i := i + 1;
      }
      assert gone[..i] == gone;
    }

    /** Write one client's lifetimes. */
    method PutLifespans(c: ClientId, policy: Policy, reply: Reply) returns (ok: bool)
      requires Traced() && Target(Now()) == policy
      requires lock.Some? && (lock.value.Applying? || lock.value.Restoring?) && c in lock.value.todo
      modifies this`clients, this`trace, this`lock
      ensures Traced()
      ensures lock == Some(if ok then Pass(old(lock.value), old(lock.value.todo) - {c}) else Failed(old(lock.value)))
      ensures clients.Keys == old(clients.Keys) - Members(reply.gone)
      ensures ok <==> reply.effective && reply.answered && c in clients
    {
      Interfere(reply.gone);
      ok := reply.effective && c in clients;
      Record(Put(c, reply.effective, reply.answered));
      if ok {
        clients := clients[c := Lifespans(policy)];
      }
      ok := ok && reply.answered;
    }

    /** List the clients, then write each one's lifetimes; the first failure ends the pass. */
    method ApplyHydraSessionPolicy(policy: Policy, directory: seq<ClientId>, script: Script) returns (ok: bool)
      requires Traced() && Target(Now()) == policy && Lists(directory, clients.Keys)
      requires lock == Some(Listing(policy)) || lock == Some(RelistingToRestore)
      modifies this`clients, this`trace, this`lock
      ensures Traced()
      ensures lock == Some(if ok then Pass(old(lock.value), {}) else Failed(old(lock.value)))
      ensures Progress(clients.Keys, ok) == PassEnd(old(clients.Keys), directory, script)
    {
      var listed := clients.Keys;
      Record(List(script.listed));
      if !script.listed {
        return false;
      }
      LeftAtEnds(listed, directory);
      ok := WriteClients(policy, listed, directory, script);
    }

    /** The loop over the listed clients. */
    method WriteClients(policy: Policy, listed: set<ClientId>, directory: seq<ClientId>, script: Script) returns (ok: bool)
      requires Traced() && Target(Now()) == policy && Lists(directory, listed) && clients.Keys == listed
      requires lock.Some? && (lock.value.Applying? || lock.value.Restoring?) && lock == Some(Pass(lock.value, Left(listed, directory, 0)))
      modifies this`clients, this`trace, this`lock
      ensures Traced()
      ensures lock == Some(if ok then Pass(old(lock.value), {}) else Failed(old(lock.value)))
      ensures Progress(clients.Keys, ok) == PassTo(listed, directory, script, |directory|)
    {
      var i := 0;
      while i < |directory|
        invariant 0 <= i <= |directory| && Traced() && lock == Some(Pass(old(lock.value), Left(listed, directory, i)))
        invariant PassTo(listed, directory, script, i) == Progress(clients.Keys, true)
      {
        var c := directory[i];
        LeftNext(listed, directory, i);
        if c in listed {
          var written := PutLifespans(c, policy, ReplyTo(script, c));
          if !written {
            PassStays(listed, directory, script, i + 1, |directory|);
            return false;
          }
        }
        i := i + 1;
      }
      LeftAtEnds(listed, directory);
      return true;
    }

    /** UPDATE session_policy inside the lock's transaction. */
    method StorePolicy(policy: Policy, ok: bool)
      requires Traced() && lock == Some(Applying(policy, {}))
      modifies this`trace, this`lock
      ensures Traced() && lock == Some(if ok then Stored(policy) else RelistingToRestore)
    {
      Record(Store(ok));
    }

    /** The lock's transaction ends, committing what was stored in it unless the commit fails. */
    method ReleaseLock(policy: Policy, changed: bool, committed: bool)
      requires Traced() && changed == (lock == Some(Stored(policy)))
      requires lock in {Some(Stored(policy)), Some(Restoring({})), Some(NotRestored)}
      modifies this`stored, this`trace, this`lock
      ensures Traced() && lock.None?
      ensures stored == if changed && committed then policy else old(stored)
      ensures changed ==> Agree(Now(), policy)
      ensures !changed && !old(lock).value.NotRestored? ==> Agree(Now(), stored)
    {
      EveryRunKeepsWritten(origin, trace);
      Record(Release(committed));
      if changed && committed {
        stored := policy;
      }
    }

    /** Apply, then store; when either fails, apply the previous policy again. The run is one
        of the machine's and ends with the lock free. Which of the four outcomes it has is
        decided by the calls exactly as stated; after the first two every client has the
        stored policy, and after a failed commit every client has the one that was not stored. */
    method ReplaceSessionPolicy(policy: Policy, directory: seq<ClientId>, forward: Script, kept: bool, backward: Script, committed: bool)
      returns (outcome: Outcome)
      requires lock.None? && Lists(directory, clients.Keys)
      modifies this
      ensures Traced() && lock.None? && origin == old(Now())
      ensures var first := PassEnd(old(clients.Keys), directory, forward);
        outcome == if first.going && kept then (if committed then Changed else CommitFailed)
                   else if PassEnd(first.alive, directory, backward).going then Restored else Unrestored
      ensures stored == if outcome == Changed then policy else old(stored)
      ensures outcome == Changed || outcome == Restored ==> Agree(Now(), stored)
      ensures outcome == CommitFailed ==> Agree(Now(), policy)
    {
      origin, trace := Now(), [];
      var previous := stored;
      Record(BeginChange(policy));
      var ok := ApplyHydraSessionPolicy(policy, directory, forward);
      if ok {
        StorePolicy(policy, kept);
        ok := kept;
      }
      if ok {
        outcome := if committed then Changed else CommitFailed;
      } else {
        PassOnlyShrinks(old(clients.Keys), directory, forward, |directory|);
        var restored := ApplyHydraSessionPolicy(previous, directory, backward);
        outcome := if restored then Restored else Unrestored;
      }
      ReleaseLock(policy, ok, committed);
    }
  }

  /** A pass that has failed goes no further. */
  lemma {:induction false} PassStays(listed: set<ClientId>, directory: seq<ClientId>, script: Script, i: nat, n: nat)
    requires i <= n <= |directory| && !PassTo(listed, directory, script, i).going
    ensures PassTo(listed, directory, script, n) == PassTo(listed, directory, script, i)
    decreases n
  {
    if i < n {
      PassStays(listed, directory, script, i, n - 1);
    }
  }

  lemma {:induction false} PassOnlyShrinks(listed: set<ClientId>, directory: seq<ClientId>, script: Script, n: nat)
    requires n <= |directory|
    ensures PassTo(listed, directory, script, n).alive <= listed
  {
    if n > 0 {
      PassOnlyShrinks(listed, directory, script, n - 1);
    }
  }
}
