/** The answer Shauth gives Ory Hydra before any token is issued. */
module TokenHook {
  import opened Common
  import opened Accounts
  import Containment

  datatype GrantKind = AccountGrant | ClientGrant | OtherGrant

  predicate IsAccountGrant(grant: string) {
    grant == "authorization_code" || grant == "refresh_token"
  }

  /** Only the authorization-code exchange and its refreshes carry a person. */
  function TokenHookGrant(grants: seq<string>): GrantKind {
    if grants != [] && forall i :: 0 <= i < |grants| ==> IsAccountGrant(grants[i]) then AccountGrant
    else if grants == ["client_credentials"] then ClientGrant
    else OtherGrant
  }

  /** The classification as the code scans for it. */
  method ClassifyGrants(grants: seq<string>) returns (kind: GrantKind)
    ensures kind == TokenHookGrant(grants)
  {
    if |grants| == 0 {
      return OtherGrant;
    }
    for i := 0 to |grants|
      invariant forall j :: 0 <= j < i ==> IsAccountGrant(grants[j])
    {
      var grant := grants[i];
      if grant != "authorization_code" && grant != "refresh_token" {
        assert !IsAccountGrant(grants[i]);
        if |grants| == 1 && grant == "client_credentials" {
          assert grants == [grant];
          return ClientGrant;
        }
        return OtherGrant;
      }
    }
    return AccountGrant;
  }

  type Claims = map<string, string>

  const IDENTITY_KEYS: set<string> := {"sub", "email", "email_verified", "preferred_username", "role"}

  function IdentityClaims(id: Uuid, profile: Profile): Claims {
    map["sub" := id.text, "email" := profile.email, "email_verified" := profile.emailVerified,
        "preferred_username" := profile.username, "role" := profile.role]
  }

  /** What Hydra sends: the grants, the subject in the claims and on the session, the
      login session, and the claims it already holds. */
  datatype HookRequest = HookRequest(
    grants: seq<string>, claimSubject: string, sessionSubject: string, sid: Sid, idExtra: Claims, accessExtra: Claims)

  datatype Answer = NoContent | Forbidden | Tokens(user: Uuid, access: Claims, id: Claims)

  function SubjectOf(request: HookRequest): Uuid {
    Uuid(if request.claimSubject != "" then request.claimSubject else request.sessionSubject)
  }

  /** The first read: an account grant whose sign-in session is in force for its subject. */
  predicate SessionReadPasses(t: Tables, request: HookRequest) {
    && TokenHookGrant(request.grants) == AccountGrant && request.sid.text != ""
    && ProviderSessionAccount(t, request.sid) == Some((SubjectOf(request), true))
  }

  /** The hook reads the sign-in session and then the account; the two reads may see
      different states. */
  function HookAnswer(sessionRead: Tables, accountRead: Tables, request: HookRequest): Answer {
    var subject := SubjectOf(request);
    if TokenHookGrant(request.grants) == ClientGrant then NoContent
    else if !SessionReadPasses(sessionRead, request) || !Active(accountRead, subject) then Forbidden
    else
      var claims := IdentityClaims(subject, accountRead.users[subject].profile);
      Tokens(subject, request.accessExtra + claims, request.idExtra + claims)
  }

  /** When the hook answers what, in columns: nothing to add for a client acting for itself;
      tokens for grants that are all code exchanges or refreshes, whose login session belongs
      to an unrevoked browser session of the subject, when the account is there and not
      disabled; a refusal otherwise. */
  lemma HookAnswersIff(sessionRead: Tables, accountRead: Tables, request: HookRequest)
    ensures var answer := HookAnswer(sessionRead, accountRead, request);
      && (answer.NoContent? <==> |request.grants| == 1 && request.grants[0] == "client_credentials")
      && (answer.Tokens? <==>
            && request.grants != []
            && (forall i :: 0 <= i < |request.grants| ==> request.grants[i] == "authorization_code" || request.grants[i] == "refresh_token")
            && request.sid.text != "" && request.sid in sessionRead.links
            && sessionRead.links[request.sid].browser in sessionRead.sessions
            && sessionRead.sessions[sessionRead.links[request.sid].browser].revokedAt == None
            && sessionRead.sessions[sessionRead.links[request.sid].browser].user == SubjectOf(request)
            && SubjectOf(request) in accountRead.users && accountRead.users[SubjectOf(request)].disabledAt == None)
      && (request.claimSubject != "" ==> SubjectOf(request).text == request.claimSubject)
      && (request.claimSubject == "" ==> SubjectOf(request).text == request.sessionSubject)
  {
    var grants := request.grants;
    if |grants| == 1 && grants[0] == "client_credentials" {
      assert grants == ["client_credentials"] && !IsAccountGrant(grants[0]);
    }
    assert (forall i :: 0 <= i < |grants| ==> IsAccountGrant(grants[i]))
      <==> (forall i :: 0 <= i < |grants| ==> grants[i] == "authorization_code" || grants[i] == "refresh_token");
  }

  /** The claims replace the identity of the account as its row stands, and keep every
      other claim the provider held, its login session among them. */
  predicate CarriesAccount(claims: Claims, held: Claims, id: Uuid, profile: Profile, key: string) {
    && claims.Keys == held.Keys + IDENTITY_KEYS
    && claims["sub"] == id.text && claims["role"] == profile.role && claims["email"] == profile.email
    && claims["email_verified"] == profile.emailVerified && claims["preferred_username"] == profile.username
    && (key in held && key !in IDENTITY_KEYS ==> claims[key] == held[key])
  }

  /** Issued tokens carry the subject's identity as the account read found it. */
  lemma IssuedClaimsAreCurrent(sessionRead: Tables, accountRead: Tables, request: HookRequest, key: string)
    requires HookAnswer(sessionRead, accountRead, request).Tokens?
    ensures var answer := HookAnswer(sessionRead, accountRead, request);
      && answer.user == SubjectOf(request) && answer.user in accountRead.users
      && CarriesAccount(answer.id, request.idExtra, answer.user, accountRead.users[answer.user].profile, key)
      && CarriesAccount(answer.access, request.accessExtra, answer.user, accountRead.users[answer.user].profile, key)
  {
    var claims := IdentityClaims(SubjectOf(request), accountRead.users[SubjectOf(request)].profile);
    assert claims.Keys == IDENTITY_KEYS;
  }

  // ---------------------------------------------------------------- across a disable

  /** Once the account is disabled, a hook that reads the sign-in session afterwards
      issues a token only if the account was enabled, then signed in, then had this
      provider session recorded for the new browser session; and the account is active
      at its second read. */
  lemma NoTokenAfterDisableUntilSignIn(t: Tables, events: seq<Event>, first: nat, second: nat, request: HookRequest)
    returns (i: nat, j: nat, m: nat)
    requires Containment.Inv(t) && first <= second <= |events|
    requires SubjectOf(request) in t.users && t.users[SubjectOf(request)].disabledAt.Some?
    requires HookAnswer(Exec(t, events[..first]), Exec(t, events[..second]), request).Tokens?
    ensures i < j < m < first
    ensures Containment.HappensAt(t, events, i) && events[i] == Enable(SubjectOf(request))
    ensures Containment.HappensAt(t, events, j) && events[j].CreateSession? && events[j].user == SubjectOf(request)
    ensures Containment.HappensAt(t, events, m) && events[m].Record? && events[m].sid == request.sid && events[m].browser == events[j].id
    ensures Active(Exec(t, events[..second]), SubjectOf(request))
  {
    i, j, m := Containment.InForceAgainOnlyAfterSignIn(t, events[..first], request.sid, SubjectOf(request));
    Containment.PrefixHappenings(t, events, first, i);
    Containment.PrefixHappenings(t, events, first, j);
    Containment.PrefixHappenings(t, events, first, m);
  }

  /** A hook that made its session read before the disabling at d and its account read after
      it issues a token if and only if the account was enabled in between, after d, and not
      disabled since: no new sign-in is asked for. */
  lemma HookAcrossDisableIssuesIff(t: Tables, events: seq<Event>, first: nat, d: nat, second: nat, request: HookRequest)
    requires first <= d < second <= |events| && SessionReadPasses(Exec(t, events[..first]), request)
    requires Containment.HappensAt(t, events, d) && events[d].Disable? && events[d].user == SubjectOf(request)
    ensures HookAnswer(Exec(t, events[..first]), Exec(t, events[..second]), request).Tokens?
      <==> Containment.EnabledSince(t, events[..second], d, SubjectOf(request))
  {
    assert events[..second][..d] == events[..d];
    Containment.ActiveIffEnabledSince(t, events[..second], d, SubjectOf(request));
  }

  /** Both kinds exist: disabled and enabled between its two reads, a hook issues a token
      that a hook starting now is refused. */
  lemma HookAcrossDisableAndEnableIssues(t: Tables, request: HookRequest, now: Time)
    requires Containment.Inv(t) && HookAnswer(t, t, request).Tokens?
    requires !t.users[SubjectOf(request)].isValidation
    ensures var later := Step(Step(t, Disable(SubjectOf(request), now)), Enable(SubjectOf(request)));
      HookAnswer(t, later, request).Tokens? && HookAnswer(later, later, request).Forbidden?
  {
  }
}
