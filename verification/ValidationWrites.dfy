/** Catalog changes as one-row writes: what each is refused for, and what it leaves. */
module ValidationWrites {
  import opened Common
  import opened Catalog
  import opened ValidationQueue
  import opened ValidationExclusion
  import opened ValidationAgreement
  import opened ValidationCreations

  /** What a transaction does to the catalog: one row, or nothing for an explicit request. */
  datatype Write = Insert(app: ManagedApp) | Update(app: ManagedApp) | Remove(id: Uuid) | Nothing

  /** The write its statement makes of a change. */
  function WriteOf(apps: seq<ManagedApp>, change: Change): Write {
    match change
    case CreateApp(app) => Insert(app)
    case ReconcileBootstrap(app) =>
      var i := SlugIndex(apps, app.slug);
      if i < 0 then Insert(app) else Update(app.(id := apps[i].id))
    case ReconcileContract(appId, contractHash) =>
      var i := IndexOf(apps, appId);
      if i < 0 then Nothing else Update(apps[i].(contractHash := contractHash))
    case DeleteApp(slug, _) =>
      var i := SlugIndex(apps, slug);
      if i < 0 then Nothing else Remove(apps[i].id)
  }

  /** The row it locks; a row it inserts is seen by no one else. */
  function Locks(w: Write): set<Uuid> {
    match w
    case Update(app) => {app.id}
    case Remove(id) => {id}
    case _ => {}
  }

  ghost predicate Applicable(apps: seq<ManagedApp>, w: Write) {
    match w
    case Insert(app) => forall r :: r in apps ==> r.slug != app.slug && r.clientID != app.clientID && r.id != app.id
    case Update(app) => exists r :: r in apps && r.id == app.id && r.slug == app.slug && r.clientID == app.clientID
    case Remove(id) => exists r :: r in apps && r.id == id
    case Nothing => true
  }

  function Apply(apps: seq<ManagedApp>, w: Write): seq<ManagedApp> {
    match w
    case Insert(app) => InsertBySlug(apps, app)
    case Update(app) => var i := IndexOf(apps, app.id); if i < 0 then apps else apps[i := app]
    case Remove(id) => var i := IndexOf(apps, id); if i < 0 then apps else apps[..i] + apps[i + 1..]
    case Nothing => apps
  }

  /** A row after a write. */
  predicate RowAfter(apps: seq<ManagedApp>, w: Write, r: ManagedApp) {
    match w
    case Insert(app) => r in apps || r == app
    case Update(app) => r == app || (r in apps && r.id != app.id)
    case Remove(id) => r in apps && r.id != id
    case Nothing => r in apps
  }

  lemma AppliedRows(apps: seq<ManagedApp>, w: Write, r: ManagedApp)
    requires CatalogOk(apps) && Applicable(apps, w)
    ensures r in Apply(apps, w) <==> RowAfter(apps, w, r)
  {
    match w
    case Insert(app) => InsertedRows(apps, app, r);
    case Update(app) =>
      var i := IndexOf(apps, app.id);
      assert apps[i := app][i] == app;
      assert forall j :: 0 <= j < |apps| && j != i ==> apps[i := app][j] == apps[j];
    case Remove(id) =>
      var i := IndexOf(apps, id);
      assert apps == apps[..i] + [apps[i]] + apps[i + 1..];
      assert forall j :: 0 <= j < |apps| && j != i ==> apps[j].id != id;
    case Nothing =>
  }

  lemma ApplyingKeepsCatalogOk(apps: seq<ManagedApp>, w: Write)
    requires CatalogOk(apps) && Applicable(apps, w)
    ensures CatalogOk(Apply(apps, w))
  {
    match w
    case Insert(app) =>
      assert forall i :: 0 <= i < |apps| ==> apps[i] in apps;
      InsertingKeepsCatalogOk(apps, app);
    case Update(app) =>
      var i := IndexOf(apps, app.id);
      var r :| r in apps && r.id == app.id && r.slug == app.slug && r.clientID == app.clientID;
      assert apps[i] == r;
    case Remove(id) => RemovingKeepsCatalogOk(apps, IndexOf(apps, id));
    case Nothing =>
  }

  /** Applying the write is the change, and a write can be made exactly when the change is not refused. */
  lemma WriteIsChange(apps: seq<ManagedApp>, change: Change)
    requires CatalogOk(apps) && Changed(apps, change).Some?
    ensures Applicable(apps, WriteOf(apps, change)) && Changed(apps, change).value == Apply(apps, WriteOf(apps, change))
  {
    match change
    case CreateApp(app) =>
    case ReconcileBootstrap(app) =>
      var i := SlugIndex(apps, app.slug);
      if i >= 0 {
        assert apps[i] in apps && IndexOf(apps, apps[i].id) == i;
      }
    case ReconcileContract(appId, _) =>
      var i := IndexOf(apps, appId);
      assert apps[i] in apps;
    case DeleteApp(slug, _) =>
      var i := SlugIndex(apps, slug);
      assert apps[i] in apps && IndexOf(apps, apps[i].id) == i;
  }

  // ---------------------------------------------------------------- changes in columns

  ghost predicate SlugTaken(apps: seq<ManagedApp>, slug: string) { exists x :: x in apps && x.slug == slug }

  ghost predicate ClientOrIdTaken(apps: seq<ManagedApp>, app: ManagedApp) {
    exists x :: x in apps && (x.clientID == app.clientID || x.id == app.id)
  }

  /** The change is refused. */
  ghost predicate Refused(apps: seq<ManagedApp>, change: Change) {
    match change
    case CreateApp(app) => SlugTaken(apps, app.slug) || ClientOrIdTaken(apps, app)
    case ReconcileBootstrap(app) =>
      if SlugTaken(apps, app.slug) then exists x :: x in apps && x.slug == app.slug && x.clientID != app.clientID
      else ClientOrIdTaken(apps, app)
    case ReconcileContract(appId, _) => forall x :: x in apps ==> x.id != appId
    case DeleteApp(slug, deploymentOwned) => slug in deploymentOwned || !SlugTaken(apps, slug)
  }

  /** The row is in the catalog after the change. */
  ghost predicate InAfter(apps: seq<ManagedApp>, change: Change, r: ManagedApp) {
    match change
    case CreateApp(app) => r in apps || r == app
    case ReconcileBootstrap(app) =>
      if r.slug != app.slug then r in apps
      else r == app.(id := r.id) && if SlugTaken(apps, app.slug) then exists x :: x in apps && x.slug == app.slug && x.id == r.id else r.id == app.id
    case ReconcileContract(appId, contractHash) =>
      if r.id != appId then r in apps else exists x :: x in apps && x.id == appId && r == x.(contractHash := contractHash)
    case DeleteApp(slug, _) => r in apps && r.slug != slug
  }

  lemma SlugIndexIsTaken(apps: seq<ManagedApp>, slug: string)
    ensures SlugIndex(apps, slug) >= 0 <==> SlugTaken(apps, slug)
    ensures SlugIndex(apps, slug) >= 0 ==> apps[SlugIndex(apps, slug)] in apps
  {
  }

  lemma RefusedInColumns(apps: seq<ManagedApp>, change: Change)
    requires CatalogOk(apps)
    ensures Changed(apps, change).None? <==> Refused(apps, change)
  {
    assert forall i :: 0 <= i < |apps| ==> apps[i] in apps;
    match change
    case CreateApp(app) => SlugIndexIsTaken(apps, app.slug);
    case ReconcileBootstrap(app) =>
      SlugIndexIsTaken(apps, app.slug);
      forall x | x in apps && x.slug == app.slug
        ensures x == apps[SlugIndex(apps, app.slug)]
      {
        OneRowPerSlug(apps, x, apps[SlugIndex(apps, app.slug)]);
      }
    case ReconcileContract(_, _) =>
    case DeleteApp(slug, _) => SlugIndexIsTaken(apps, slug);
  }

  lemma OneRowPerSlug(apps: seq<ManagedApp>, a: ManagedApp, b: ManagedApp)
    requires SlugOrdered(apps) && a in apps && b in apps && a.slug == b.slug
    ensures a == b
  {
    if a != b {
      SlugsTellRowsApart(apps, a, b);
    }
  }

  lemma OneRowPerId(apps: seq<ManagedApp>, a: ManagedApp, b: ManagedApp)
    requires UniqueIds(apps) && a in apps && b in apps && a.id == b.id
    ensures a == b
  {
    if a != b {
      IdsTellRowsApart(apps, a, b);
    }
  }

  /** What each change makes of the catalog, row by row. */
  lemma ChangeInColumns(apps: seq<ManagedApp>, change: Change, r: ManagedApp)
    requires CatalogOk(apps) && Changed(apps, change).Some?
    ensures r in Changed(apps, change).value <==> InAfter(apps, change, r)
  {
    WriteIsChange(apps, change);
    AppliedRows(apps, WriteOf(apps, change), r);
    match change
    case CreateApp(_) =>
    case ReconcileBootstrap(app) =>
      SlugIndexIsTaken(apps, app.slug);
      var i := SlugIndex(apps, app.slug);
      if i >= 0 {
        forall x | x in apps
          ensures (x.slug == app.slug <==> x == apps[i]) && (x.id == apps[i].id <==> x == apps[i])
        {
          SameRowBySlugOrId(apps, x, apps[i]);
        }
      }
    case ReconcileContract(appId, _) =>
      var i := IndexOf(apps, appId);
      forall x | x in apps
        ensures x.id == appId <==> x == apps[i]
      {
        SameRowBySlugOrId(apps, x, apps[i]);
      }
    case DeleteApp(slug, _) =>
      SlugIndexIsTaken(apps, slug);
      var i := SlugIndex(apps, slug);
      forall x | x in apps
        ensures (x.slug == slug <==> x == apps[i]) && (x.id == apps[i].id <==> x == apps[i])
      {
        SameRowBySlugOrId(apps, x, apps[i]);
      }
  }

  lemma SameRowBySlugOrId(apps: seq<ManagedApp>, x: ManagedApp, y: ManagedApp)
    requires CatalogOk(apps) && x in apps && y in apps
    ensures x.slug == y.slug <==> x == y
    ensures x.id == y.id <==> x == y
  {
    if x.slug == y.slug {
      OneRowPerSlug(apps, x, y);
    }
    if x.id == y.id {
      OneRowPerId(apps, x, y);
    }
  }

  /** A change requeues exactly when it changed the catalog. */
  lemma RequeuesIffChanged(apps: seq<ManagedApp>, change: Change)
    requires CatalogOk(apps) && Changed(apps, change).Some?
    ensures Requeues(apps, change) <==> Changed(apps, change).value != apps
  {
    match change
    case CreateApp(app) => assert |InsertBySlug(apps, app)| == |apps| + 1;
    case ReconcileBootstrap(app) =>
      if SlugIndex(apps, app.slug) < 0 {
        assert |InsertBySlug(apps, app)| == |apps| + 1;
      }
    case ReconcileContract(_, _) =>
    case DeleteApp(slug, _) =>
  }

  /** The run the identity is checked out to is gone. */
  predicate LosesRun(s: State, t: State, u: Uuid)
    requires u in s.pool
  {
    var run := s.pool[u].checkedOut;
    run.Some? && run.value in s.runs && run.value !in t.runs
  }

  /** A deletion that cascades takes the runs of the deleted application, and only those, and
      frees their identities; nothing else touches runs or identities. */
  lemma CascadeInColumns(s: State, change: Change, cascade: bool)
    requires CatalogOk(s.catalog) && Changed(s.catalog, change).Some?
    ensures var t := AfterCascade(s, change, cascade);
      && (forall id :: id in s.runs ==> (id in t.runs <==>
            !(cascade && change.DeleteApp? && exists x :: x in s.catalog && x.slug == change.slug && x.id == s.runs[id].target.appId)))
      && (forall id :: id in t.runs ==> id in s.runs && t.runs[id] == s.runs[id])
      && t.pool.Keys == s.pool.Keys
      && (forall u :: u in s.pool ==> t.pool[u] == if LosesRun(s, t, u) then s.pool[u].(checkedOut := None) else s.pool[u])
  {
    if change.DeleteApp? {
      SlugIndexIsTaken(s.catalog, change.slug);
      var i := SlugIndex(s.catalog, change.slug);
      forall x | x in s.catalog && x.slug == change.slug
        ensures x == s.catalog[i]
      {
        OneRowPerSlug(s.catalog, x, s.catalog[i]);
      }
    }
  }

  /** Two writes that lock different rows and insert nothing alike. */
  predicate Independent(v: Write, w: Write) {
    && Locks(v) !! Locks(w)
    && (v.Insert? && w.Insert? ==> v.app.slug != w.app.slug && v.app.clientID != w.app.clientID && v.app.id != w.app.id)
  }

  lemma IndependentStaysApplicable(apps: seq<ManagedApp>, v: Write, w: Write)
    requires CatalogOk(apps) && Applicable(apps, v) && Applicable(apps, w) && Independent(v, w)
    ensures Applicable(Apply(apps, v), w)
  {
    match w
    case Insert(app) =>
      forall r | r in Apply(apps, v)
        ensures r.slug != app.slug && r.clientID != app.clientID && r.id != app.id
      {
        AppliedRows(apps, v, r);
      }
    case Update(app) =>
      var r :| r in apps && r.id == app.id && r.slug == app.slug && r.clientID == app.clientID;
      AppliedRows(apps, v, r);
    case Remove(id) =>
      var r :| r in apps && r.id == id;
      AppliedRows(apps, v, r);
    case Nothing =>
  }
}
