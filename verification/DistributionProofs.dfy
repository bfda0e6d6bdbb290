/** Isolation, convergence and bookkeeping of the distribution controller. */
module DistributionProofs {
  import opened Basics
  import opened Distribution

  // ---- Isolation

  /** All that the stores hold about one certificate. */
  datatype View = View(row: Option<Row>, secret: Option<Secret>, meta: Option<Fingerprint>)

  function ViewOf(s: State, c: Cert): View {
    View(RowOf(s, c.id), SecretAt(s, TargetOf(c)), MetaOf(s, c.id))
  }

  /** Different certificates with different target secrets. */
  ghost predicate Apart(c: Cert, d: Cert) {
    c.id != d.id && TargetOf(c) != TargetOf(d)
  }

  ghost predicate Distinct(certs: seq<Cert>) {
    forall i, j :: 0 <= i < |certs| && 0 <= j < |certs| && i != j ==> Apart(certs[i], certs[j])
  }

  lemma UpsertIsLocal(s: State, x: State, c: Cert, row: Row, f: Fate)
    requires ViewOf(s, c) == ViewOf(x, c)
    ensures var o, p := Upsert(s, c.id, row, f), Upsert(x, c.id, row, f);
            o.writes == p.writes && o.end == p.end && ViewOf(o.state, c) == ViewOf(p.state, c)
  {
  }

  lemma PushIsLocal(fp: Bytes -> Fingerprint, s: State, x: State, c: Cert, dist: Option<Row>, leaf: Leaf, env: Env)
    requires ViewOf(s, c) == ViewOf(x, c)
    ensures var o, p := PushAndRecord(fp, s, c, dist, leaf, env), PushAndRecord(fp, x, c, dist, leaf, env);
            o.writes == p.writes && o.end == p.end && ViewOf(o.state, c) == ViewOf(p.state, c)
  {
    var s', x' := Pushed(s, c, leaf, env.fates.push), Pushed(x, c, leaf, env.fates.push);
    assert ViewOf(s', c) == ViewOf(x', c);
    UpsertIsLocal(s', x', c, RowFor(c, dist, SyncError, CurrentFingerprint(dist), PushFailed, false, env), env.fates.upsert);
    UpsertIsLocal(s', x', c, RowFor(c, dist, Synced, fp(leaf.crt), NoNote, true, env), env.fates.upsert);
  }

  /** A reconcile depends on the stores only through what they hold about its certificate. */
  lemma OneIsLocal(fp: Bytes -> Fingerprint, source: Source, s: State, x: State, c: Cert, env: Env)
    requires ViewOf(s, c) == ViewOf(x, c)
    ensures var o, p := ReconcileOne(fp, source, s, c, env), ReconcileOne(fp, source, x, c, env);
            o.writes == p.writes && o.end == p.end && ViewOf(o.state, c) == ViewOf(p.state, c)
  {
    var dist := RowOf(s, c.id);
    assert RowOf(x, c.id) == dist;
    if c.usage == ServerCert && env.fates.loadRow.Fine? {
      if env.fates.readSource.Fails? {
        UpsertIsLocal(s, x, c, RowFor(c, dist, SyncError, CurrentFingerprint(dist), SourceUnreadable, false, env), env.fates.upsert);
      } else if c.secretName !in source {
        UpsertIsLocal(s, x, c, RowFor(c, dist, PendingSync, CurrentFingerprint(dist), SourceMissing, false, env), env.fates.upsert);
      } else {
        var leaf := source[c.secretName];
        NeedsPushIsLocal(fp, s, x, c, dist, fp(leaf.crt), env.fates.readTenant);
        PushIsLocal(fp, s, x, c, dist, leaf, env);
      }
    }
  }

  lemma NeedsPushIsLocal(
    fp: Bytes -> Fingerprint, s: State, x: State, c: Cert, dist: Option<Row>, wanted: Fingerprint, f: Fate)
    requires SecretAt(s, TargetOf(c)) == SecretAt(x, TargetOf(c))
    ensures NeedsPush(fp, s, c, dist, wanted, f) == NeedsPush(fp, x, c, dist, wanted, f)
  {
  }

  /** Only what the stores hold about c may differ. */
  ghost predicate SameElsewhere(s: State, x: State, c: Cert) {
    && (forall id :: id != c.id ==> RowOf(x, id) == RowOf(s, id) && MetaOf(x, id) == MetaOf(s, id))
    && (forall t :: t != TargetOf(c) ==> SecretAt(x, t) == SecretAt(s, t))
  }

  lemma UpsertKeepsRest(s: State, c: Cert, row: Row, f: Fate)
    ensures SameElsewhere(s, Upsert(s, c.id, row, f).state, c)
  {
  }

  lemma PushKeepsRest(fp: Bytes -> Fingerprint, s: State, c: Cert, dist: Option<Row>, leaf: Leaf, env: Env)
    ensures SameElsewhere(s, PushAndRecord(fp, s, c, dist, leaf, env).state, c)
  {
    var pushed := Pushed(s, c, leaf, env.fates.push);
    assert SameElsewhere(s, pushed, c);
    UpsertKeepsRest(pushed, c, RowFor(c, dist, SyncError, CurrentFingerprint(dist), PushFailed, false, env), env.fates.upsert);
    UpsertKeepsRest(pushed, c, RowFor(c, dist, Synced, fp(leaf.crt), NoNote, true, env), env.fates.upsert);
  }

  /** A reconcile touches no other row, secret or metadata, however its calls end. */
  lemma OneKeepsRest(fp: Bytes -> Fingerprint, source: Source, s: State, c: Cert, env: Env)
    ensures SameElsewhere(s, ReconcileOne(fp, source, s, c, env).state, c)
  {
    var dist := RowOf(s, c.id);
    UpsertKeepsRest(s, c, RowFor(c, dist, SyncError, CurrentFingerprint(dist), SourceUnreadable, false, env), env.fates.upsert);
    UpsertKeepsRest(s, c, RowFor(c, dist, PendingSync, CurrentFingerprint(dist), SourceMissing, false, env), env.fates.upsert);
    if c.secretName in source {
      PushKeepsRest(fp, s, c, dist, source[c.secretName], env);
    }
  }

  lemma {:induction false} PassKeepsRest(fp: Bytes -> Fingerprint, source: Source, s: State, certs: seq<Cert>, env: Uuid -> Env)
    ensures var x := Pass(fp, source, s, certs, env).0;
            && (forall id :: (forall c :: c in certs ==> c.id != id) ==>
                  RowOf(x, id) == RowOf(s, id) && MetaOf(x, id) == MetaOf(s, id))
            && (forall t :: (forall c :: c in certs ==> TargetOf(c) != t) ==> SecretAt(x, t) == SecretAt(s, t))
    decreases |certs|
  {
    if certs != [] {
      var o := ReconcileOne(fp, source, s, certs[0], env(certs[0].id));
      OneKeepsRest(fp, source, s, certs[0], env(certs[0].id));
      PassKeepsRest(fp, source, o.state, certs[1..], env);
    }
  }

  /** In a pass each certificate ends exactly as if it had been reconciled alone, whatever errors and panics the
      others meet. */
  lemma {:induction false} PassIsolates(
    fp: Bytes -> Fingerprint, source: Source, s: State, certs: seq<Cert>, env: Uuid -> Env, k: nat)
    requires Distinct(certs) && k < |certs|
    ensures ViewOf(Pass(fp, source, s, certs, env).0, certs[k])
            == ViewOf(ReconcileOne(fp, source, s, certs[k], env(certs[k].id)).state, certs[k])
    decreases |certs|
  {
    var o := ReconcileOne(fp, source, s, certs[0], env(certs[0].id));
    var rest := certs[1..];
    assert Distinct(rest);
    if k == 0 {
      forall c | c in rest ensures Apart(c, certs[0]) {
        var j :| 0 <= j < |rest| && rest[j] == c;
        assert c == certs[j + 1];
      }
      PassKeepsRest(fp, source, o.state, rest, env);
    } else {
      assert Apart(certs[k], certs[0]);
      OneKeepsRest(fp, source, s, certs[0], env(certs[0].id));
      assert rest[k - 1] == certs[k];
      OneIsLocal(fp, source, s, o.state, certs[k], env(certs[k].id));
      PassIsolates(fp, source, o.state, rest, env, k - 1);
    }
  }

  lemma SameState(x: State, y: State)
    requires forall id :: RowOf(x, id) == RowOf(y, id) && MetaOf(x, id) == MetaOf(y, id)
    requires forall t :: SecretAt(x, t) == SecretAt(y, t)
    ensures x == y
  {
    forall id ensures (id in x.rows <==> id in y.rows) && (id in x.rows ==> x.rows[id] == y.rows[id])
      ensures (id in x.meta <==> id in y.meta) && (id in x.meta ==> x.meta[id] == y.meta[id])
    {
      assert RowOf(x, id) == RowOf(y, id) && MetaOf(x, id) == MetaOf(y, id);
    }
    forall t ensures (t in x.secrets <==> t in y.secrets) && (t in x.secrets ==> x.secrets[t] == y.secrets[t]) {
      assert SecretAt(x, t) == SecretAt(y, t);
    }
    assert x.rows == y.rows && x.meta == y.meta && x.secrets == y.secrets;
  }

  /** The order of the list does not matter. */
  lemma PassOrderIrrelevant(
    fp: Bytes -> Fingerprint, source: Source, s: State, certs: seq<Cert>, other: seq<Cert>, env: Uuid -> Env)
    requires Distinct(certs) && Distinct(other)
    requires forall c :: c in certs <==> c in other
    ensures Pass(fp, source, s, certs, env).0 == Pass(fp, source, s, other, env).0
  {
    var x, y := Pass(fp, source, s, certs, env).0, Pass(fp, source, s, other, env).0;
    PassKeepsRest(fp, source, s, certs, env);
    PassKeepsRest(fp, source, s, other, env);
    forall c | c in certs ensures ViewOf(x, c) == ViewOf(y, c) {
      var j :| 0 <= j < |certs| && certs[j] == c;
      var k :| 0 <= k < |other| && other[k] == c;
      PassIsolates(fp, source, s, certs, env, j);
      PassIsolates(fp, source, s, other, env, k);
    }
    forall id ensures RowOf(x, id) == RowOf(y, id) && MetaOf(x, id) == MetaOf(y, id) {
      if c :| c in certs && c.id == id {
        assert ViewOf(x, c) == ViewOf(y, c);
      }
    }
    forall t ensures SecretAt(x, t) == SecretAt(y, t) {
      if c :| c in certs && TargetOf(c) == t {
        assert ViewOf(x, c) == ViewOf(y, c);
      }
    }
    SameState(x, y);
  }

  // ---- Convergence

  /** Issued, in the tenant cluster under the source's fingerprint, and recorded so. */
  ghost predicate Converged(fp: Bytes -> Fingerprint, source: Source, s: State, c: Cert) {
    && c.secretName in source
    && var wanted := fp(source[c.secretName].crt);
       && RowOf(s, c.id).Some? && RowOf(s, c.id).value.status == Synced && RowOf(s, c.id).value.fingerprint == wanted
       && SecretAt(s, TargetOf(c)).Some? && SecretAt(s, TargetOf(c)).value.crt.Some?
       && fp(SecretAt(s, TargetOf(c)).value.crt.value) == wanted
  }

  ghost predicate ReadsFine(env: Env) {
    env.fates.loadRow.Fine? && env.fates.readSource.Fine? && env.fates.readTenant.Fine?
  }

  /** From any row and any tenant secret one failure-free reconcile of an issued server certificate converges. */
  lemma OneConverges(fp: Bytes -> Fingerprint, source: Source, s: State, c: Cert, env: Env)
    requires c.usage == ServerCert && c.secretName in source && env.fates == ALL_FINE
    ensures Converged(fp, source, ReconcileOne(fp, source, s, c, env).state, c)
    ensures ReconcileOne(fp, source, s, c, env).end == Done
  {
  }

  /** When the row and the source can be read, a reconcile attempts no write exactly when the certificate is not
      distributed, or has converged and the tenant secret can be read to confirm it. */
  lemma QuietIff(fp: Bytes -> Fingerprint, source: Source, s: State, c: Cert, env: Env)
    requires env.fates.loadRow.Fine? && env.fates.readSource.Fine? && !env.fates.readTenant.Panics?
    ensures ReconcileOne(fp, source, s, c, env).writes == [] <==>
            c.usage == ClientCert || (Converged(fp, source, s, c) && env.fates.readTenant.Fine?)
    ensures ReconcileOne(fp, source, s, c, env).writes == [] ==> ReconcileOne(fp, source, s, c, env).state == s
  {
  }

  /** Whenever a reconcile of a server certificate gets to record its outcome, the row says Synced exactly when the
      certificate has converged. */
  lemma SyncedTellsTheTruth(fp: Bytes -> Fingerprint, source: Source, s: State, c: Cert, env: Env)
    requires c.usage == ServerCert && env.fates.loadRow.Fine? && env.fates.upsert.Fine?
    requires !env.fates.readSource.Panics? && !env.fates.readTenant.Panics? && !env.fates.push.Panics?
    ensures var x := ReconcileOne(fp, source, s, c, env).state;
            (RowOf(x, c.id).Some? && RowOf(x, c.id).value.status == Synced) <==> Converged(fp, source, x, c)
  {
  }

  /** What the row says when it does not say Synced: pending when the source is not issued, otherwise an error, with the
      step that failed. */
  lemma StatusTellsWhy(fp: Bytes -> Fingerprint, source: Source, s: State, c: Cert, env: Env)
    requires c.usage == ServerCert && env.fates.loadRow.Fine? && env.fates.upsert.Fine?
    requires !env.fates.readSource.Panics? && !env.fates.readTenant.Panics? && !env.fates.push.Panics?
    requires var x := ReconcileOne(fp, source, s, c, env).state; !Converged(fp, source, x, c)
    ensures var x := ReconcileOne(fp, source, s, c, env).state;
            && RowOf(x, c.id).Some?
            && var row := RowOf(x, c.id).value;
               && row.projectId == c.projectId
               && (env.fates.readSource.Fails? <==> row.status == SyncError && row.note == SourceUnreadable)
               && (env.fates.readSource.Fine? && c.secretName !in source <==>
                     row.status == PendingSync && row.note == SourceMissing)
               && (env.fates.readSource.Fine? && c.secretName in source <==>
                     row.status == SyncError && row.note == PushFailed && env.fates.push.Fails?)
  {
  }

  /** The tenant secret is either left alone or becomes the whole issued pair, and it changes only in an attempted push of
      a server certificate whose row and source could be read. */
  lemma WholePairOrUntouched(fp: Bytes -> Fingerprint, source: Source, s: State, c: Cert, env: Env)
    ensures var o := ReconcileOne(fp, source, s, c, env);
            var before, after := SecretAt(s, TargetOf(c)), SecretAt(o.state, TargetOf(c));
            after != before ==>
              && c.usage == ServerCert && env.fates.loadRow.Fine? && env.fates.readSource.Fine?
              && c.secretName in source
              && after == Some(Secret(Some(source[c.secretName].crt), Some(source[c.secretName].key)))
              && o.writes != [] && o.writes[0] == Push(c.id, TargetOf(c), after.value, env.fates.push, env.now)
  {
  }

  /** From any state, however it came about, one pass that keeps leadership through certificate k and in which k's calls do
      not fail leaves k converged, whatever the other certificates meet. */
  lemma PassConverges(
    fp: Bytes -> Fingerprint, source: Source, s: State, certs: seq<Cert>, gate: nat -> bool, env: Uuid -> Env, k: nat)
    requires Distinct(certs) && k < |certs| && certs[k].usage == ServerCert && certs[k].secretName in source
    requires env(certs[k].id).fates == ALL_FINE
    requires forall i :: 0 <= i <= k + 1 ==> gate(i)
    ensures Converged(fp, source, Reconcile(fp, source, s, Some(certs), gate, env).0, certs[k])
  {
    var served := certs[..Served(gate, |certs|)];
    assert k < |served|;
    PassIsolates(fp, source, s, served, env, k);
    OneConverges(fp, source, s, certs[k], env(certs[k].id));
  }

  /** Once every listed certificate has converged, undisturbed passes attempt no write at all. */
  lemma {:induction false} ConvergedIsQuiet(fp: Bytes -> Fingerprint, source: Source, s: State, certs: seq<Cert>, env: Uuid -> Env)
    requires forall c :: c in certs ==> ReadsFine(env(c.id)) && (c.usage == ClientCert || Converged(fp, source, s, c))
    ensures Pass(fp, source, s, certs, env) == (s, [])
    decreases |certs|
  {
    if certs != [] {
      assert certs[0] in certs;
      QuietIff(fp, source, s, certs[0], env(certs[0].id));
      ConvergedIsQuiet(fp, source, s, certs[1..], env);
      assert [] + Pass(fp, source, s, certs[1..], env).1 == [];
    }
  }

  /** From any state, after one failure-free pass over issued certificates, an undisturbed pass attempts no write. */
  lemma SecondPassIsQuiet(
    fp: Bytes -> Fingerprint, source: Source, s: State, certs: seq<Cert>, env: Uuid -> Env, later: Uuid -> Env)
    requires Distinct(certs)
    requires forall c :: c in certs ==>
               && (c.usage == ServerCert ==> c.secretName in source && env(c.id).fates == ALL_FINE)
               && ReadsFine(later(c.id))
    ensures var x := Pass(fp, source, s, certs, env).0; Pass(fp, source, x, certs, later) == (x, [])
  {
    var x := Pass(fp, source, s, certs, env).0;
    forall c | c in certs && c.usage == ServerCert ensures Converged(fp, source, x, c) {
      var k :| 0 <= k < |certs| && certs[k] == c;
      PassIsolates(fp, source, s, certs, env, k);
      OneConverges(fp, source, s, c, env(c.id));
    }
    ConvergedIsQuiet(fp, source, x, certs, later);
  }

  /** A controller run: passes over any lists with any calls failing, and changes to tenant secrets by others. */
  datatype Event =
    | PassEvent(source: Source, certs: seq<Cert>, env: Uuid -> Env)
    | Drift(target: Target, secret: Option<Secret>)

  function Play(fp: Bytes -> Fingerprint, s: State, journal: seq<Write>, events: seq<Event>): (State, seq<Write>)
    decreases |events|
  {
    if events == [] then (s, journal)
    else
      match events[0]
      case PassEvent(source, certs, env) =>
        var (x, writes) := Pass(fp, source, s, certs, env);
        Play(fp, x, journal + writes, events[1..])
      case Drift(t, secret) =>
        Play(fp, s.(secrets := if secret.Some? then s.secrets[t := secret.value] else s.secrets - {t}), journal, events[1..])
  }

  // ---- Metadata that was not recorded

  /** The event leaves certificate c alone: a pass in which c, if listed, still has the issued material of leaf and can be
      read, and is listed with no other certificate of its id or target; or drift of another secret. */
  ghost predicate LeavesAlone(e: Event, c: Cert, leaf: Leaf) {
    match e
    case PassEvent(source, certs, env) =>
      && Distinct(certs) && (forall other :: other in certs ==> other == c || Apart(other, c))
      && (c in certs ==> c.secretName in source && source[c.secretName] == leaf && ReadsFine(env(c.id)))
    case Drift(t, _) => t != TargetOf(c)
  }

  lemma ConvergedPassKeeps(fp: Bytes -> Fingerprint, source: Source, s: State, certs: seq<Cert>, env: Uuid -> Env, c: Cert)
    requires Distinct(certs) && forall other :: other in certs ==> other == c || Apart(other, c)
    requires c in certs ==> Converged(fp, source, s, c) && ReadsFine(env(c.id))
    ensures ViewOf(Pass(fp, source, s, certs, env).0, c) == ViewOf(s, c)
  {
    if c in certs {
      var k :| 0 <= k < |certs| && certs[k] == c;
      PassIsolates(fp, source, s, certs, env, k);
      QuietIff(fp, source, s, c, env(c.id));
    } else {
      PassKeepsRest(fp, source, s, certs, env);
    }
  }

  /** Nothing that leaves a converged certificate alone changes its row, its secret or its metadata. */
  lemma {:induction false} ConvergedStays(
    fp: Bytes -> Fingerprint, source: Source, s: State, journal: seq<Write>, events: seq<Event>, c: Cert)
    requires Converged(fp, source, s, c)
    requires forall k :: 0 <= k < |events| ==> LeavesAlone(events[k], c, source[c.secretName])
    ensures ViewOf(Play(fp, s, journal, events).0, c) == ViewOf(s, c)
    decreases |events|
  {
    if events != [] {
      var rest := events[1..];
      assert LeavesAlone(events[0], c, source[c.secretName]);
      assert forall k :: 0 <= k < |rest| ==> rest[k] == events[k + 1];
      match events[0]
      case PassEvent(issued, certs, env) =>
        ConvergedPassKeeps(fp, issued, s, certs, env, c);
        var (x, writes) := Pass(fp, issued, s, certs, env);
        ConvergedStays(fp, source, x, journal + writes, rest, c);
      case Drift(t, secret) =>
        var x := s.(secrets := if secret.Some? then s.secrets[t := secret.value] else s.secrets - {t});
        assert ViewOf(x, c) == ViewOf(s, c);
        ConvergedStays(fp, source, x, journal, rest, c);
    }
  }

  /** The promise that a pushed certificate's metadata is recorded is false of the code when only SetIssuedMeta fails: the
      certificate has converged, so in no later run that leaves it alone is the missing metadata ever recorded. */
  lemma FailedMetaIsNeverRetried(
    fp: Bytes -> Fingerprint, source: Source, s: State, c: Cert, env: Env, journal: seq<Write>, later: seq<Event>)
    requires c.usage == ServerCert && c.secretName in source && !Converged(fp, source, s, c)
    requires MetaOf(s, c.id) != Some(fp(source[c.secretName].crt))
    requires env.fates.(setMeta := Fine) == ALL_FINE && !Applied(env.fates.setMeta)
    requires forall k :: 0 <= k < |later| ==> LeavesAlone(later[k], c, source[c.secretName])
    ensures var y := Play(fp, ReconcileOne(fp, source, s, c, env).state, journal, later).0;
            Converged(fp, source, y, c) && MetaOf(y, c.id) != Some(fp(source[c.secretName].crt))
  {
    var x := ReconcileOne(fp, source, s, c, env).state;
    PushedWithoutMeta(fp, source, s, c, env);
    ConvergedStays(fp, source, x, journal, later, c);
    var y := Play(fp, x, journal, later).0;
    assert ViewOf(y, c) == ViewOf(x, c);
  }

  lemma PushedWithoutMeta(fp: Bytes -> Fingerprint, source: Source, s: State, c: Cert, env: Env)
    requires c.usage == ServerCert && c.secretName in source && !Converged(fp, source, s, c)
    requires env.fates.(setMeta := Fine) == ALL_FINE && !Applied(env.fates.setMeta)
    ensures var x := ReconcileOne(fp, source, s, c, env).state;
            Converged(fp, source, x, c) && MetaOf(x, c.id) == MetaOf(s, c.id)
  {
  }

  /** It happens to the first certificate ever distributed, and every later failure-free pass keeps it so. */
  lemma FailedMetaExample(fp: Bytes -> Fingerprint, journal: seq<Write>, now: nat, passes: nat)
    ensures var c := Cert(1, 2, "web", ServerCert);
            var source := map["web" := Leaf("crt", "key")];
            var env := Env(ALL_FINE.(setMeta := Fails(false)), now, 3);
            var x := ReconcileOne(fp, source, State(map[], map[], map[]), c, env).state;
            var pass := PassEvent(source, [c], (_ => Env(ALL_FINE, now, 3)));
            MetaOf(Play(fp, x, journal, seq(passes, (_ => pass))).0, c.id) != Some(fp("crt"))
  {
    var c := Cert(1, 2, "web", ServerCert);
    var source := map["web" := Leaf("crt", "key")];
    var env := Env(ALL_FINE.(setMeta := Fails(false)), now, 3);
    var pass := PassEvent(source, [c], (_ => Env(ALL_FINE, now, 3)));
    assert LeavesAlone(pass, c, source["web"]);
    FailedMetaIsNeverRetried(fp, source, State(map[], map[], map[]), c, env, journal, seq(passes, (_ => pass)));
  }

  /** A failure-free reconcile records the metadata exactly when it was right already or a push was due. */
  lemma MetaRecordedIff(fp: Bytes -> Fingerprint, source: Source, s: State, c: Cert, env: Env)
    requires c.usage == ServerCert && c.secretName in source && env.fates == ALL_FINE
    ensures var wanted := Some(fp(source[c.secretName].crt));
            MetaOf(ReconcileOne(fp, source, s, c, env).state, c.id) == wanted
            <==> MetaOf(s, c.id) == wanted || !Converged(fp, source, s, c)
  {
  }

  ghost predicate TriedMeta(s: State, c: Cert, o: Outcome) {
    MetaOf(o.state, c.id) != MetaOf(s, c.id) || exists w :: w in o.writes && w.SetMeta?
  }

  lemma PushMeta(fp: Bytes -> Fingerprint, s: State, c: Cert, dist: Option<Row>, leaf: Leaf, env: Env)
    requires var o := PushAndRecord(fp, s, c, dist, leaf, env); TriedMeta(s, c, o)
    ensures var o := PushAndRecord(fp, s, c, dist, leaf, env);
            && env.fates.push.Fine? && env.fates.upsert.Fine?
            && RowOf(o.state, c.id).Some? && RowOf(o.state, c.id).value.status == Synced
            && RowOf(o.state, c.id).value.fingerprint == fp(leaf.crt)
            && MetaOf(o.state, c.id) in {MetaOf(s, c.id), Some(fp(leaf.crt))}
            && SecretAt(o.state, TargetOf(c)) == Some(Secret(Some(leaf.crt), Some(leaf.key)))
  {
  }

  /** Metadata is written only in a reconcile that has pushed the certificate and recorded it as synced, and then it is the
      recorded fingerprint. */
  lemma MetaFollowsTheRow(fp: Bytes -> Fingerprint, source: Source, s: State, c: Cert, env: Env)
    requires TriedMeta(s, c, ReconcileOne(fp, source, s, c, env))
    ensures var o := ReconcileOne(fp, source, s, c, env);
            && env.fates.push.Fine? && env.fates.upsert.Fine?
            && Converged(fp, source, o.state, c)
            && MetaOf(o.state, c.id) in {MetaOf(s, c.id), Some(RowOf(o.state, c.id).value.fingerprint)}
  {
    if c.secretName in source {
      var leaf := source[c.secretName];
      if TriedMeta(s, c, PushAndRecord(fp, s, c, RowOf(s, c.id), leaf, env)) {
        PushMeta(fp, s, c, RowOf(s, c.id), leaf, env);
      }
    }
  }

  // ---- Bookkeeping

  /** The sync time of a row, if there is a row. */
  function SyncTime(dist: Option<Row>): Option<nat> {
    if dist.None? then None else dist.value.syncedAt
  }

  /** How one reconcile may change its row: the row and its id stay; fingerprint and sync time are kept, or both are those
      of a push of leaf that succeeded in the same reconcile, and then the row carries no complaint. */
  ghost predicate GoodChange(fp: Bytes -> Fingerprint, c: Cert, leaf: Option<Leaf>, env: Env, before: Option<Row>, o: Outcome) {
    var after := RowOf(o.state, c.id);
    && (before.Some? ==> after.Some? && after.value.id == before.value.id)
    && (after == before
        || (&& after.Some? && after.value.status != Synced && after.value.projectId == c.projectId
            && after.value.fingerprint == CurrentFingerprint(before) && after.value.syncedAt == SyncTime(before))
        || (&& after.Some? && after.value.status == Synced && leaf.Some?
            && after.value.note == NoNote && after.value.projectId == c.projectId
            && after.value.fingerprint == fp(leaf.value.crt) && after.value.syncedAt == Some(env.now)
            && Push(c.id, TargetOf(c), Secret(Some(leaf.value.crt), Some(leaf.value.key)), Fine, env.now) in o.writes))
  }

  lemma PushChange(fp: Bytes -> Fingerprint, s: State, c: Cert, leaf: Leaf, env: Env)
    ensures GoodChange(fp, c, Some(leaf), env, RowOf(s, c.id), PushAndRecord(fp, s, c, RowOf(s, c.id), leaf, env))
  {
  }

  /** In one reconcile the recorded fingerprint and sync time change only together, after a successful push of material
      with that fingerprint; every other path keeps both. The row id never changes and no row is lost. */
  lemma BookkeepingStep(fp: Bytes -> Fingerprint, source: Source, s: State, c: Cert, env: Env)
    ensures GoodChange(fp, c, if c.secretName in source then Some(source[c.secretName]) else None, env,
                       RowOf(s, c.id), ReconcileOne(fp, source, s, c, env))
  {
    if c.secretName in source {
      PushChange(fp, s, c, source[c.secretName], env);
    }
  }

  /** The push a row's fingerprint and sync time come from. */
  ghost predicate PushFor(fp: Bytes -> Fingerprint, id: Uuid, row: Row, w: Write) {
    && w.Push? && w.certId == id && w.fate.Fine?
    && w.secret.crt.Some? && fp(w.secret.crt.value) == row.fingerprint && row.syncedAt == Some(w.at)
  }

  ghost predicate Backed(fp: Bytes -> Fingerprint, id: Uuid, row: Row, journal: seq<Write>) {
    || (row.syncedAt == None && row.fingerprint == "" && row.status != Synced)
    || (exists w :: w in journal && PushFor(fp, id, row, w))
  }

  ghost predicate AllBacked(fp: Bytes -> Fingerprint, s: State, journal: seq<Write>) {
    forall id :: id in s.rows ==> Backed(fp, id, s.rows[id], journal)
  }

  lemma OneBacked(fp: Bytes -> Fingerprint, source: Source, s: State, c: Cert, env: Env, journal: seq<Write>)
    requires AllBacked(fp, s, journal)
    ensures var o := ReconcileOne(fp, source, s, c, env); AllBacked(fp, o.state, journal + o.writes)
  {
    var o := ReconcileOne(fp, source, s, c, env);
    OneKeepsRest(fp, source, s, c, env);
    forall id | id in o.state.rows ensures Backed(fp, id, o.state.rows[id], journal + o.writes) {
      if id == c.id {
        OwnRowBacked(fp, source, s, c, env, journal);
      } else {
        assert RowOf(o.state, id) == RowOf(s, id);
        StillBacked(fp, id, s.rows[id], s.rows[id], journal, o.writes);
      }
    }
  }

  lemma StillBacked(fp: Bytes -> Fingerprint, id: Uuid, row: Row, after: Row, journal: seq<Write>, more: seq<Write>)
    requires Backed(fp, id, row, journal)
    requires after.fingerprint == row.fingerprint && after.syncedAt == row.syncedAt
    requires after.status == Synced ==> row.status == Synced
    ensures Backed(fp, id, after, journal + more)
  {
    if !(row.syncedAt == None && row.fingerprint == "" && row.status != Synced) {
      var w :| w in journal && PushFor(fp, id, row, w);
      assert w in journal + more && PushFor(fp, id, after, w);
    }
  }

  lemma OwnRowBacked(fp: Bytes -> Fingerprint, source: Source, s: State, c: Cert, env: Env, journal: seq<Write>)
    requires AllBacked(fp, s, journal)
    ensures var o := ReconcileOne(fp, source, s, c, env);
            c.id in o.state.rows ==> Backed(fp, c.id, o.state.rows[c.id], journal + o.writes)
  {
    var o := ReconcileOne(fp, source, s, c, env);
    BookkeepingStep(fp, source, s, c, env);
    var before, after := RowOf(s, c.id), RowOf(o.state, c.id);
    if after.Some? {
      if after != before && after.value.status == Synced {
        var leaf := source[c.secretName];
        var w := Push(c.id, TargetOf(c), Secret(Some(leaf.crt), Some(leaf.key)), Fine, env.now);
        assert w in journal + o.writes && PushFor(fp, c.id, after.value, w);
      } else if before.Some? {
        StillBacked(fp, c.id, before.value, after.value, journal, o.writes);
      }
    }
  }

  lemma {:induction false} PassBacked(
    fp: Bytes -> Fingerprint, source: Source, s: State, certs: seq<Cert>, env: Uuid -> Env, journal: seq<Write>)
    requires AllBacked(fp, s, journal)
    ensures var (x, writes) := Pass(fp, source, s, certs, env); AllBacked(fp, x, journal + writes)
    decreases |certs|
  {
    if certs == [] {
      assert journal + [] == journal;
    } else {
      var o := ReconcileOne(fp, source, s, certs[0], env(certs[0].id));
      OneBacked(fp, source, s, certs[0], env(certs[0].id), journal);
      PassBacked(fp, source, o.state, certs[1..], env, journal + o.writes);
      var rest := Pass(fp, source, o.state, certs[1..], env).1;
      assert journal + o.writes + rest == journal + (o.writes + rest);
    }
  }

  /** Over every run that starts without rows, each row's fingerprint and sync time are those of one successful push of
      that certificate, or the row was never synced and holds neither. */
  lemma {:induction false} RowsAreBacked(fp: Bytes -> Fingerprint, s: State, journal: seq<Write>, events: seq<Event>)
    requires AllBacked(fp, s, journal)
    ensures var (x, all) := Play(fp, s, journal, events); AllBacked(fp, x, all)
    decreases |events|
  {
    if events != [] {
      match events[0]
      case PassEvent(source, certs, env) =>
        PassBacked(fp, source, s, certs, env, journal);
        var (x, writes) := Pass(fp, source, s, certs, env);
        RowsAreBacked(fp, x, journal + writes, events[1..]);
      case Drift(t, secret) =>
        RowsAreBacked(fp, s.(secrets := if secret.Some? then s.secrets[t := secret.value] else s.secrets - {t}),
                      journal, events[1..]);
    }
  }
}
