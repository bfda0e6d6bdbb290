/** What one reconcile writes, as a table of its circumstances, what becomes of the stores, and what a pass under the leader
    gate does to each certificate. */
module DistributionTable {
  import opened Basics
  import opened Distribution
  import opened DistributionProofs

  // ---- Which writes are tried

  ghost predicate Issued(source: Source, c: Cert, env: Env) {
    env.fates.readSource.Fine? && c.secretName in source
  }

  /** The row says the certificate was distributed with this fingerprint. */
  ghost predicate RowAgrees(s: State, c: Cert, wanted: Fingerprint) {
    c.id in s.rows && s.rows[c.id].status == Synced && s.rows[c.id].fingerprint == wanted
  }

  /** The tenant cluster holds a certificate with this fingerprint. */
  ghost predicate TenantAgrees(fp: Bytes -> Fingerprint, s: State, c: Cert, wanted: Fingerprint) {
    var t := Target(c.projectId, c.secretName);
    t in s.secrets && s.secrets[t].crt.Some? && fp(s.secrets[t].crt.value) == wanted
  }

  ghost predicate PushTried(fp: Bytes -> Fingerprint, source: Source, s: State, c: Cert, env: Env) {
    && c.usage == ServerCert && env.fates.loadRow.Fine? && Issued(source, c, env)
    && var wanted := fp(source[c.secretName].crt);
       || !RowAgrees(s, c, wanted)
       || env.fates.readTenant.Fails?
       || (env.fates.readTenant.Fine? && !TenantAgrees(fp, s, c, wanted))
  }

  ghost predicate SaveTried(fp: Bytes -> Fingerprint, source: Source, s: State, c: Cert, env: Env) {
    && c.usage == ServerCert && env.fates.loadRow.Fine?
    && (|| env.fates.readSource.Fails?
        || (env.fates.readSource.Fine? && c.secretName !in source)
        || (PushTried(fp, source, s, c, env) && !env.fates.push.Panics?))
  }

  ghost predicate MetaTried(fp: Bytes -> Fingerprint, source: Source, s: State, c: Cert, env: Env) {
    PushTried(fp, source, s, c, env) && env.fates.push.Fine? && env.fates.upsert.Fine?
  }

  /** The row that is saved: on success synced at the new fingerprint and now, otherwise the books as they were, with the
      reason. The id and the project never depend on the outcome. */
  ghost function SavedRow(fp: Bytes -> Fingerprint, source: Source, s: State, c: Cert, env: Env): Row {
    var known := c.id in s.rows;
    var synced := PushTried(fp, source, s, c, env) && env.fates.push.Fine?;
    Row(if known then s.rows[c.id].id else env.newRowId,
        c.projectId,
        if synced then Synced else if env.fates.readSource.Fine? && c.secretName !in source then PendingSync else SyncError,
        if synced then fp(source[c.secretName].crt) else if known then s.rows[c.id].fingerprint else "",
        if synced then NoNote
        else if env.fates.readSource.Fails? then SourceUnreadable
        else if c.secretName !in source then SourceMissing
        else PushFailed,
        if synced then Some(env.now) else if known then s.rows[c.id].syncedAt else None)
  }

  ghost function PushOf(source: Source, c: Cert, env: Env): Write
    requires c.secretName in source
  {
    var leaf := source[c.secretName];
    Push(c.id, Target(c.projectId, c.secretName), Secret(Some(leaf.crt), Some(leaf.key)), env.fates.push, env.now)
  }

  /** A reconcile tries these writes and no others, in this order. */
  lemma ReconcileWrites(fp: Bytes -> Fingerprint, source: Source, s: State, c: Cert, env: Env)
    ensures ReconcileOne(fp, source, s, c, env).writes ==
              (if PushTried(fp, source, s, c, env) then [PushOf(source, c, env)] else [])
              + (if SaveTried(fp, source, s, c, env)
                 then [SaveRow(c.id, SavedRow(fp, source, s, c, env), env.fates.upsert)] else [])
              + (if MetaTried(fp, source, s, c, env)
                 then [SetMeta(c.id, fp(source[c.secretName].crt), env.fates.setMeta)] else [])
  {
  }

  /** Its result is that of its last write; a reconcile without writes ends well unless a read it needed did not. */
  lemma ReconcileEnd(fp: Bytes -> Fingerprint, source: Source, s: State, c: Cert, env: Env)
    ensures var o := ReconcileOne(fp, source, s, c, env);
            if o.writes != [] then
              var last := o.writes[|o.writes| - 1].fate;
              (o.end == Done <==> last.Fine?) && (o.end == Panicked <==> last.Panics?)
            else
              && (o.end == Errored <==> c.usage == ServerCert && env.fates.loadRow.Fails?)
              && (o.end == Panicked <==>
                    && c.usage == ServerCert
                    && (|| env.fates.loadRow.Panics?
                        || (env.fates.loadRow.Fine? && env.fates.readSource.Panics?)
                        || (env.fates.loadRow.Fine? && Issued(source, c, env) && env.fates.readTenant.Panics?
                            && RowAgrees(s, c, fp(source[c.secretName].crt)))))
  {
  }

  // ---- What becomes of the stores

  /** A write takes effect if it succeeded, or if it was applied although it failed or panicked. */
  function After(s: State, w: Write): State {
    if !(w.fate.Fine? || w.fate.applied) then s
    else
      match w
      case Push(_, target, secret, _, _) => s.(secrets := s.secrets[target := secret])
      case SaveRow(id, row, _) => s.(rows := s.rows[id := row])
      case SetMeta(id, fingerprint, _) => s.(meta := s.meta[id := fingerprint])
  }

  function AfterAll(s: State, writes: seq<Write>): State
    decreases |writes|
  {
    if writes == [] then s else AfterAll(After(s, writes[0]), writes[1..])
  }

  lemma {:induction false} AfterAppend(s: State, a: seq<Write>, b: seq<Write>)
    ensures AfterAll(s, a + b) == AfterAll(AfterAll(s, a), b)
    decreases |a|
  {
    if a == [] {
      assert a + b == b;
    } else {
      assert (a + b)[1..] == a[1..] + b;
      AfterAppend(After(s, a[0]), a[1..], b);
    }
  }

  lemma AfterOne(s: State, w: Write)
    ensures AfterAll(s, [w]) == After(s, w)
  {
    assert [w][1..] == [];
    assert AfterAll(After(s, w), []) == After(s, w);
  }

  lemma PushIsReplay(fp: Bytes -> Fingerprint, s: State, c: Cert, dist: Option<Row>, leaf: Leaf, env: Env)
    ensures var o := PushAndRecord(fp, s, c, dist, leaf, env); o.state == AfterAll(s, o.writes)
  {
    var o := PushAndRecord(fp, s, c, dist, leaf, env);
    var push := o.writes[0];
    AfterOne(s, push);
    if |o.writes| == 1 {
      assert o.writes == [push];
    } else {
      var save := o.writes[1];
      AfterAppend(s, [push], [save]);
      AfterOne(After(s, push), save);
      if |o.writes| == 2 {
        assert o.writes == [push] + [save];
      } else {
        assert o.writes == [push] + [save] + [o.writes[2]];
        AfterAppend(s, [push] + [save], [o.writes[2]]);
        AfterOne(After(After(s, push), save), o.writes[2]);
      }
    }
  }

  /** The stores after a reconcile are those before with its writes carried out, as far as they were. */
  lemma ReconcileIsReplay(fp: Bytes -> Fingerprint, source: Source, s: State, c: Cert, env: Env)
    ensures var o := ReconcileOne(fp, source, s, c, env); o.state == AfterAll(s, o.writes)
  {
    var o := ReconcileOne(fp, source, s, c, env);
    if c.secretName in source {
      PushIsReplay(fp, s, c, RowOf(s, c.id), source[c.secretName], env);
    }
    if |o.writes| == 1 {
      assert o.writes == [o.writes[0]];
      AfterOne(s, o.writes[0]);
    }
  }

  // ---- A pass and its gate

  function About(writes: seq<Write>, id: Uuid): seq<Write> {
    if writes == [] then []
    else (if writes[0].certId == id then [writes[0]] else []) + About(writes[1..], id)
  }

  lemma {:induction false} AboutAppend(a: seq<Write>, b: seq<Write>, id: Uuid)
    ensures About(a + b, id) == About(a, id) + About(b, id)
  {
    if a == [] {
      assert a + b == b;
    } else {
      assert (a + b)[1..] == a[1..] + b;
      AboutAppend(a[1..], b, id);
    }
  }

  lemma {:induction false} AllAbout(writes: seq<Write>, id: Uuid, other: Uuid)
    requires forall w :: w in writes ==> w.certId == id
    ensures About(writes, other) == if other == id then writes else []
  {
    if writes != [] {
      assert writes[0] in writes;
      AllAbout(writes[1..], id, other);
      assert [writes[0]] + writes[1..] == writes;
    }
  }

  lemma OwnWrites(fp: Bytes -> Fingerprint, source: Source, s: State, c: Cert, env: Env, other: Uuid)
    ensures var o := ReconcileOne(fp, source, s, c, env); About(o.writes, other) == if other == c.id then o.writes else []
  {
    ReconcileWrites(fp, source, s, c, env);
    AllAbout(ReconcileOne(fp, source, s, c, env).writes, c.id, other);
  }

  lemma {:induction false} NoneAboutOthers(
    fp: Bytes -> Fingerprint, source: Source, s: State, certs: seq<Cert>, env: Uuid -> Env, id: Uuid)
    requires forall c :: c in certs ==> c.id != id
    ensures About(Pass(fp, source, s, certs, env).1, id) == []
    decreases |certs|
  {
    if certs != [] {
      var o := ReconcileOne(fp, source, s, certs[0], env(certs[0].id));
      assert certs[0] in certs;
      OwnWrites(fp, source, s, certs[0], env(certs[0].id), id);
      NoneAboutOthers(fp, source, o.state, certs[1..], env, id);
      AboutAppend(o.writes, Pass(fp, source, o.state, certs[1..], env).1, id);
    }
  }

  /** A pass writes about each certificate what a reconcile of it alone writes. */
  lemma {:induction false} PassWritesAlone(
    fp: Bytes -> Fingerprint, source: Source, s: State, certs: seq<Cert>, env: Uuid -> Env, k: nat)
    requires Distinct(certs) && k < |certs|
    ensures About(Pass(fp, source, s, certs, env).1, certs[k].id)
            == ReconcileOne(fp, source, s, certs[k], env(certs[k].id)).writes
    decreases |certs|
  {
    var o := ReconcileOne(fp, source, s, certs[0], env(certs[0].id));
    var rest := certs[1..];
    assert forall j :: 0 <= j < |rest| ==> rest[j] == certs[j + 1];
    assert Distinct(rest);
    OwnWrites(fp, source, s, certs[0], env(certs[0].id), certs[k].id);
    AboutAppend(o.writes, Pass(fp, source, o.state, rest, env).1, certs[k].id);
    if k == 0 {
      forall c | c in rest ensures c.id != certs[0].id {
        var j :| 0 <= j < |rest| && rest[j] == c;
        assert Apart(certs[j + 1], certs[0]);
      }
      NoneAboutOthers(fp, source, o.state, rest, env, certs[0].id);
    } else {
      assert Apart(certs[k], certs[0]);
      OneKeepsRest(fp, source, s, certs[0], env(certs[0].id));
      OneIsLocal(fp, source, s, o.state, certs[k], env(certs[k].id));
      assert rest[k - 1] == certs[k];
      PassWritesAlone(fp, source, o.state, rest, env, k - 1);
    }
  }

  /** The gate was open at the start of the pass and before each certificate up to the k-th. */
  ghost predicate OpenThrough(gate: nat -> bool, k: nat) {
    forall i :: 0 <= i <= k + 1 ==> gate(i)
  }

  lemma ServedIff(gate: nat -> bool, n: nat, k: nat)
    requires k < n
    ensures k < Served(gate, n) <==> OpenThrough(gate, k)
  {
    var m := Served(gate, n);
    if k < m {
      forall i | 0 <= i <= k + 1 ensures gate(i) {}
    }
  }

  /** Without leadership, or without a list, a pass does nothing at all. */
  lemma NoLeaderNoWrite(fp: Bytes -> Fingerprint, source: Source, s: State, listed: Option<seq<Cert>>, gate: nat -> bool,
                        env: Uuid -> Env)
    requires !gate(0) || listed.None?
    ensures Reconcile(fp, source, s, listed, gate, env) == (s, [])
  {
  }

  /** Under the gate each listed certificate is reconciled, exactly as if alone, if leadership held up to it, and otherwise
      neither changed nor written about. */
  lemma GateDecides(
    fp: Bytes -> Fingerprint, source: Source, s: State, certs: seq<Cert>, gate: nat -> bool, env: Uuid -> Env, k: nat)
    requires Distinct(certs) && k < |certs|
    ensures var (x, writes) := Reconcile(fp, source, s, Some(certs), gate, env);
            var alone := ReconcileOne(fp, source, s, certs[k], env(certs[k].id));
            && ViewOf(x, certs[k]) == (if OpenThrough(gate, k) then ViewOf(alone.state, certs[k]) else ViewOf(s, certs[k]))
            && About(writes, certs[k].id) == if OpenThrough(gate, k) then alone.writes else []
  {
    var served := certs[..Served(gate, |certs|)];
    ServedIff(gate, |certs|, k);
    assert Distinct(served);
    if k < |served| {
      PassIsolates(fp, source, s, served, env, k);
      PassWritesAlone(fp, source, s, served, env, k);
    } else {
      forall c | c in served ensures c.id != certs[k].id && TargetOf(c) != TargetOf(certs[k]) {
        var j :| 0 <= j < |served| && served[j] == c;
        assert Apart(certs[j], certs[k]);
      }
      PassKeepsRest(fp, source, s, served, env);
      NoneAboutOthers(fp, source, s, served, env, certs[k].id);
    }
  }

  /** Nothing outside the list is touched. */
  lemma OnlyListed(fp: Bytes -> Fingerprint, source: Source, s: State, certs: seq<Cert>, gate: nat -> bool, env: Uuid -> Env,
                   other: Cert)
    requires forall c :: c in certs ==> Apart(c, other)
    ensures var (x, writes) := Reconcile(fp, source, s, Some(certs), gate, env);
            ViewOf(x, other) == ViewOf(s, other) && About(writes, other.id) == []
  {
    var served := certs[..Served(gate, |certs|)];
    forall c | c in served ensures c.id != other.id && TargetOf(c) != TargetOf(other) {
      assert c in certs && Apart(c, other);
    }
    PassKeepsRest(fp, source, s, served, env);
    NoneAboutOthers(fp, source, s, served, env, other.id);
  }
}
