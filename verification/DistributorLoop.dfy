/** The distribution controller as the source runs it, proved to do exactly what Distribution says. */
module DistributorLoop {
  import opened Basics
  import D = Distribution

  class Distributor {
    const fp: D.Bytes -> D.Fingerprint
    var rows: map<Uuid, D.Row>
    var secrets: map<D.Target, D.Secret>
    var meta: map<Uuid, D.Fingerprint>
    /** Every write attempted so far. */
    ghost var writes: seq<D.Write>

    constructor (fp: D.Bytes -> D.Fingerprint, s: D.State)
      ensures this.fp == fp && Stores() == s && writes == []
    {
      this.fp := fp;
      rows, secrets, meta, writes := s.rows, s.secrets, s.meta, [];
    }

    ghost function Stores(): D.State
      reads this
    {
      D.State(rows, secrets, meta)
    }

    method NeedsPush(c: D.Cert, dist: Option<D.Row>, wanted: D.Fingerprint, f: D.Fate) returns (r: Option<bool>)
      ensures r == D.NeedsPush(fp, Stores(), c, dist, wanted, f)
    {
      if dist.None? || dist.value.status != D.Synced || dist.value.fingerprint != wanted {
        return Some(true);
      }
      if f.Panics? {
        return None;
      }
      var target := D.TargetOf(c);
      if f.Fails? || target !in secrets || secrets[target].crt.None? {
        return Some(true);
      }
      return Some(fp(secrets[target].crt.value) != wanted);
    }

    method UpsertDist(c: D.Cert, existing: Option<D.Row>, status: D.SyncStatus, fingerprint: D.Fingerprint, note: D.Note,
                      synced: bool, env: D.Env) returns (end: D.End)
      modifies this`rows, this`writes
      ensures var o := D.Upsert(old(Stores()), c.id,
                                D.RowFor(c, existing, status, fingerprint, note, synced, env), env.fates.upsert);
              Stores() == o.state && writes == old(writes) + o.writes && end == o.end
    {
      var cd := D.Row(env.newRowId, c.projectId, status, fingerprint, note, None);
      if existing.Some? {
        cd := cd.(id := existing.value.id);
        cd := cd.(syncedAt := existing.value.syncedAt);
      }
      if synced {
        cd := cd.(syncedAt := Some(env.now));
      }
      if D.Applied(env.fates.upsert) {
        rows := rows[c.id := cd];
      }
      writes := writes + [D.SaveRow(c.id, cd, env.fates.upsert)];
      return D.EndOf(env.fates.upsert);
    }

    method ReconcileOne(source: D.Source, c: D.Cert, env: D.Env) returns (end: D.End)
      modifies this
      ensures var o := D.ReconcileOne(fp, source, old(Stores()), c, env);
              Stores() == o.state && writes == old(writes) + o.writes && end == o.end
    {
      var f := env.fates;
      if c.usage != D.ServerCert {
        return D.Done;
      }
      if !f.loadRow.Fine? {
        return D.EndOf(f.loadRow);
      }
      var dist := if c.id in rows then Some(rows[c.id]) else None;
      if f.readSource.Panics? {
        return D.Panicked;
      }
      if f.readSource.Fails? {
        end := UpsertDist(c, dist, D.SyncError, D.CurrentFingerprint(dist), D.SourceUnreadable, false, env);
        return;
      }
      if c.secretName !in source {
        end := UpsertDist(c, dist, D.PendingSync, D.CurrentFingerprint(dist), D.SourceMissing, false, env);
        return;
      }
      var leaf := source[c.secretName];
      var needed := NeedsPush(c, dist, fp(leaf.crt), f.readTenant);
      if needed.None? {
        return D.Panicked;
      }
      if !needed.value {
        return D.Done;
      }
      var secret := D.Secret(Some(leaf.crt), Some(leaf.key));
      if D.Applied(f.push) {
        secrets := secrets[D.TargetOf(c) := secret];
      }
      writes := writes + [D.Push(c.id, D.TargetOf(c), secret, f.push, env.now)];
      if f.push.Panics? {
        return D.Panicked;
      }
      if f.push.Fails? {
        end := UpsertDist(c, dist, D.SyncError, D.CurrentFingerprint(dist), D.PushFailed, false, env);
        return;
      }
      end := UpsertDist(c, dist, D.Synced, fp(leaf.crt), D.NoNote, true, env);
      if end != D.Done {
        return;
      }
      if D.Applied(f.setMeta) {
        meta := meta[c.id := fp(leaf.crt)];
      }
      writes := writes + [D.SetMeta(c.id, fp(leaf.crt), f.setMeta)];
      return D.EndOf(f.setMeta);
    }

    /** Errors and recovered panics are logged and dropped. */
    method ReconcileOneSafely(source: D.Source, c: D.Cert, env: D.Env)
      modifies this
      ensures var o := D.ReconcileOne(fp, source, old(Stores()), c, env);
              Stores() == o.state && writes == old(writes) + o.writes
    {
      var _ := ReconcileOne(source, c, env);
    }

    /** The loop over the listed certificates, which asks the gate before each. */
    method Serve(source: D.Source, certs: seq<D.Cert>, gate: nat -> bool, env: Uuid -> D.Env)
      modifies this
      ensures var (final, made) := D.Pass(fp, source, old(Stores()), certs[..D.ServedFrom(gate, |certs|, 0)], env);
              Stores() == final && writes == old(writes) + made
    {
      ghost var served := certs[..D.ServedFrom(gate, |certs|, 0)];
      ghost var whole := D.Pass(fp, source, Stores(), served, env);
      ghost var rest := whole;
      assert served[0..] == served;
      var i := 0;
      while i < |certs|
        invariant 0 <= i <= |served|
        invariant |served| == D.ServedFrom(gate, |certs|, i)
        invariant rest == D.Pass(fp, source, Stores(), served[i..], env)
        invariant whole.0 == rest.0 && old(writes) + whole.1 == writes + rest.1
        decreases |certs| - i
      {
        if !gate(i + 1) {
          break;
        }
        D.PassFrom(fp, source, Stores(), served, env, i);
        ghost var o := D.ReconcileOne(fp, source, Stores(), certs[i], env(certs[i].id));
        rest := D.Pass(fp, source, o.state, served[i + 1..], env);
        D.JournalAssociative(writes, o.writes, rest.1);
        ReconcileOneSafely(source, certs[i], env(certs[i].id));
        i := i + 1;
      }
      assert i == |served|;
      assert served[i..] == [] && writes + [] == writes;
    }

    method Reconcile(source: D.Source, listed: Option<seq<D.Cert>>, gate: nat -> bool, env: Uuid -> D.Env)
      modifies this
      ensures var (final, made) := D.Reconcile(fp, source, old(Stores()), listed, gate, env);
              Stores() == final && writes == old(writes) + made
    {
      if !gate(0) || listed.None? {
        assert writes + [] == writes;
        return;
      }
      Serve(source, listed.value, gate, env);
    }
  }
}
