/** What one reconcile of one certificate, and one pass over a list of them, does to the stores. */
module Distribution {
  import opened Basics

  type Bytes = string
  type Fingerprint = string

  datatype Usage = ServerCert | ClientCert

  datatype Cert = Cert(id: Uuid, projectId: Uuid, secretName: string, usage: Usage)

  datatype SyncStatus = PendingSync | Synced | SyncError

  datatype Note = NoNote | SourceUnreadable | SourceMissing | PushFailed

  /** The bookkeeping row of a certificate; the certificate's id is its key. */
  datatype Row = Row(
    id: Uuid,
    projectId: Uuid,
    status: SyncStatus,
    fingerprint: Fingerprint,
    note: Note,
    syncedAt: Option<nat>)

  /** A secret in a tenant cluster, all of them in the one gateway namespace. */
  datatype Target = Target(projectId: Uuid, secretName: string)

  /** Either entry of a tenant secret may have been removed by someone else. */
  datatype Secret = Secret(crt: Option<Bytes>, key: Option<Bytes>)

  /** Issued material in the control cluster. */
  datatype Leaf = Leaf(crt: Bytes, key: Bytes)

  type Source = map<string, Leaf>

  datatype State = State(rows: map<Uuid, Row>, secrets: map<Target, Secret>, meta: map<Uuid, Fingerprint>)

  /** How a call to a collaborator ends. A write that fails or panics may or may not have taken effect. */
  datatype Fate = Fine | Fails(applied: bool) | Panics(applied: bool)

  datatype Fates = Fates(loadRow: Fate, readSource: Fate, readTenant: Fate, push: Fate, upsert: Fate, setMeta: Fate)

  const ALL_FINE := Fates(Fine, Fine, Fine, Fine, Fine, Fine)

  /** What one reconcile of one certificate meets: the fates of its calls, the clock, and the id a new row would get. */
  datatype Env = Env(fates: Fates, now: nat, newRowId: Uuid)

  /** Every write that was attempted, with its fate. */
  datatype Write =
    | Push(certId: Uuid, target: Target, secret: Secret, fate: Fate, at: nat)
    | SaveRow(certId: Uuid, row: Row, fate: Fate)
    | SetMeta(certId: Uuid, fingerprint: Fingerprint, fate: Fate)

  datatype End = Done | Errored | Panicked

  datatype Outcome = Outcome(state: State, writes: seq<Write>, end: End)

  function EndOf(f: Fate): End {
    match f
    case Fine => Done
    case Fails(_) => Errored
    case Panics(_) => Panicked
  }

  predicate Applied(f: Fate) {
    f.Fine? || f.applied
  }

  function TargetOf(c: Cert): Target {
    Target(c.projectId, c.secretName)
  }

  function CurrentFingerprint(dist: Option<Row>): Fingerprint {
    if dist.None? then "" else dist.value.fingerprint
  }

  function RowOf(s: State, id: Uuid): Option<Row> {
    if id in s.rows then Some(s.rows[id]) else None
  }

  function SecretAt(s: State, t: Target): Option<Secret> {
    if t in s.secrets then Some(s.secrets[t]) else None
  }

  function MetaOf(s: State, id: Uuid): Option<Fingerprint> {
    if id in s.meta then Some(s.meta[id]) else None
  }

  /** The row this pass wants to record. */
  function RowFor(c: Cert, existing: Option<Row>, status: SyncStatus, fingerprint: Fingerprint, note: Note,
                  synced: bool, env: Env): Row
  {
    Row(if existing.Some? then existing.value.id else env.newRowId,
        c.projectId, status, fingerprint, note,
        if synced then Some(env.now) else if existing.Some? then existing.value.syncedAt else None)
  }

  function Upsert(s: State, id: Uuid, row: Row, f: Fate): Outcome {
    Outcome(if Applied(f) then s.(rows := s.rows[id := row]) else s, [SaveRow(id, row, f)], EndOf(f))
  }

  /** None when reading the tenant secret panics. */
  function NeedsPush(fp: Bytes -> Fingerprint, s: State, c: Cert, dist: Option<Row>, wanted: Fingerprint, f: Fate): Option<bool> {
    if dist.None? || dist.value.status != Synced || dist.value.fingerprint != wanted then Some(true)
    else if f.Panics? then None
    else
      var secret := SecretAt(s, TargetOf(c));
      if f.Fails? || secret.None? || secret.value.crt.None? then Some(true)
      else Some(fp(secret.value.crt.value) != wanted)
  }

  function ReconcileOne(fp: Bytes -> Fingerprint, source: Source, s: State, c: Cert, env: Env): Outcome {
    var f := env.fates;
    if c.usage != ServerCert then Outcome(s, [], Done)
    else if !f.loadRow.Fine? then Outcome(s, [], EndOf(f.loadRow))
    else
      var dist := RowOf(s, c.id);
      if f.readSource.Panics? then Outcome(s, [], Panicked)
      else if f.readSource.Fails? then
        Upsert(s, c.id, RowFor(c, dist, SyncError, CurrentFingerprint(dist), SourceUnreadable, false, env), f.upsert)
      else if c.secretName !in source then
        Upsert(s, c.id, RowFor(c, dist, PendingSync, CurrentFingerprint(dist), SourceMissing, false, env), f.upsert)
      else
        var leaf := source[c.secretName];
        match NeedsPush(fp, s, c, dist, fp(leaf.crt), f.readTenant)
        case None => Outcome(s, [], Panicked)
        case Some(needed) => if needed then PushAndRecord(fp, s, c, dist, leaf, env) else Outcome(s, [], Done)
  }

  /** CreateOrUpdateTLSSecret in the tenant cluster. */
  function Pushed(s: State, c: Cert, leaf: Leaf, f: Fate): State {
    if Applied(f) then s.(secrets := s.secrets[TargetOf(c) := Secret(Some(leaf.crt), Some(leaf.key))]) else s
  }

  /** The tail of reconcileOne once a push is due. */
  function PushAndRecord(fp: Bytes -> Fingerprint, s: State, c: Cert, dist: Option<Row>, leaf: Leaf, env: Env): Outcome {
    var f := env.fates;
    var secret := Secret(Some(leaf.crt), Some(leaf.key));
    var pushed := Pushed(s, c, leaf, f.push);
    var push := Push(c.id, TargetOf(c), secret, f.push, env.now);
    if f.push.Panics? then Outcome(pushed, [push], Panicked)
    else if f.push.Fails? then
      var o := Upsert(pushed, c.id, RowFor(c, dist, SyncError, CurrentFingerprint(dist), PushFailed, false, env), f.upsert);
      Outcome(o.state, [push] + o.writes, o.end)
    else
      var o := Upsert(pushed, c.id, RowFor(c, dist, Synced, fp(leaf.crt), NoNote, true, env), f.upsert);
      if o.end != Done then Outcome(o.state, [push] + o.writes, o.end)
      else
        Outcome(if Applied(f.setMeta) then o.state.(meta := o.state.meta[c.id := fp(leaf.crt)]) else o.state,
                [push] + o.writes + [SetMeta(c.id, fp(leaf.crt), f.setMeta)],
                EndOf(f.setMeta))
  }

  /** A pass over a list; what each certificate meets is given by its id. Errors and panics are swallowed. */
  function Pass(fp: Bytes -> Fingerprint, source: Source, s: State, certs: seq<Cert>, env: Uuid -> Env): (State, seq<Write>)
    decreases |certs|
  {
    if certs == [] then (s, [])
    else
      var o := ReconcileOne(fp, source, s, certs[0], env(certs[0].id));
      var (final, writes) := Pass(fp, source, o.state, certs[1..], env);
      (final, o.writes + writes)
  }

  /** A pass from certificate i on is certificate i, then the rest. */
  lemma PassFrom(fp: Bytes -> Fingerprint, source: Source, s: State, certs: seq<Cert>, env: Uuid -> Env, i: nat)
    requires i < |certs|
    ensures var o := ReconcileOne(fp, source, s, certs[i], env(certs[i].id));
            var rest := Pass(fp, source, o.state, certs[i + 1..], env);
            Pass(fp, source, s, certs[i..], env) == (rest.0, o.writes + rest.1)
  {
  }

  lemma JournalAssociative(a: seq<Write>, b: seq<Write>, c: seq<Write>)
    ensures a + (b + c) == a + b + c
  {
  }

  /** How many certificates of n a pass reconciles: up to the first time the gate says no. gate(0) is the answer at the
      start of the pass, gate(i + 1) the one before certificate i. */
  function Served(gate: nat -> bool, n: nat): (k: nat)
    ensures k <= n
    ensures k > 0 ==> gate(0)
    ensures forall i :: 1 <= i <= k ==> gate(i)
    ensures k < n ==> !gate(0) || !gate(k + 1)
  {
    if !gate(0) then 0 else ServedFrom(gate, n, 0)
  }

  function ServedFrom(gate: nat -> bool, n: nat, i: nat): (k: nat)
    requires i <= n
    ensures i <= k <= n
    ensures forall j :: i < j <= k ==> gate(j)
    ensures k < n ==> !gate(k + 1)
    decreases n - i
  {
    if i == n || !gate(i + 1) then i else ServedFrom(gate, n, i + 1)
  }

  /** Reconcile: nothing without leadership, nothing when listing fails, otherwise a pass over the served prefix. */
  function Reconcile(fp: Bytes -> Fingerprint, source: Source, s: State, listed: Option<seq<Cert>>, gate: nat -> bool,
                     env: Uuid -> Env): (State, seq<Write>)
  {
    if listed.None? then (s, [])
    else Pass(fp, source, s, listed.value[..Served(gate, |listed.value|)], env)
  }
}
