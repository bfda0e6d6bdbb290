/** One reconcile taken apart where another replica can come between: reading, pushing, saving the row, and recording the
    metadata. */
module ReconcileSteps {
  import opened Basics
  import opened Distribution

  /** What is left of a reconcile, with everything it has read so far. */
  datatype Task =
    | ToPush(dist: Option<Row>, leaf: Leaf)
    | ToSave(row: Row)
    | ToRecord(row: Row, fingerprint: Fingerprint)
    | ToDescribe(fingerprint: Fingerprint)
    | Over(end: End)

  datatype Progress = Progress(state: State, writes: seq<Write>, next: Task)

  /** Read the row, the source and, if they agree, the tenant secret. */
  function Load(fp: Bytes -> Fingerprint, source: Source, s: State, c: Cert, env: Env): Task {
    var f := env.fates;
    if c.usage != ServerCert then Over(Done)
    else if !f.loadRow.Fine? then Over(EndOf(f.loadRow))
    else
      var dist := RowOf(s, c.id);
      if f.readSource.Panics? then Over(Panicked)
      else if f.readSource.Fails? then
        ToSave(RowFor(c, dist, SyncError, CurrentFingerprint(dist), SourceUnreadable, false, env))
      else if c.secretName !in source then
        ToSave(RowFor(c, dist, PendingSync, CurrentFingerprint(dist), SourceMissing, false, env))
      else
        match NeedsPush(fp, s, c, dist, fp(source[c.secretName].crt), f.readTenant)
        case None => Over(Panicked)
        case Some(needed) => if needed then ToPush(dist, source[c.secretName]) else Over(Done)
  }

  /** One write of the reconcile. */
  function Perform(fp: Bytes -> Fingerprint, s: State, c: Cert, task: Task, env: Env): Progress
    requires !task.Over?
  {
    var f := env.fates;
    match task
    case ToPush(dist, leaf) =>
      Progress(Pushed(s, c, leaf, f.push),
               [Push(c.id, TargetOf(c), Secret(Some(leaf.crt), Some(leaf.key)), f.push, env.now)],
               match f.push
               case Panics(_) => Over(Panicked)
               case Fails(_) => ToSave(RowFor(c, dist, SyncError, CurrentFingerprint(dist), PushFailed, false, env))
               case Fine => ToRecord(RowFor(c, dist, Synced, fp(leaf.crt), NoNote, true, env), fp(leaf.crt)))
    case ToSave(row) =>
      var o := Upsert(s, c.id, row, f.upsert);
      Progress(o.state, o.writes, Over(o.end))
    case ToRecord(row, fingerprint) =>
      var o := Upsert(s, c.id, row, f.upsert);
      Progress(o.state, o.writes, if o.end == Done then ToDescribe(fingerprint) else Over(o.end))
    case ToDescribe(fingerprint) =>
      Progress(if Applied(f.setMeta) then s.(meta := s.meta[c.id := fingerprint]) else s,
               [SetMeta(c.id, fingerprint, f.setMeta)],
               Over(EndOf(f.setMeta)))
  }

  function WritesLeft(task: Task): nat {
    match task
    case ToPush(_, _) => 3
    case ToRecord(_, _) => 2
    case ToSave(_) => 1
    case ToDescribe(_) => 1
    case Over(_) => 0
  }

  /** The rest of a reconcile with nothing in between. */
  function Drain(fp: Bytes -> Fingerprint, s: State, c: Cert, task: Task, env: Env): Outcome
    decreases WritesLeft(task)
  {
    if task.Over? then Outcome(s, [], task.end)
    else
      var p := Perform(fp, s, c, task, env);
      var o := Drain(fp, p.state, c, p.next, env);
      Outcome(o.state, p.writes + o.writes, o.end)
  }

  lemma DrainSave(fp: Bytes -> Fingerprint, s: State, c: Cert, row: Row, env: Env)
    ensures Drain(fp, s, c, ToSave(row), env) == Upsert(s, c.id, row, env.fates.upsert)
  {
    var o := Upsert(s, c.id, row, env.fates.upsert);
    assert Drain(fp, o.state, c, Over(o.end), env) == Outcome(o.state, [], o.end);
  }

  lemma DrainRecord(fp: Bytes -> Fingerprint, s: State, c: Cert, row: Row, fingerprint: Fingerprint, env: Env)
    ensures var o := Upsert(s, c.id, row, env.fates.upsert);
            Drain(fp, s, c, ToRecord(row, fingerprint), env) ==
            if o.end != Done then o
            else Outcome(if Applied(env.fates.setMeta) then o.state.(meta := o.state.meta[c.id := fingerprint]) else o.state,
                         o.writes + [SetMeta(c.id, fingerprint, env.fates.setMeta)],
                         EndOf(env.fates.setMeta))
  {
    var o := Upsert(s, c.id, row, env.fates.upsert);
    if o.end != Done {
      assert Drain(fp, o.state, c, Over(o.end), env) == Outcome(o.state, [], o.end);
    } else {
      var p := Perform(fp, o.state, c, ToDescribe(fingerprint), env);
      assert Drain(fp, p.state, c, p.next, env) == Outcome(p.state, [], p.next.end);
      assert Drain(fp, o.state, c, ToDescribe(fingerprint), env) == Outcome(p.state, p.writes, p.next.end);
    }
  }

  lemma DrainPush(fp: Bytes -> Fingerprint, s: State, c: Cert, dist: Option<Row>, leaf: Leaf, env: Env)
    ensures Drain(fp, s, c, ToPush(dist, leaf), env) == PushAndRecord(fp, s, c, dist, leaf, env)
  {
    var p := Perform(fp, s, c, ToPush(dist, leaf), env);
    match env.fates.push
    case Panics(_) => assert Drain(fp, p.state, c, p.next, env) == Outcome(p.state, [], Panicked);
    case Fails(_) => DrainSave(fp, p.state, c, p.next.row, env);
    case Fine =>
      DrainRecord(fp, p.state, c, p.next.row, fp(leaf.crt), env);
      var o := Upsert(p.state, c.id, p.next.row, env.fates.upsert);
      assert p.writes + (o.writes + [SetMeta(c.id, fp(leaf.crt), env.fates.setMeta)])
          == p.writes + o.writes + [SetMeta(c.id, fp(leaf.crt), env.fates.setMeta)];
  }

  /** Taken one after the other the steps are the reconcile. */
  lemma StepsAreReconcileOne(fp: Bytes -> Fingerprint, source: Source, s: State, c: Cert, env: Env)
    ensures Drain(fp, s, c, Load(fp, source, s, c, env), env) == ReconcileOne(fp, source, s, c, env)
  {
    match Load(fp, source, s, c, env)
    case ToPush(dist, leaf) => DrainPush(fp, s, c, dist, leaf, env);
    case ToSave(row) => DrainSave(fp, s, c, row, env);
    case _ =>
  }
}
