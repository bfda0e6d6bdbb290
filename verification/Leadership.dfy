/** Several replicas running the controller, interleaved with each other's writes and with gains and losses of leadership. */
module Leadership {
  import opened Basics
  import opened Distribution
  import opened DistributionProofs
  import opened ReconcileSteps

  /** Where a replica is in its pass: at the head of the loop, past the gate, or in the middle of a reconcile. */
  datatype Work = Head | Begins | Doing(task: Task)

  /** A replica between passes, or somewhere in a pass over a list. */
  datatype Replica = Idle | Busy(certs: seq<Cert>, done: nat, work: Work)

  datatype System = System(leaders: set<nat>, replicas: map<nat, Replica>, stores: State, journal: seq<Write>)

  datatype Event =
    | Gain(r: nat)
    | Lose(r: nat)
    /** Reconcile is called and lists its certificates. */
    | Start(r: nat, certs: seq<Cert>)
    /** The head of the loop: the gate is asked again, then the next certificate begins. */
    | Check(r: nat)
    /** The reads of the certificate in flight, with everything they meet. */
    | Read(r: nat, source: Source, env: Uuid -> Env)
    /** The next write of the certificate in flight. */
    | Act(r: nat, env: Uuid -> Env)
    /** The tenant secrets change by other hands. */
    | Disturb(secrets: map<Target, Secret>)

  function At(s: System, r: nat): Replica {
    if r in s.replicas then s.replicas[r] else Idle
  }

  /** The certificate replica r has in flight, if any. */
  function InFlight(s: System, r: nat): Option<Cert> {
    match At(s, r)
    case Idle => None
    case Busy(certs, done, work) => if work != Head && done < |certs| then Some(certs[done]) else None
  }

  /** The replica with what is left of its reconcile; when that is over it is back at the head of the loop. */
  function Continue(s: System, r: nat, stores: State, writes: seq<Write>, next: Task): System
    requires InFlight(s, r).Some?
  {
    var b := At(s, r);
    s.(replicas := s.replicas[r := if next.Over? then Busy(b.certs, b.done + 1, Head) else b.(work := Doing(next))],
       stores := stores, journal := s.journal + writes)
  }

  function Step(fp: Bytes -> Fingerprint, s: System, e: Event): System {
    match e
    case Gain(r) => s.(leaders := s.leaders + {r})
    case Lose(r) => s.(leaders := s.leaders - {r})
    case Start(r, certs) =>
      if At(s, r) == Idle && r in s.leaders then s.(replicas := s.replicas[r := Busy(certs, 0, Head)]) else s
    case Check(r) =>
      (match At(s, r)
       case Busy(certs, done, Head) =>
         var next := if done < |certs| && r in s.leaders then Busy(certs, done, Begins) else Idle;
         s.(replicas := s.replicas[r := next])
       case _ => s)
    case Read(r, source, env) =>
      if InFlight(s, r).None? || At(s, r).work != Begins then s
      else
        var c := InFlight(s, r).value;
        Continue(s, r, s.stores, [], Load(fp, source, s.stores, c, env(c.id)))
    case Act(r, env) =>
      if InFlight(s, r).None? || !At(s, r).work.Doing? || At(s, r).work.task.Over? then s
      else
        var c := InFlight(s, r).value;
        var p := Perform(fp, s.stores, c, At(s, r).work.task, env(c.id));
        Continue(s, r, p.state, p.writes, p.next)
    case Disturb(secrets) => s.(stores := s.stores.(secrets := secrets))
  }

  function Run(fp: Bytes -> Fingerprint, s: System, events: seq<Event>): System
    decreases |events|
  {
    if events == [] then s else Run(fp, Step(fp, s, events[0]), events[1..])
  }

  // ---- What a loss of leadership costs

  /** The certificate replica r begins with the event, if any. */
  function Starts(fp: Bytes -> Fingerprint, s: System, e: Event, r: nat): seq<Cert> {
    var x := Step(fp, s, e);
    if InFlight(s, r).None? && InFlight(x, r).Some? then [InFlight(x, r).value] else []
  }

  /** The certificate replica r finishes with the event, if any. */
  function Ends(fp: Bytes -> Fingerprint, s: System, e: Event, r: nat): seq<Cert> {
    if InFlight(s, r).Some? && InFlight(Step(fp, s, e), r).None? then [InFlight(s, r).value] else []
  }

  /** The certificates replica r begins during the events. */
  function Begun(fp: Bytes -> Fingerprint, s: System, events: seq<Event>, r: nat): seq<Cert>
    decreases |events|
  {
    if events == [] then []
    else Starts(fp, s, events[0], r) + Begun(fp, Step(fp, s, events[0]), events[1..], r)
  }

  /** The certificates replica r finishes during the events. */
  function Finished(fp: Bytes -> Fingerprint, s: System, events: seq<Event>, r: nat): seq<Cert>
    decreases |events|
  {
    if events == [] then []
    else Ends(fp, s, events[0], r) + Finished(fp, Step(fp, s, events[0]), events[1..], r)
  }

  function InHand(s: System, r: nat): seq<Cert> {
    if InFlight(s, r).Some? then [InFlight(s, r).value] else []
  }

  lemma DeposedStep(fp: Bytes -> Fingerprint, s: System, e: Event, r: nat)
    requires r !in s.leaders && e != Gain(r)
    ensures var x := Step(fp, s, e);
            r !in x.leaders && Starts(fp, s, e, r) == [] && InHand(s, r) == Ends(fp, s, e, r) + InHand(x, r)
  {
  }

  ghost predicate NoGain(events: seq<Event>, r: nat) {
    forall k :: 0 <= k < |events| ==> events[k] != Gain(r)
  }

  /** A replica that is not leader, until it gains leadership, begins no certificate and finishes at most the one it had
      in flight. */
  lemma {:induction false} Deposed(fp: Bytes -> Fingerprint, s: System, events: seq<Event>, r: nat)
    requires r !in s.leaders && NoGain(events, r)
    ensures Begun(fp, s, events, r) == []
    ensures Finished(fp, s, events, r) <= InHand(s, r)
    decreases |events|
  {
    if events != [] {
      assert events[0] != Gain(r);
      assert NoGain(events[1..], r) by {
        assert forall k :: 0 <= k < |events[1..]| ==> events[1..][k] == events[k + 1];
      }
      DeposedStep(fp, s, events[0], r);
      Deposed(fp, Step(fp, s, events[0]), events[1..], r);
    }
  }

  /** So a loss of leadership in mid-pass costs at most one more reconcile by the old leader. */
  lemma LossAllowsOneMore(fp: Bytes -> Fingerprint, s: System, events: seq<Event>, r: nat)
    requires NoGain(events, r)
    ensures Begun(fp, s, [Lose(r)] + events, r) == []
    ensures |Finished(fp, s, [Lose(r)] + events, r)| <= 1
  {
    var x := Step(fp, s, Lose(r));
    assert ([Lose(r)] + events)[1..] == events;
    Deposed(fp, x, events, r);
  }

  /** What the gate decides at the head of the loop: a leader begins the next certificate of its list, a leader without one
      and a replica that lost leadership end the pass. */
  lemma HeadDecides(fp: Bytes -> Fingerprint, s: System, r: nat)
    requires At(s, r).Busy? && At(s, r).work == Head
    ensures var x := Step(fp, s, Check(r));
            var certs, done := At(s, r).certs, At(s, r).done;
            && (InFlight(x, r).Some? <==> r in s.leaders && done < |certs|)
            && (InFlight(x, r).Some? ==> InFlight(x, r).value == certs[done] && At(x, r).certs == certs)
            && (InFlight(x, r).None? ==> At(x, r) == Idle)
            && x.stores == s.stores && x.journal == s.journal && x.leaders == s.leaders
  {
  }

  /** A replica that is not leader does not start a pass. */
  lemma NoStartWithoutLeadership(fp: Bytes -> Fingerprint, s: System, r: nat, certs: seq<Cert>)
    requires At(s, r) == Idle
    ensures At(Step(fp, s, Start(r, certs)), r) == if r in s.leaders then Busy(certs, 0, Head) else Idle
  {
  }

  /** The events of replica r working through what it has in flight. */
  lemma {:induction false} WorksOff(fp: Bytes -> Fingerprint, s: System, r: nat, env: Uuid -> Env) returns (events: seq<Event>)
    requires InFlight(s, r).Some? && At(s, r).work.Doing? && !At(s, r).work.task.Over?
    ensures forall k :: 0 <= k < |events| ==> events[k] == Act(r, env)
    ensures var x := Run(fp, s, events);
            At(x, r) == Busy(At(s, r).certs, At(s, r).done + 1, Head) && x.leaders == s.leaders
    ensures Finished(fp, s, events, r) == [InFlight(s, r).value]
    decreases WritesLeft(At(s, r).work.task)
  {
    var x := Step(fp, s, Act(r, env));
    if At(x, r).work == Head {
      events := [Act(r, env)];
      OneEvent(fp, s, Act(r, env), r);
    } else {
      var rest := WorksOff(fp, x, r, env);
      events := [Act(r, env)] + rest;
      FirstEvent(fp, s, Act(r, env), rest, r);
    }
  }

  lemma FirstEvent(fp: Bytes -> Fingerprint, s: System, e: Event, rest: seq<Event>, r: nat)
    ensures Run(fp, s, [e] + rest) == Run(fp, Step(fp, s, e), rest)
    ensures Finished(fp, s, [e] + rest, r) == Ends(fp, s, e, r) + Finished(fp, Step(fp, s, e), rest, r)
  {
    assert ([e] + rest)[1..] == rest;
  }

  lemma OneEvent(fp: Bytes -> Fingerprint, s: System, e: Event, r: nat)
    ensures Run(fp, s, [e]) == Step(fp, s, e)
    ensures Finished(fp, s, [e], r) == Ends(fp, s, e, r)
  {
    FirstEvent(fp, s, e, [], r);
    assert [e] + [] == [e];
    assert Run(fp, Step(fp, s, e), []) == Step(fp, s, e);
    assert Finished(fp, Step(fp, s, e), [], r) == [];
  }

  ghost predicate OwnWork(events: seq<Event>, r: nat, source: Source, env: Uuid -> Env) {
    forall k :: 0 <= k < |events| ==> events[k] in {Check(r), Read(r, source, env), Act(r, env)}
  }

  /** A leader at the head of its loop can serve the next certificate. */
  lemma ServesNext(fp: Bytes -> Fingerprint, s: System, r: nat, source: Source, env: Uuid -> Env) returns (events: seq<Event>)
    requires At(s, r).Busy? && At(s, r).work == Head && At(s, r).done < |At(s, r).certs| && r in s.leaders
    ensures OwnWork(events, r, source, env)
    ensures var x := Run(fp, s, events);
            At(x, r) == Busy(At(s, r).certs, At(s, r).done + 1, Head) && x.leaders == s.leaders
    ensures Finished(fp, s, events, r) == [At(s, r).certs[At(s, r).done]]
  {
    var s1 := Step(fp, s, Check(r));
    var s2 := Step(fp, s1, Read(r, source, env));
    assert At(s1, r) == Busy(At(s, r).certs, At(s, r).done, Begins) && s1.leaders == s.leaders;
    assert Ends(fp, s, Check(r), r) == [];
    if At(s2, r).work == Head {
      events := [Check(r)] + [Read(r, source, env)];
      FirstEvent(fp, s, Check(r), [Read(r, source, env)], r);
      OneEvent(fp, s1, Read(r, source, env), r);
    } else {
      var rest := WorksOff(fp, s2, r, env);
      events := [Check(r)] + ([Read(r, source, env)] + rest);
      FirstEvent(fp, s, Check(r), [Read(r, source, env)] + rest, r);
      FirstEvent(fp, s1, Read(r, source, env), rest, r);
      assert Ends(fp, s1, Read(r, source, env), r) == [];
    }
  }

  lemma {:induction false} FinishedAppend(fp: Bytes -> Fingerprint, s: System, a: seq<Event>, b: seq<Event>, r: nat)
    ensures Finished(fp, s, a + b, r) == Finished(fp, s, a, r) + Finished(fp, Run(fp, s, a), b, r)
    decreases |a|
  {
    if a == [] {
      assert a + b == b;
    } else {
      assert (a + b)[1..] == a[1..] + b;
      FinishedAppend(fp, Step(fp, s, a[0]), a[1..], b, r);
    }
  }

  /** A leader that keeps leadership can always serve the rest of its list, all of it and in order, whatever its calls meet. */
  lemma {:induction false} LeaderServesAll(fp: Bytes -> Fingerprint, s: System, r: nat, source: Source, env: Uuid -> Env)
    returns (events: seq<Event>)
    requires At(s, r).Busy? && At(s, r).work == Head && At(s, r).done <= |At(s, r).certs| && r in s.leaders
    ensures OwnWork(events, r, source, env)
    ensures Finished(fp, s, events, r) == At(s, r).certs[At(s, r).done..]
    ensures At(Run(fp, s, events), r) == Idle
    decreases |At(s, r).certs| - At(s, r).done
  {
    var certs, done := At(s, r).certs, At(s, r).done;
    if done == |certs| {
      events := [Check(r)];
      OneEvent(fp, s, Check(r), r);
      HeadDecides(fp, s, r);
    } else {
      var next := ServesNext(fp, s, r, source, env);
      var rest := LeaderServesAll(fp, Run(fp, s, next), r, source, env);
      events := next + rest;
      OwnWorkAppend(next, rest, r, source, env);
      FinishedAppend(fp, s, next, rest, r);
      RunAppend(fp, s, next, rest);
      assert certs[done..] == [certs[done]] + certs[done + 1..];
    }
  }

  lemma OwnWorkAppend(a: seq<Event>, b: seq<Event>, r: nat, source: Source, env: Uuid -> Env)
    requires OwnWork(a, r, source, env) && OwnWork(b, r, source, env)
    ensures OwnWork(a + b, r, source, env)
  {
  }

  // ---- What one replica does in its pass

  ghost predicate NoStart(events: seq<Event>, r: nat) {
    forall k :: 0 <= k < |events| ==> !(events[k].Start? && events[k].r == r)
  }

  lemma NoStartTail(events: seq<Event>, r: nat)
    requires NoStart(events, r) && events != []
    ensures !(events[0].Start? && events[0].r == r) && NoStart(events[1..], r)
  {
    assert forall k :: 0 <= k < |events[1..]| ==> events[1..][k] == events[k + 1];
  }

  /** The certificates replica r has left in its pass, the one in flight included. */
  function Left(s: System, r: nat): seq<Cert> {
    match At(s, r)
    case Idle => []
    case Busy(certs, done, _) => if done <= |certs| then certs[done..] else []
  }

  lemma OthersLeaveItAlone(fp: Bytes -> Fingerprint, s: System, e: Event, r: nat)
    requires e.Disturb? || e.r != r
    ensures At(Step(fp, s, e), r) == At(s, r)
  {
  }

  lemma LeftStep(fp: Bytes -> Fingerprint, s: System, e: Event, r: nat)
    requires !(e.Start? && e.r == r)
    ensures var x := Step(fp, s, e);
            Left(s, r) == Ends(fp, s, e, r) + Left(x, r) || (Ends(fp, s, e, r) == [] && Left(x, r) == [])
  {
    if e.Disturb? || e.r != r {
      OthersLeaveItAlone(fp, s, e, r);
    } else if InFlight(s, r).Some? {
      var certs, done := At(s, r).certs, At(s, r).done;
      assert certs[done..] == [certs[done]] + certs[done + 1..];
    }
  }

  /** Until its next pass a replica works through its list in order: what it finishes is a prefix of what was left. */
  lemma {:induction false} FinishesPrefix(fp: Bytes -> Fingerprint, s: System, events: seq<Event>, r: nat)
    requires NoStart(events, r)
    ensures Finished(fp, s, events, r) <= Left(s, r)
    decreases |events|
  {
    if events != [] {
      NoStartTail(events, r);
      LeftStep(fp, s, events[0], r);
      FinishesPrefix(fp, Step(fp, s, events[0]), events[1..], r);
    }
  }

  /** The certificates replica r has yet to begin in its pass. */
  function Ahead(s: System, r: nat): seq<Cert> {
    match At(s, r)
    case Idle => []
    case Busy(certs, done, work) =>
      if done >= |certs| then [] else if work == Head then certs[done..] else certs[done + 1..]
  }

  lemma AheadStep(fp: Bytes -> Fingerprint, s: System, e: Event, r: nat)
    requires !(e.Start? && e.r == r)
    ensures var x := Step(fp, s, e);
            Ahead(s, r) == Starts(fp, s, e, r) + Ahead(x, r) || (Starts(fp, s, e, r) == [] && Ahead(x, r) == [])
  {
    if e.Disturb? || e.r != r {
      OthersLeaveItAlone(fp, s, e, r);
    } else if At(s, r).Busy? && At(s, r).done < |At(s, r).certs| {
      var certs, done := At(s, r).certs, At(s, r).done;
      assert certs[done..] == [certs[done]] + certs[done + 1..];
    }
  }

  /** What it begins is a prefix of what it had not begun yet. */
  lemma {:induction false} BeginsPrefix(fp: Bytes -> Fingerprint, s: System, events: seq<Event>, r: nat)
    requires NoStart(events, r)
    ensures Begun(fp, s, events, r) <= Ahead(s, r)
    decreases |events|
  {
    if events != [] {
      NoStartTail(events, r);
      AheadStep(fp, s, events[0], r);
      BeginsPrefix(fp, Step(fp, s, events[0]), events[1..], r);
    }
  }

  /** Nobody but replica r touches the stores, and all r's certificates meet what source and env say. */
  ghost predicate Alone(events: seq<Event>, r: nat, source: Source, env: Uuid -> Env) {
    forall k :: 0 <= k < |events| ==> ByItself(events[k], r, source, env)
  }

  ghost predicate ByItself(e: Event, r: nat, source: Source, env: Uuid -> Env) {
    && !e.Disturb?
    && (e.Read? ==> e.r == r && e.source == source && e.env == env)
    && (e.Act? ==> e.r == r && e.env == env)
  }

  /** The stores once replica r has finished what it has in flight. */
  function Settled(fp: Bytes -> Fingerprint, s: System, r: nat, source: Source, env: Uuid -> Env): State {
    if InFlight(s, r).None? then s.stores
    else
      var c := InFlight(s, r).value;
      if At(s, r).work == Begins then ReconcileOne(fp, source, s.stores, c, env(c.id)).state
      else Drain(fp, s.stores, c, At(s, r).work.task, env(c.id)).state
  }

  lemma SettledStep(fp: Bytes -> Fingerprint, s: System, e: Event, r: nat, source: Source, env: Uuid -> Env)
    requires ByItself(e, r, source, env)
    ensures Settled(fp, Step(fp, s, e), r, source, env)
            == Pass(fp, source, Settled(fp, s, r, source, env), Starts(fp, s, e, r), env).0
  {
    if InFlight(s, r).Some? && e.Read? && At(s, r).work == Begins {
      var c := InFlight(s, r).value;
      StepsAreReconcileOne(fp, source, s.stores, c, env(c.id));
      SettledContinues(fp, s, r, s.stores, [], Load(fp, source, s.stores, c, env(c.id)), source, env);
    } else if InFlight(s, r).Some? && e.Act? && At(s, r).work.Doing? && !At(s, r).work.task.Over? {
      var c := InFlight(s, r).value;
      var p := Perform(fp, s.stores, c, At(s, r).work.task, env(c.id));
      SettledContinues(fp, s, r, p.state, p.writes, p.next, source, env);
    } else if Starts(fp, s, e, r) != [] {
      OneCertPass(fp, source, s.stores, Starts(fp, s, e, r)[0], env);
    }
  }

  lemma SettledContinues(fp: Bytes -> Fingerprint, s: System, r: nat, stores: State, writes: seq<Write>, next: Task,
                         source: Source, env: Uuid -> Env)
    requires InFlight(s, r).Some?
    ensures var x := Continue(s, r, stores, writes, next);
            var c := InFlight(s, r).value;
            Settled(fp, x, r, source, env) == Drain(fp, stores, c, next, env(c.id)).state
  {
  }

  lemma OneCertPass(fp: Bytes -> Fingerprint, source: Source, s: State, c: Cert, env: Uuid -> Env)
    ensures Pass(fp, source, s, [c], env).0 == ReconcileOne(fp, source, s, c, env(c.id)).state
  {
    var o := ReconcileOne(fp, source, s, c, env(c.id));
    assert [c][1..] == [];
    assert Pass(fp, source, o.state, [], env) == (o.state, []);
  }

  lemma {:induction false} PassAppend(
    fp: Bytes -> Fingerprint, source: Source, s: State, first: seq<Cert>, rest: seq<Cert>, env: Uuid -> Env)
    ensures Pass(fp, source, s, first + rest, env).0 == Pass(fp, source, Pass(fp, source, s, first, env).0, rest, env).0
    decreases |first|
  {
    if first == [] {
      assert [] + rest == rest;
    } else {
      assert (first + rest)[1..] == first[1..] + rest;
      PassAppend(fp, source, ReconcileOne(fp, source, s, first[0], env(first[0].id)).state, first[1..], rest, env);
    }
  }

  /** A run in which only r reconciles, however its steps are interleaved with other replicas' loops, leaves the stores as
      the sequential pass over the certificates it began. */
  lemma {:induction false} AloneIsAPass(
    fp: Bytes -> Fingerprint, s: System, events: seq<Event>, r: nat, source: Source, env: Uuid -> Env)
    requires Alone(events, r, source, env)
    ensures Settled(fp, Run(fp, s, events), r, source, env)
            == Pass(fp, source, Settled(fp, s, r, source, env), Begun(fp, s, events, r), env).0
    decreases |events|
  {
    if events != [] {
      var x := Step(fp, s, events[0]);
      assert ByItself(events[0], r, source, env);
      assert Alone(events[1..], r, source, env) by {
        assert forall k :: 0 <= k < |events[1..]| ==> events[1..][k] == events[k + 1];
      }
      AloneIsAPass(fp, x, events[1..], r, source, env);
      SettledStep(fp, s, events[0], r, source, env);
      PassAppend(fp, source, Settled(fp, s, r, source, env), Starts(fp, s, events[0], r), Begun(fp, x, events[1..], r), env);
    }
  }

  /** From any state of the system, whatever other replicas have half done, the next pass of a leader that works alone
      converges every issued certificate it serves without a failure. */
  lemma SoleLeaderConverges(
    fp: Bytes -> Fingerprint, s: System, events: seq<Event>, r: nat, certs: seq<Cert>, source: Source, env: Uuid -> Env, k: nat)
    requires At(s, r) == Idle && r in s.leaders
    requires NoStart(events, r) && Alone(events, r, source, env)
    requires Distinct(certs) && k < |certs| && certs[k].usage == ServerCert && certs[k].secretName in source
    requires env(certs[k].id).fates == ALL_FINE
    requires var x := Step(fp, s, Start(r, certs));
             k < |Begun(fp, x, events, r)| && InFlight(Run(fp, x, events), r).None?
    ensures Converged(fp, source, Run(fp, Step(fp, s, Start(r, certs)), events).stores, certs[k])
  {
    var x := Step(fp, s, Start(r, certs));
    var begun := Begun(fp, x, events, r);
    AloneIsAPass(fp, x, events, r, source, env);
    BeginsPrefix(fp, x, events, r);
    assert certs[0..] == certs;
    assert begun == certs[..|begun|];
    PassIsolates(fp, source, s.stores, begun, env, k);
    OneConverges(fp, source, s.stores, certs[k], env(certs[k].id));
  }

  // ---- Bookkeeping across replicas

  /** What the task would put into the row comes from a successful push of the certificate, as in a stored row. */
  ghost predicate TaskBacked(fp: Bytes -> Fingerprint, id: Uuid, task: Task, journal: seq<Write>) {
    match task
    case ToPush(dist, _) => dist.Some? ==> Backed(fp, id, dist.value, journal)
    case ToSave(row) => Backed(fp, id, row, journal)
    case ToRecord(row, _) => Backed(fp, id, row, journal)
    case _ => true
  }

  ghost predicate ReplicaBacked(fp: Bytes -> Fingerprint, s: System, r: nat) {
    InFlight(s, r).Some? && At(s, r).work.Doing? ==>
      TaskBacked(fp, InFlight(s, r).value.id, At(s, r).work.task, s.journal)
  }

  ghost predicate SystemBacked(fp: Bytes -> Fingerprint, s: System) {
    AllBacked(fp, s.stores, s.journal) && forall r :: ReplicaBacked(fp, s, r)
  }

  lemma TaskStaysBacked(fp: Bytes -> Fingerprint, id: Uuid, task: Task, journal: seq<Write>, more: seq<Write>)
    requires TaskBacked(fp, id, task, journal)
    ensures TaskBacked(fp, id, task, journal + more)
  {
    match task
    case ToPush(dist, _) => if dist.Some? { StillBacked(fp, id, dist.value, dist.value, journal, more); }
    case ToSave(row) => StillBacked(fp, id, row, row, journal, more);
    case ToRecord(row, _) => StillBacked(fp, id, row, row, journal, more);
    case _ =>
  }

  lemma RowsStayBacked(fp: Bytes -> Fingerprint, s: State, journal: seq<Write>, more: seq<Write>)
    requires AllBacked(fp, s, journal)
    ensures AllBacked(fp, s, journal + more)
  {
    forall id | id in s.rows ensures Backed(fp, id, s.rows[id], journal + more) {
      StillBacked(fp, id, s.rows[id], s.rows[id], journal, more);
    }
  }

  /** A row with the fingerprint and sync time of the loaded one, and not marked synced, is backed if that one was. */
  lemma KeptIsBacked(fp: Bytes -> Fingerprint, id: Uuid, dist: Option<Row>, row: Row, journal: seq<Write>)
    requires dist.Some? ==> Backed(fp, id, dist.value, journal)
    requires row.status != Synced && row.fingerprint == CurrentFingerprint(dist) && row.syncedAt == SyncTime(dist)
    ensures Backed(fp, id, row, journal)
  {
    if dist.Some? {
      StillBacked(fp, id, dist.value, row, journal, []);
      assert journal + [] == journal;
    }
  }

  lemma LoadBacked(fp: Bytes -> Fingerprint, source: Source, s: State, c: Cert, env: Env, journal: seq<Write>)
    requires AllBacked(fp, s, journal)
    ensures TaskBacked(fp, c.id, Load(fp, source, s, c, env), journal)
  {
    match Load(fp, source, s, c, env)
    case ToSave(row) => KeptIsBacked(fp, c.id, RowOf(s, c.id), row, journal);
    case _ =>
  }

  lemma PerformBacked(fp: Bytes -> Fingerprint, s: State, c: Cert, task: Task, env: Env, journal: seq<Write>)
    requires !task.Over? && AllBacked(fp, s, journal) && TaskBacked(fp, c.id, task, journal)
    ensures var p := Perform(fp, s, c, task, env);
            AllBacked(fp, p.state, journal + p.writes) && TaskBacked(fp, c.id, p.next, journal + p.writes)
  {
    var p := Perform(fp, s, c, task, env);
    RowsStayBacked(fp, s, journal, p.writes);
    TaskStaysBacked(fp, c.id, task, journal, p.writes);
    match task
    case ToPush(dist, leaf) =>
      if env.fates.push.Fails? {
        KeptIsBacked(fp, c.id, dist, p.next.row, journal + p.writes);
      } else if env.fates.push.Fine? {
        assert p.writes[0] in journal + p.writes && PushFor(fp, c.id, p.next.row, p.writes[0]);
      }
    case _ =>
  }

  lemma StepBacked(fp: Bytes -> Fingerprint, s: System, e: Event)
    requires SystemBacked(fp, s)
    ensures SystemBacked(fp, Step(fp, s, e))
  {
    var x := Step(fp, s, e);
    if (e.Read? || e.Act?) && x != s {
      assert ReplicaBacked(fp, s, e.r);
      var c := InFlight(s, e.r).value;
      if e.Read? {
        LoadBacked(fp, e.source, s.stores, c, e.env(c.id), s.journal);
        assert s.journal + [] == s.journal;
      } else {
        PerformBacked(fp, s.stores, c, At(s, e.r).work.task, e.env(c.id), s.journal);
      }
      forall r ensures ReplicaBacked(fp, x, r) {
        if r != e.r && InFlight(s, r).Some? && At(s, r).work.Doing? {
          assert ReplicaBacked(fp, s, r);
          OthersStayBacked(fp, s, x, r);
        }
      }
    } else {
      forall r ensures ReplicaBacked(fp, x, r) {
        assert ReplicaBacked(fp, s, r);
      }
    }
  }

  lemma OthersStayBacked(fp: Bytes -> Fingerprint, s: System, x: System, r: nat)
    requires ReplicaBacked(fp, s, r) && At(x, r) == At(s, r) && s.journal <= x.journal
    ensures ReplicaBacked(fp, x, r)
  {
    if InFlight(s, r).Some? && At(s, r).work.Doing? {
      TaskStaysBacked(fp, InFlight(s, r).value.id, At(s, r).work.task, s.journal, x.journal[|s.journal|..]);
      assert s.journal + x.journal[|s.journal|..] == x.journal;
    }
  }

  /** In every interleaving of any number of replicas, leaders or not, each row's fingerprint and sync time are those of one
      successful push of its certificate, or the row never was synced and holds neither. */
  lemma {:induction false} RowsAreBackedEverywhere(fp: Bytes -> Fingerprint, s: System, events: seq<Event>)
    requires SystemBacked(fp, s)
    ensures SystemBacked(fp, Run(fp, s, events))
    decreases |events|
  {
    if events != [] {
      StepBacked(fp, s, events[0]);
      RowsAreBackedEverywhere(fp, Step(fp, s, events[0]), events[1..]);
    }
  }

  // ---- Which push a row is about

  /** Replica r is about to write fingerprint and sync time of a row that has changed them since r read it. */
  ghost predicate Stale(s: System, r: nat) {
    && InFlight(s, r).Some? && At(s, r).work.Doing?
    && var stored := RowOf(s.stores, InFlight(s, r).value.id);
       match At(s, r).work.task
       case ToPush(dist, _) => CurrentFingerprint(dist) != CurrentFingerprint(stored) || SyncTime(dist) != SyncTime(stored)
       case ToSave(row) => row.fingerprint != CurrentFingerprint(stored) || row.syncedAt != SyncTime(stored)
       case _ => false
  }

  /** The promise that a failed reconcile keeps the recorded fingerprint and sync time holds for a save by replica r exactly
      when r's reading is not stale. */
  lemma SaveKeepsIffFresh(fp: Bytes -> Fingerprint, s: System, r: nat, env: Uuid -> Env)
    requires InFlight(s, r).Some? && At(s, r).work.Doing? && At(s, r).work.task.ToSave?
    requires env(InFlight(s, r).value.id).fates.upsert.Fine?
    ensures var id := InFlight(s, r).value.id;
            var before, after := RowOf(s.stores, id), RowOf(Step(fp, s, Act(r, env)).stores, id);
            CurrentFingerprint(after) == CurrentFingerprint(before) && SyncTime(after) == SyncTime(before) <==> !Stale(s, r)
  {
  }

  /** The event saves a row of certificate id by another replica than r. */
  ghost predicate OtherSave(s: System, e: Event, r: nat, id: Uuid) {
    && e.Act? && e.r != r && InFlight(s, e.r).Some? && InFlight(s, e.r).value.id == id
    && At(s, e.r).work.Doing? && (At(s, e.r).work.task.ToSave? || At(s, e.r).work.task.ToRecord?)
  }

  lemma OwnStepFresh(fp: Bytes -> Fingerprint, s: System, e: Event)
    requires (e.Read? || e.Act?) && !Stale(s, e.r)
    ensures !Stale(Step(fp, s, e), e.r)
  {
  }

  lemma RowKept(fp: Bytes -> Fingerprint, s: System, e: Event, r: nat, id: Uuid)
    requires !((e.Read? || e.Act?) && e.r == r) && !OtherSave(s, e, r, id)
    ensures RowOf(Step(fp, s, e).stores, id) == RowOf(s.stores, id)
  {
  }

  lemma StaleStep(fp: Bytes -> Fingerprint, s: System, e: Event, r: nat)
    requires !Stale(s, r) && Stale(Step(fp, s, e), r)
    ensures InFlight(s, r).Some? && OtherSave(s, e, r, InFlight(s, r).value.id)
  {
    if (e.Read? || e.Act?) && e.r == r {
      OwnStepFresh(fp, s, e);
    } else if InFlight(s, r).Some? && !OtherSave(s, e, r, InFlight(s, r).value.id) {
      RowKept(fp, s, e, r, InFlight(s, r).value.id);
    }
  }

  /** A reading goes stale only by another replica's save of the same certificate while it is in flight. */
  lemma {:induction false} StaleOnlyByOtherSave(fp: Bytes -> Fingerprint, s: System, events: seq<Event>, r: nat)
    requires !Stale(s, r) && Stale(Run(fp, s, events), r)
    ensures exists k :: && 0 <= k < |events|
                        && var x := Run(fp, s, events[..k]);
                           InFlight(x, r).Some? && OtherSave(x, events[k], r, InFlight(x, r).value.id)
    decreases |events|
  {
    var x := Step(fp, s, events[0]);
    if Stale(x, r) {
      StaleStep(fp, s, events[0], r);
      assert events[..0] == [] && Run(fp, s, events[..0]) == s;
    } else {
      StaleOnlyByOtherSave(fp, x, events[1..], r);
      var k :| && 0 <= k < |events[1..]|
               && var y := Run(fp, x, events[1..][..k]);
                  InFlight(y, r).Some? && OtherSave(y, events[1..][k], r, InFlight(y, r).value.id);
      assert events[..k + 1][1..] == events[1..][..k];
      assert Run(fp, s, events[..k + 1]) == Run(fp, x, events[1..][..k]);
      assert events[k + 1] == events[1..][k];
    }
  }

  // ---- A deposed leader that comes late

  const WEB := Cert(1, 2, "web", ServerCert)
  const LEAF := Leaf("new", "key")
  const OLD_ROW := Row(5, 2, Synced, "old", NoNote, Some(1))
  const LATE_ROW := Row(5, 2, SyncError, "old", SourceUnreadable, Some(1))
  const NEW_ROW := Row(5, 2, Synced, "new", NoNote, Some(9))
  const OLD_PUSH := Push(1, Target(2, "web"), Secret(Some("old"), Some("key")), Fine, 1)
  const PUSH := Push(1, Target(2, "web"), Secret(Some("new"), Some("key")), Fine, 9)

  function Web(unreadable: bool): Uuid -> Env {
    _ => Env(if unreadable then ALL_FINE.(readSource := Fails(false)) else ALL_FINE, 9, 6)
  }

  function Two(leaders: set<nat>, first: Work, second: Work, stores: State, journal: seq<Write>): System {
    System(leaders, map[0 := Busy([WEB], 0, first), 1 := Busy([WEB], 0, second)], stores, journal)
  }

  const BEFORE := State(map[1 := OLD_ROW], map[], map[])
  const PUSHED := State(map[1 := OLD_ROW], map[Target(2, "web") := Secret(Some("new"), Some("key"))], map[])
  const START := Two({0}, Begins, Head, BEFORE, [OLD_PUSH])
  const LATE := Doing(ToSave(LATE_ROW))
  const HANDOVER := Two({1}, LATE, Begins, BEFORE, [OLD_PUSH])
  const RECORDED := Two({1}, LATE, Doing(ToDescribe("new")), PUSHED.(rows := map[1 := NEW_ROW]),
                        [OLD_PUSH, PUSH, SaveRow(1, NEW_ROW, Fine)])

  lemma {:induction false} RunAppend(fp: Bytes -> Fingerprint, s: System, a: seq<Event>, b: seq<Event>)
    ensures Run(fp, s, a + b) == Run(fp, Run(fp, s, a), b)
    decreases |a|
  {
    if a == [] {
      assert a + b == b;
    } else {
      assert (a + b)[1..] == a[1..] + b;
      RunAppend(fp, Step(fp, s, a[0]), a[1..], b);
    }
  }

  lemma RunOne(fp: Bytes -> Fingerprint, s: System, e: Event)
    ensures Run(fp, s, [e]) == Step(fp, s, e)
  {
    assert [e][1..] == [];
    assert Run(fp, Step(fp, s, e), []) == Step(fp, s, e);
  }

  /** Replica 0 reads the row, fails to read the source, and loses leadership to replica 1. */
  lemma HandoverSteps(fp: Bytes -> Fingerprint, source: Source)
    ensures Step(fp, START, Read(0, source, Web(true))) == Two({0}, LATE, Head, BEFORE, [OLD_PUSH])
    ensures Step(fp, Two({0}, LATE, Head, BEFORE, [OLD_PUSH]), Lose(0)) == Two({}, LATE, Head, BEFORE, [OLD_PUSH])
    ensures Step(fp, Two({}, LATE, Head, BEFORE, [OLD_PUSH]), Gain(1)) == Two({1}, LATE, Head, BEFORE, [OLD_PUSH])
    ensures Step(fp, Two({1}, LATE, Head, BEFORE, [OLD_PUSH]), Check(1)) == HANDOVER
  {
  }

  /** Replica 1 reads, pushes the new certificate and records it. */
  lemma NewLeaderReads(fp: Bytes -> Fingerprint, source: Source)
    requires fp("new") == "new" && "web" in source && source["web"] == LEAF
    ensures Step(fp, HANDOVER, Read(1, source, Web(false)))
            == Two({1}, LATE, Doing(ToPush(Some(OLD_ROW), LEAF)), BEFORE, [OLD_PUSH])
  {
  }

  lemma NewLeaderPushes(fp: Bytes -> Fingerprint)
    requires fp("new") == "new"
    ensures Step(fp, Two({1}, LATE, Doing(ToPush(Some(OLD_ROW), LEAF)), BEFORE, [OLD_PUSH]), Act(1, Web(false)))
            == Two({1}, LATE, Doing(ToRecord(NEW_ROW, "new")), PUSHED, [OLD_PUSH, PUSH])
  {
  }

  lemma NewLeaderRecords(fp: Bytes -> Fingerprint)
    ensures Step(fp, Two({1}, LATE, Doing(ToRecord(NEW_ROW, "new")), PUSHED, [OLD_PUSH, PUSH]), Act(1, Web(false))) == RECORDED
  {
  }

  /** Then replica 0 saves its error, and with it the old fingerprint and sync time. */
  lemma LateSave(fp: Bytes -> Fingerprint)
    ensures var x := Step(fp, RECORDED, Act(0, Web(true)));
            RowOf(x.stores, 1) == Some(LATE_ROW) && RECORDED.journal <= x.journal
  {
  }

  /** The promise that a row records the last successful push is false across replicas: in this run the row ends with the
      old fingerprint and sync time although the new certificate was pushed and recorded. */
  lemma LateSaveExample(fp: Bytes -> Fingerprint, source: Source)
    requires fp("old") == "old" && fp("new") == "new" && "web" in source && source["web"] == LEAF
    ensures SystemBacked(fp, START)
    ensures var handover := [Read(0, source, Web(true))] + [Lose(0)] + [Gain(1)] + [Check(1)];
            var record := [Read(1, source, Web(false))] + [Act(1, Web(false))] + [Act(1, Web(false))];
            var x := Run(fp, START, handover + record + [Act(0, Web(true))]);
            && PUSH in x.journal && SaveRow(1, NEW_ROW, Fine) in x.journal
            && RowOf(x.stores, 1) == Some(LATE_ROW)
  {
    var handover := [Read(0, source, Web(true))] + [Lose(0)] + [Gain(1)] + [Check(1)];
    var record := [Read(1, source, Web(false))] + [Act(1, Web(false))] + [Act(1, Web(false))];
    HandoverRun(fp, source);
    RecordRun(fp, source);
    RunAppend(fp, START, handover, record);
    RunAppend(fp, START, handover + record, [Act(0, Web(true))]);
    RunOne(fp, RECORDED, Act(0, Web(true)));
    LateSave(fp);
    assert RECORDED.journal[1] == PUSH && RECORDED.journal[2] == SaveRow(1, NEW_ROW, Fine);
    assert OLD_PUSH in START.journal && PushFor(fp, 1, OLD_ROW, OLD_PUSH);
  }

  lemma HandoverRun(fp: Bytes -> Fingerprint, source: Source)
    ensures Run(fp, START, [Read(0, source, Web(true))] + [Lose(0)] + [Gain(1)] + [Check(1)]) == HANDOVER
  {
    HandoverSteps(fp, source);
    var first := Read(0, source, Web(true));
    RunOne(fp, START, first);
    RunAppend(fp, START, [first], [Lose(0)]);
    RunOne(fp, Two({0}, LATE, Head, BEFORE, [OLD_PUSH]), Lose(0));
    RunAppend(fp, START, [first] + [Lose(0)], [Gain(1)]);
    RunOne(fp, Two({}, LATE, Head, BEFORE, [OLD_PUSH]), Gain(1));
    RunAppend(fp, START, [first] + [Lose(0)] + [Gain(1)], [Check(1)]);
    RunOne(fp, Two({1}, LATE, Head, BEFORE, [OLD_PUSH]), Check(1));
  }

  lemma RecordRun(fp: Bytes -> Fingerprint, source: Source)
    requires fp("new") == "new" && "web" in source && source["web"] == LEAF
    ensures Run(fp, HANDOVER, [Read(1, source, Web(false))] + [Act(1, Web(false))] + [Act(1, Web(false))]) == RECORDED
  {
    var first, next := Read(1, source, Web(false)), Act(1, Web(false));
    NewLeaderReads(fp, source);
    NewLeaderPushes(fp);
    NewLeaderRecords(fp);
    RunOne(fp, HANDOVER, first);
    RunAppend(fp, HANDOVER, [first], [next]);
    RunOne(fp, Two({1}, LATE, Doing(ToPush(Some(OLD_ROW), LEAF)), BEFORE, [OLD_PUSH]), next);
    RunAppend(fp, HANDOVER, [first] + [next], [next]);
    RunOne(fp, Two({1}, LATE, Doing(ToRecord(NEW_ROW, "new")), PUSHED, [OLD_PUSH, PUSH]), next);
  }
}
