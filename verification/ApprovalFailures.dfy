/** What becomes of an approval when saving it fails after its stage was saved. */
module ApprovalFailures {
  import opened Basics
  import opened ApprovalModel
  import opened Traversal
  import opened ApprovalSafety
  import opened ApprovalProgress
  import Planning

  // ---- A project without policies, and one submission to it

  const COMPLETERS: Completers := map[Route := Completer(None)]
  const SPEC := Spec(1, Route, 2, "create", 3, "", "", "", "")
  const GATE := Planning.DefaultStage("route.approve").(id := 20)
  const SUBMITTED := EMPTY.(approvals := map[10 := Approval(SPEC, Pending, [GATE])])
  const REVIEWER := User(4, Owner)

  function SubmitGate(d: Directory): Action {
    SubmitA(d, (p, e, a) => NotFound, NO_FAULTS, 10, i => 20 + i, SPEC)
  }

  lemma GateSubmitted(d: Directory)
    ensures Step(COMPLETERS, EMPTY, SubmitGate(d)).world == SUBMITTED
  {
    var submit := SubmitGate(d);
    assert Planning.Plan(d, submit.policies, SPEC) == Ok([Planning.DefaultStage("route.approve")]);
    assert WithIds([Planning.DefaultStage("route.approve")], submit.mint) == [GATE];
  }

  lemma GateAuthorized(d: Directory)
    ensures Authorize(d, SUBMITTED.approvals[10], 20, REVIEWER) == Ok(0)
  {
  }

  lemma ThenOneCall(d: Directory, act: Action)
    ensures Run(COMPLETERS, EMPTY, [SubmitGate(d), act]) == Step(COMPLETERS, SUBMITTED, act).world
  {
    GateSubmitted(d);
    RunOneCall(COMPLETERS, SUBMITTED, act);
    RunCons(COMPLETERS, EMPTY, SubmitGate(d), [act]);
    assert [SubmitGate(d)] + [act] == [SubmitGate(d), act];
  }

  lemma RunOneCall(c: Completers, w: World, act: Action)
    ensures Run(c, w, [act]) == Step(c, w, act).world
  {
    assert [act][1..] == [];
    assert Run(c, Step(c, w, act).world, []) == Step(c, w, act).world;
  }

  // ---- Every stage approved, yet pending

  lemma LostSaveTail(w: World, now: nat, id: Uuid, i: nat, u: User)
    requires id in w.approvals && w.approvals[id].status == Pending && i < |w.approvals[id].stages|
    requires CountAndSettle(w, now, NO_FAULTS, id, i, u).world.approvals[id].status == Approved
    ensures var x := CountAndSettle(w, now, NO_FAULTS.(save := true), id, i, u).world;
            var good := CountAndSettle(w, now, NO_FAULTS, id, i, u).world;
            id in x.approvals && x.approvals[id] == good.approvals[id].(status := Pending)
  {
  }

  /** The failure-free approval approves the whole approval. */
  ghost predicate Approves(c: Completers, w: World, d: Directory, now: nat, id: Uuid, stageId: Uuid, u: User) {
    var good := ApproveStage(c, w, d, now, NO_FAULTS, id, stageId, u).world;
    id in good.approvals && good.approvals[id].status == Approved
  }

  /** What the same accepted approval writes when only saving the approval fails. */
  lemma LostSaveShape(c: Completers, w: World, d: Directory, now: nat, id: Uuid, stageId: Uuid, u: User)
    requires id in w.approvals && w.approvals[id].status == Pending
    requires Approves(c, w, d, now, id, stageId, u)
    ensures var x := ApproveStage(c, w, d, now, NO_FAULTS.(save := true), id, stageId, u).world;
            var good := ApproveStage(c, w, d, now, NO_FAULTS, id, stageId, u).world;
            && id in x.approvals && id in good.approvals
            && x.approvals[id] == good.approvals[id].(status := Pending)
  {
    AdmitIff(c, w, d, NO_FAULTS, id, stageId, u);
    AdmitIff(c, w, d, NO_FAULTS.(save := true), id, stageId, u);
    var i := Authorize(d, w.approvals[id], stageId, u).value;
    LostSaveTail(AddReview(w, stageId, Review(u.id, DecidedApprove)), now, id, i, u);
  }

  /** The promise that an approval with every stage approved is itself approved is false of the code when saving the
      approval fails after its last stage was saved: the same call that would have approved it leaves it pending for
      good, the completer never told. */
  lemma LostSaveWedges(c: Completers, w: World, d: Directory, now: nat, id: Uuid, stageId: Uuid, u: User, later: seq<Action>)
    requires Inv(w) && id in w.approvals && w.approvals[id].status == Pending
    requires Approves(c, w, d, now, id, stageId, u)
    requires forall k :: 0 <= k < |later| ==> !(later[k].CancelA? && later[k].id == id)
    ensures var x := ApproveStage(c, w, d, now, NO_FAULTS.(save := true), id, stageId, u).world;
            var y := Run(c, x, later);
            && id in y.approvals && Complete(y.approvals[id].stages)
            && y.approvals[id].status == Pending && CallsOf(y, id) == []
  {
    var f := NO_FAULTS.(save := true);
    var x := ApproveStage(c, w, d, now, f, id, stageId, u).world;
    LostSaveShape(c, w, d, now, id, stageId, u);
    ApproveComplete(c, w, d, now, id, stageId, u);
    ApproveSafe(c, w, d, now, f, id, stageId, u);
    StuckForGood(c, x, later, id);
    RunAt(c, x, later, id);
  }

  lemma ApproveComplete(c: Completers, w: World, d: Directory, now: nat, id: Uuid, stageId: Uuid, u: User)
    requires Inv(w) && id in w.approvals
    ensures var good := ApproveStage(c, w, d, now, NO_FAULTS, id, stageId, u).world;
            id in good.approvals && (good.approvals[id].status == Approved ==> Complete(good.approvals[id].stages))
  {
    ApproveSafe(c, w, d, now, NO_FAULTS, id, stageId, u);
    var good := ApproveStage(c, w, d, now, NO_FAULTS, id, stageId, u).world;
    assert ApprovalEvolves(w.approvals[id], good.approvals[id]);
    assert Sound(good.approvals[id], good.reviews, CallsOf(good, id));
  }

  /** A state in which that happens is reached by one submission and one approval. */
  lemma LostSaveExample(d: Directory, now: nat)
    ensures var acts := [SubmitGate(d), ApproveA(d, now, NO_FAULTS.(save := true), 10, 20, REVIEWER)];
            var w := Run(COMPLETERS, EMPTY, acts);
            && 10 in w.approvals && w.approvals[10].status == Pending && Complete(w.approvals[10].stages)
            && !Open(w.approvals[10].stages)
  {
    var approve := ApproveA(d, now, NO_FAULTS.(save := true), 10, 20, REVIEWER);
    ThenOneCall(d, approve);
    GateAuthorized(d);
    var recorded := AddReview(SUBMITTED, 20, Review(4, DecidedApprove));
    CountAppend([], Review(4, DecidedApprove));
    var settled := PutStage(recorded, 10, 0, Reviewed(GATE, Approved, 4, now));
    assert CountAndSettle(recorded, now, NO_FAULTS.(save := true), 10, 0, REVIEWER).world == settled;
    assert Step(COMPLETERS, SUBMITTED, approve).world == settled;
  }

  /** Of all calls only an approval completes the stages, and it then approves the approval exactly when saving it does not
      fail. */
  lemma CompletedIsApprovedIffSaved(c: Completers, w: World, act: Action, id: Uuid)
    requires Inv(w) && id in w.approvals && w.approvals[id].status == Pending && !Complete(w.approvals[id].stages)
    requires var x := Step(c, w, act).world; id in x.approvals && Complete(x.approvals[id].stages)
    ensures act.ApproveA? && act.id == id
    ensures Step(c, w, act).world.approvals[id].status == if act.faults.save then Pending else Approved
  {
    assert Sound(w.approvals[id], w.reviews, CallsOf(w, id));
    if act.id != id || act.SubmitA? {
      OtherRowsKept(c, w, act, id);
    } else if act.RejectA? {
      RejectNeverCompletes(c, w, act);
    } else if act.ApproveA? {
      ApproveWrites(c, w, act.dir, act.now, act.faults, id, act.stageId, act.user);
      var i := Authorize(act.dir, w.approvals[id], act.stageId, act.user).value;
      SettledStatus(AddReview(w, act.stageId, Review(act.user.id, DecidedApprove)), act.now, act.faults, id, i, act.user);
    }
  }

  lemma SettledStatus(w: World, now: nat, f: Faults, id: Uuid, i: nat, u: User)
    requires id in w.approvals && w.approvals[id].status == Pending && i < |w.approvals[id].stages|
    requires UniqueIds(w.approvals[id].stages) && !Complete(w.approvals[id].stages)
    requires Complete(CountAndSettle(w, now, f, id, i, u).world.approvals[id].stages)
    ensures CountAndSettle(w, now, f, id, i, u).world.approvals[id].status == if f.save then Pending else Approved
  {
  }

  lemma RejectNeverCompletes(c: Completers, w: World, act: Action)
    requires act.RejectA? && act.id in w.approvals && !Complete(w.approvals[act.id].stages)
    ensures var x := Step(c, w, act).world; act.id in x.approvals && !Complete(x.approvals[act.id].stages)
  {
    var f := act.faults;
    var o := Step(c, w, act);
    if o.world != w {
      var i := Authorize(act.dir, w.approvals[act.id], act.stageId, act.user).value;
      var recorded := RecordRejection(w, f, act.stageId, act.user);
      RejectTailIncomplete(recorded, act.now, f, act.id, i, act.user, act.comment);
    }
  }

  lemma RejectTailIncomplete(w: World, now: nat, f: Faults, id: Uuid, i: nat, u: User, comment: string)
    requires id in w.approvals && i < |w.approvals[id].stages| && !Complete(w.approvals[id].stages)
    ensures var x := RejectAndClose(w, now, f, id, i, u, comment).world;
            id in x.approvals && !Complete(x.approvals[id].stages)
  {
    if !f.saveStage {
      var s := Reviewed(w.approvals[id].stages[i], Rejected, u.id, now).(comment := comment);
      assert w.approvals[id].stages[i := s][i].status == Rejected;
    }
  }

  /** Stored with every stage approved, yet still pending. */
  ghost predicate Stranded(w: World, id: Uuid) {
    id in w.approvals && Complete(w.approvals[id].stages) && w.approvals[id].status == Pending
  }

  lemma NewRowIsOpen(c: Completers, w: World, act: Action, id: Uuid)
    requires Inv(w) && id !in w.approvals && id in Step(c, w, act).world.approvals
    ensures var a := Step(c, w, act).world.approvals[id]; !Complete(a.stages) && !HasRejected(a.stages)
  {
    match act
    case SubmitA(d, p, f, other, mint, spec) =>
      SubmittedIsExact(w, d, p, f, other, mint, spec);
      NeitherEnd(Submit(w, d, p, f, other, mint, spec).reply.value, w.reviews);
    case CancelA(_, _, _, _) =>
    case ApproveA(d, now, f, other, stageId, u) => ApproveAddsNoRow(c, w, d, now, f, other, stageId, u);
    case RejectA(d, now, f, other, stageId, u, comment) => RejectAddsNoRow(c, w, d, now, f, other, stageId, u, comment);
  }

  lemma NeitherEnd(a: Approval, reviews: map<Uuid, seq<Review>>)
    requires Exact(a, reviews) && a.status == Pending
    ensures !Complete(a.stages) && !HasRejected(a.stages)
  {
    forall i | 0 <= i < |a.stages| ensures a.stages[i].status != Rejected {
      assert StageExact(a.stages[i], ReviewsOf(reviews, a.stages[i].id));
    }
  }

  // ---- A stage rejected, yet pending

  /** What an accepted rejection writes when only saving the approval fails. */
  lemma LostRejectionShape(c: Completers, w: World, d: Directory, now: nat, id: Uuid, stageId: Uuid, u: User, comment: string)
    returns (i: nat)
    requires RejectStage(c, w, d, now, NO_FAULTS, id, stageId, u, comment).reply.Ok?
    ensures id in w.approvals && i < |w.approvals[id].stages|
    ensures var a := w.approvals[id];
            var x := RejectStage(c, w, d, now, NO_FAULTS.(save := true), id, stageId, u, comment).world;
            && a.status == Pending && a.stages[i].id == stageId
            && a.stages[i].status == Pending && LowerApproved(a.stages, a.stages[i].order)
            && id in x.approvals
            && x.approvals[id] == a.(stages :=
                 a.stages[i := Reviewed(a.stages[i], Rejected, u.id, now).(comment := comment)])
  {
    i := Authorize(d, w.approvals[id], stageId, u).value;
  }

  /** Rejecting a stage leaves the approval open exactly when another stage was open. */
  lemma StillOpenIff(stages: seq<Stage>, i: nat, s: Stage)
    requires i < |stages| && stages[i].status == Pending && LowerApproved(stages, stages[i].order)
    requires s.status == Rejected && s.order == stages[i].order
    ensures Open(stages[i := s]) <==>
            exists k :: 0 <= k < |stages| && k != i && stages[k].status == Pending && LowerApproved(stages, stages[k].order)
  {
    var after := stages[i := s];
    forall k | 0 <= k < |stages| && k != i
      ensures LowerApproved(after, stages[k].order) <==> LowerApproved(stages, stages[k].order)
    {
      if LowerApproved(after, stages[k].order) {
        forall j | 0 <= j < |stages| && stages[j].order < stages[k].order ensures stages[j].status == Approved {
          assert after[j].status == Approved;
        }
      } else {
        var j :| 0 <= j < |after| && after[j].order < stages[k].order && after[j].status != Approved;
        assert stages[j].status != Approved;
      }
    }
    if Open(after) {
      var k :| 0 <= k < |after| && after[k].status == Pending && LowerApproved(after, after[k].order);
      assert k != i;
    }
    if k :| 0 <= k < |stages| && k != i && stages[k].status == Pending && LowerApproved(stages, stages[k].order) {
      assert after[k] == stages[k];
    }
  }

  /** What an accepted rejection leaves when only saving the approval fails: pending, and open exactly when another stage
      was open before. */
  lemma OpenAfterLostRejection(
    c: Completers, w: World, d: Directory, now: nat, id: Uuid, stageId: Uuid, u: User, comment: string)
    requires Inv(w) && RejectStage(c, w, d, now, NO_FAULTS, id, stageId, u, comment).reply.Ok?
    ensures var a := w.approvals[id];
            var x := RejectStage(c, w, d, now, NO_FAULTS.(save := true), id, stageId, u, comment).world;
            && Inv(x) && id in x.approvals && x.approvals[id].status == Pending && x.approvals[id].spec == a.spec
            && HasRejected(x.approvals[id].stages)
            && (Open(x.approvals[id].stages) <==>
                  exists k :: 0 <= k < |a.stages| && a.stages[k].id != stageId && a.stages[k].status == Pending
                              && LowerApproved(a.stages, a.stages[k].order))
  {
    var x := RejectStage(c, w, d, now, NO_FAULTS.(save := true), id, stageId, u, comment).world;
    var i := LostRejectionShape(c, w, d, now, id, stageId, u, comment);
    var a := w.approvals[id];
    assert UniqueIds(a.stages) by { assert Sound(a, w.reviews, CallsOf(w, id)); }
    OpenElsewhereIff(a.stages, i, x.approvals[id].stages[i]);
    RejectSafe(c, w, d, now, NO_FAULTS.(save := true), id, stageId, u, comment);
  }

  lemma OpenElsewhereIff(stages: seq<Stage>, i: nat, s: Stage)
    requires UniqueIds(stages) && i < |stages| && stages[i].status == Pending && LowerApproved(stages, stages[i].order)
    requires s.status == Rejected && s.order == stages[i].order
    ensures HasRejected(stages[i := s])
    ensures Open(stages[i := s]) <==>
            exists k :: 0 <= k < |stages| && stages[k].id != stages[i].id && stages[k].status == Pending
                        && LowerApproved(stages, stages[k].order)
  {
    assert stages[i := s][i].status == Rejected;
    assert forall k :: 0 <= k < |stages| ==> (stages[k].id != stages[i].id <==> k != i);
    StillOpenIff(stages, i, s);
  }

  /** The promise that an approval with a rejected stage is itself rejected is false of the code in the same way: when
      saving the approval fails after its rejected stage was saved and no other stage was open, it stays pending for good,
      the completer never told. */
  lemma LostRejectionWedges(
    c: Completers, w: World, d: Directory, now: nat, id: Uuid, stageId: Uuid, u: User, comment: string, later: seq<Action>)
    requires Inv(w) && RejectStage(c, w, d, now, NO_FAULTS, id, stageId, u, comment).reply.Ok?
    requires forall k :: 0 <= k < |w.approvals[id].stages| && w.approvals[id].stages[k].status == Pending
                         && LowerApproved(w.approvals[id].stages, w.approvals[id].stages[k].order)
                         ==> w.approvals[id].stages[k].id == stageId
    requires forall k :: 0 <= k < |later| ==> !(later[k].CancelA? && later[k].id == id)
    ensures var x := RejectStage(c, w, d, now, NO_FAULTS.(save := true), id, stageId, u, comment).world;
            var y := Run(c, x, later);
            && id in y.approvals && HasRejected(y.approvals[id].stages)
            && y.approvals[id].status == Pending && CallsOf(y, id) == []
  {
    var x := RejectStage(c, w, d, now, NO_FAULTS.(save := true), id, stageId, u, comment).world;
    OpenAfterLostRejection(c, w, d, now, id, stageId, u, comment);
    StuckForGood(c, x, later, id);
    RunAt(c, x, later, id);
  }

  /** A state in which that happens is reached by one submission and one rejection. */
  lemma LostRejectionExample(d: Directory, now: nat)
    ensures var acts := [SubmitGate(d), RejectA(d, now, NO_FAULTS.(save := true), 10, 20, REVIEWER, "no")];
            var w := Run(COMPLETERS, EMPTY, acts);
            && 10 in w.approvals && w.approvals[10].status == Pending && HasRejected(w.approvals[10].stages)
            && !Open(w.approvals[10].stages)
  {
    var reject := RejectA(d, now, NO_FAULTS.(save := true), 10, 20, REVIEWER, "no");
    ThenOneCall(d, reject);
    GateAuthorized(d);
    var recorded := AddReview(SUBMITTED, 20, Review(4, DecidedReject));
    var settled := PutStage(recorded, 10, 0, Reviewed(GATE, Rejected, 4, now).(comment := "no"));
    assert Step(COMPLETERS, SUBMITTED, reject).world == settled;
    assert settled.approvals[10].stages[0].status == Rejected;
  }

  /** That loss is final exactly when no other stage was open: otherwise, and only then, an owner can still reject the
      approval. */
  lemma LostRejectionFinalIff(
    c: Completers, w: World, d: Directory, now: nat, id: Uuid, stageId: Uuid, u: User, comment: string, owner: User)
    requires Inv(w) && RejectStage(c, w, d, now, NO_FAULTS, id, stageId, u, comment).reply.Ok?
    requires owner.role == Owner && owner.id != w.approvals[id].spec.submittedBy
    ensures var a := w.approvals[id];
            var x := RejectStage(c, w, d, now, NO_FAULTS.(save := true), id, stageId, u, comment).world;
            (exists other :: RejectStage(c, x, d, now, NO_FAULTS, id, other, owner, comment).reply.Ok?) <==>
            exists k :: 0 <= k < |a.stages| && a.stages[k].id != stageId && a.stages[k].status == Pending
                        && LowerApproved(a.stages, a.stages[k].order)
  {
    var x := RejectStage(c, w, d, now, NO_FAULTS.(save := true), id, stageId, u, comment).world;
    OpenAfterLostRejection(c, w, d, now, id, stageId, u, comment);
    RejectedHasCompleter(c, w, d, now, id, stageId, u, comment);
    RejectableIffOpen(c, x, d, now, id, owner, comment);
  }

  lemma RejectedHasCompleter(
    c: Completers, w: World, d: Directory, now: nat, id: Uuid, stageId: Uuid, u: User, comment: string)
    requires RejectStage(c, w, d, now, NO_FAULTS, id, stageId, u, comment).reply.Ok?
    ensures comment != "" && id in w.approvals && w.approvals[id].spec.entityType in c
  {
  }

  /** Of all calls only a rejection gives a pending approval its first rejected stage, and it then rejects the approval
      exactly when saving it does not fail. */
  lemma RejectedIsClosedIffSaved(c: Completers, w: World, act: Action, id: Uuid)
    requires Inv(w) && id in w.approvals && w.approvals[id].status == Pending && !HasRejected(w.approvals[id].stages)
    requires var x := Step(c, w, act).world; id in x.approvals && HasRejected(x.approvals[id].stages)
    ensures act.RejectA? && act.id == id
    ensures Step(c, w, act).world.approvals[id].status == if act.faults.save then Pending else Rejected
  {
    if act.id != id || act.SubmitA? {
      OtherRowsKept(c, w, act, id);
    } else if act.ApproveA? {
      ApproveWrites(c, w, act.dir, act.now, act.faults, id, act.stageId, act.user);
      var i := Authorize(act.dir, w.approvals[id], act.stageId, act.user).value;
      SettleNeverRejects(AddReview(w, act.stageId, Review(act.user.id, DecidedApprove)), act.now, act.faults, id, i, act.user);
    } else if act.RejectA? {
      RejectedStatus(c, w, act.dir, act.now, act.faults, id, act.stageId, act.user, act.comment);
    }
  }

  lemma SettleNeverRejects(w: World, now: nat, f: Faults, id: Uuid, i: nat, u: User)
    requires id in w.approvals && i < |w.approvals[id].stages| && !HasRejected(w.approvals[id].stages)
    ensures var x := CountAndSettle(w, now, f, id, i, u).world;
            id in x.approvals && !HasRejected(x.approvals[id].stages)
  {
  }

  lemma RejectedStatus(c: Completers, w: World, d: Directory, now: nat, f: Faults, id: Uuid, stageId: Uuid, u: User,
                       comment: string)
    requires id in w.approvals && w.approvals[id].status == Pending && !HasRejected(w.approvals[id].stages)
    requires var x := RejectStage(c, w, d, now, f, id, stageId, u, comment).world;
             id in x.approvals && HasRejected(x.approvals[id].stages)
    ensures RejectStage(c, w, d, now, f, id, stageId, u, comment).world.approvals[id].status
            == if f.save then Pending else Rejected
  {
  }

  /** Stored with a rejected stage, yet still pending. */
  ghost predicate HalfRejected(w: World, id: Uuid) {
    id in w.approvals && HasRejected(w.approvals[id].stages) && w.approvals[id].status == Pending
  }

  // ---- A quorum on record, yet pending

  /** Stage i has its quorum on record, yet is pending. */
  ghost predicate Unsettled(w: World, id: Uuid, i: nat) {
    && id in w.approvals && i < |w.approvals[id].stages|
    && w.approvals[id].stages[i].status == Pending
    && HasQuorum(w, id, i)
  }

  ghost predicate HasQuorum(w: World, id: Uuid, i: nat)
    requires id in w.approvals && i < |w.approvals[id].stages|
  {
    var s := w.approvals[id].stages[i];
    CountApproved(ReviewsOf(w.reviews, s.id)) >= Effective(s.minApprovers)
  }

  /** The promise that a stage with its quorum on record is approved is false of the code too: the call that brings the
      quorum approves the stage exactly when neither the count nor saving the stage fails. */
  lemma QuorumSettlesIff(c: Completers, w: World, act: Action, id: Uuid, i: nat)
    requires Inv(w) && id in w.approvals && i < |w.approvals[id].stages|
    requires w.approvals[id].stages[i].status == Pending && !HasQuorum(w, id, i)
    requires var x := Step(c, w, act).world;
             id in x.approvals && |x.approvals[id].stages| == |w.approvals[id].stages| && HasQuorum(x, id, i)
    ensures act.ApproveA? && act.id == id && act.stageId == w.approvals[id].stages[i].id
    ensures Step(c, w, act).world.approvals[id].stages[i].status
            == if act.faults.count || act.faults.saveStage then Pending else Approved
  {
    var a := w.approvals[id];
    StepAt(c, w, act, id);
    assert StageEvolves(a.stages[i], Step(c, w, act).world.approvals[id].stages[i]);
    WhoCounts(c, w, act, a.stages[i].id);
    OneOwner(w, id, act.id, i, Authorize(act.dir, w.approvals[act.id], act.stageId, act.user).value);
    AuthorizedOrder(act.dir, a, act.user, i);
    StageSettledIff(c, w, act.dir, act.now, act.faults, id, i, act.user);
  }

  lemma StageSettledIff(c: Completers, w: World, d: Directory, now: nat, f: Faults, id: Uuid, i: nat, u: User)
    requires id in w.approvals && i < |w.approvals[id].stages| && w.approvals[id].stages[i].status == Pending
    requires Authorize(d, w.approvals[id], w.approvals[id].stages[i].id, u) == Ok(i)
    requires var stageId := w.approvals[id].stages[i].id;
             var o := ApproveStage(c, w, d, now, f, id, stageId, u);
             && o.world.reviews != w.reviews && id in o.world.approvals && i < |o.world.approvals[id].stages|
             && CountApproved(ReviewsOf(o.world.reviews, stageId)) >= Effective(w.approvals[id].stages[i].minApprovers)
    ensures var o := ApproveStage(c, w, d, now, f, id, w.approvals[id].stages[i].id, u);
            o.world.approvals[id].stages[i].status == if f.count || f.saveStage then Pending else Approved
  {
    var stageId := w.approvals[id].stages[i].id;
    ApproveWrites(c, w, d, now, f, id, stageId, u);
    SettledWithQuorum(AddReview(w, stageId, Review(u.id, DecidedApprove)), now, f, id, i, u);
  }

  lemma SettledWithQuorum(w: World, now: nat, f: Faults, id: Uuid, i: nat, u: User)
    requires id in w.approvals && i < |w.approvals[id].stages| && w.approvals[id].stages[i].status == Pending
    requires HasQuorum(w, id, i)
    ensures var x := CountAndSettle(w, now, f, id, i, u).world;
            && id in x.approvals && i < |x.approvals[id].stages|
            && x.approvals[id].stages[i].status == if f.count || f.saveStage then Pending else Approved
  {
  }

  /** Whoever is on record for a stage is refused for good: an approval of theirs fails and changes nothing. */
  lemma OnRecordRefused(c: Completers, w: World, d: Directory, now: nat, f: Faults, id: Uuid, stageId: Uuid, u: User)
    requires HasReviewed(ReviewsOf(w.reviews, stageId), u.id)
    ensures var o := ApproveStage(c, w, d, now, f, id, stageId, u); o.reply.Err? && o.world == w
  {
    AdmitIff(c, w, d, f, id, stageId, u);
  }

  /** A stage changes only in a review call about that stage. */
  lemma WhoSettles(c: Completers, w: World, act: Action, id: Uuid, i: nat)
    requires Inv(w) && id in w.approvals && i < |w.approvals[id].stages|
    requires !((act.ApproveA? || act.RejectA?) && act.id == id && act.stageId == w.approvals[id].stages[i].id)
    ensures var x := Step(c, w, act).world;
            && id in x.approvals && i < |x.approvals[id].stages|
            && x.approvals[id].stages[i] == w.approvals[id].stages[i]
  {
    if act.id != id || act.SubmitA? {
      OtherRowsKept(c, w, act, id);
    } else if act.ApproveA? {
      ApproveKeepsStage(c, w, act.dir, act.now, act.faults, id, act.stageId, act.user, i);
    } else if act.RejectA? {
      RejectKeepsStage(c, w, act.dir, act.now, act.faults, id, act.stageId, act.user, act.comment, i);
    }
  }

  lemma TailsKeepStage(w: World, now: nat, f: Faults, id: Uuid, j: nat, u: User, comment: string, i: nat)
    requires id in w.approvals && i < |w.approvals[id].stages| && j < |w.approvals[id].stages| && i != j
    ensures var x := CountAndSettle(w, now, f, id, j, u).world;
            id in x.approvals && i < |x.approvals[id].stages| && x.approvals[id].stages[i] == w.approvals[id].stages[i]
    ensures var x := RejectAndClose(w, now, f, id, j, u, comment).world;
            id in x.approvals && i < |x.approvals[id].stages| && x.approvals[id].stages[i] == w.approvals[id].stages[i]
  {
  }

  lemma ApproveKeepsStage(
    c: Completers, w: World, d: Directory, now: nat, f: Faults, id: Uuid, stageId: Uuid, u: User, i: nat)
    requires id in w.approvals && i < |w.approvals[id].stages| && w.approvals[id].stages[i].id != stageId
    ensures var x := ApproveStage(c, w, d, now, f, id, stageId, u).world;
            id in x.approvals && i < |x.approvals[id].stages| && x.approvals[id].stages[i] == w.approvals[id].stages[i]
  {
    if ApproveStage(c, w, d, now, f, id, stageId, u).world != w {
      ApproveWrites(c, w, d, now, f, id, stageId, u);
      var j := Authorize(d, w.approvals[id], stageId, u).value;
      TailsKeepStage(AddReview(w, stageId, Review(u.id, DecidedApprove)), now, f, id, j, u, "", i);
    }
  }

  lemma RejectKeepsStage(
    c: Completers, w: World, d: Directory, now: nat, f: Faults, id: Uuid, stageId: Uuid, u: User, comment: string, i: nat)
    requires id in w.approvals && i < |w.approvals[id].stages| && w.approvals[id].stages[i].id != stageId
    ensures var x := RejectStage(c, w, d, now, f, id, stageId, u, comment).world;
            id in x.approvals && i < |x.approvals[id].stages| && x.approvals[id].stages[i] == w.approvals[id].stages[i]
  {
    if RejectStage(c, w, d, now, f, id, stageId, u, comment).world != w {
      var j := Authorize(d, w.approvals[id], stageId, u).value;
      TailsKeepStage(RecordRejection(w, f, stageId, u), now, f, id, j, u, comment, i);
    }
  }

  /** The calls leave stage i to the people on record for it: nobody else approves it, and nobody rejects it. */
  ghost predicate NoNewcomer(w: World, acts: seq<Action>, id: Uuid, stageId: Uuid) {
    forall k :: 0 <= k < |acts| && acts[k].id == id ==>
      && !(acts[k].RejectA? && acts[k].stageId == stageId)
      && (acts[k].ApproveA? && acts[k].stageId == stageId ==> HasReviewed(ReviewsOf(w.reviews, stageId), acts[k].user.id))
  }

  /** So the stage stays pending, its quorum on record, until somebody new reviews it. */
  lemma {:induction false} UnsettledUntilNewcomer(c: Completers, w: World, acts: seq<Action>, id: Uuid, i: nat)
    requires Inv(w) && Unsettled(w, id, i) && NoNewcomer(w, acts, id, w.approvals[id].stages[i].id)
    ensures Unsettled(Run(c, w, acts), id, i)
    decreases |acts|
  {
    if acts != [] {
      StillUnsettled(c, w, acts, id, i);
      UnsettledUntilNewcomer(c, Step(c, w, acts[0]).world, acts[1..], id, i);
    }
  }

  lemma StillUnsettled(c: Completers, w: World, acts: seq<Action>, id: Uuid, i: nat)
    requires Inv(w) && Unsettled(w, id, i) && NoNewcomer(w, acts, id, w.approvals[id].stages[i].id) && acts != []
    ensures var x := Step(c, w, acts[0]).world;
            Inv(x) && Unsettled(x, id, i) && NoNewcomer(x, acts[1..], id, x.approvals[id].stages[i].id)
  {
    OneCallUnsettled(c, w, acts[0], id, i);
    TailHasNoNewcomer(w, Step(c, w, acts[0]).world, acts, id, w.approvals[id].stages[i].id);
    StepSafe(c, w, acts[0]);
  }

  lemma TailHasNoNewcomer(w: World, x: World, acts: seq<Action>, id: Uuid, stageId: Uuid)
    requires NoNewcomer(w, acts, id, stageId) && acts != []
    requires ReviewsOf(x.reviews, stageId) == ReviewsOf(w.reviews, stageId)
    ensures NoNewcomer(x, acts[1..], id, stageId)
  {
    assert forall k :: 0 <= k < |acts[1..]| ==> acts[1..][k] == acts[k + 1];
  }

  lemma OneCallUnsettled(c: Completers, w: World, act: Action, id: Uuid, i: nat)
    requires Inv(w) && Unsettled(w, id, i)
    requires var stageId := w.approvals[id].stages[i].id;
             act.id == id ==>
               && !(act.RejectA? && act.stageId == stageId)
               && (act.ApproveA? && act.stageId == stageId ==> HasReviewed(ReviewsOf(w.reviews, stageId), act.user.id))
    ensures var stageId := w.approvals[id].stages[i].id;
            var x := Step(c, w, act).world;
            && id in x.approvals && i < |x.approvals[id].stages|
            && x.approvals[id].stages[i] == w.approvals[id].stages[i]
            && ReviewsOf(x.reviews, stageId) == ReviewsOf(w.reviews, stageId)
  {
    var stageId := w.approvals[id].stages[i].id;
    if act.ApproveA? && act.id == id && act.stageId == stageId {
      OnRecordRefused(c, w, act.dir, act.now, act.faults, id, stageId, act.user);
    } else {
      WhoSettles(c, w, act, id, i);
      if ReviewsOf(Step(c, w, act).world.reviews, stageId) != ReviewsOf(w.reviews, stageId) {
        WhoReviews(c, w, act, stageId);
        OneOwner(w, id, act.id, i, Authorize(act.dir, w.approvals[act.id], stageId, act.user).value);
      }
    }
  }

  /** A newcomer's failure-free approval settles it at once. */
  lemma NewcomerSettles(c: Completers, w: World, d: Directory, now: nat, id: Uuid, i: nat, u: User)
    requires Inv(w) && Unsettled(w, id, i)
    requires ApproveStage(c, w, d, now, NO_FAULTS, id, w.approvals[id].stages[i].id, u).reply.Ok?
    ensures var x := ApproveStage(c, w, d, now, NO_FAULTS, id, w.approvals[id].stages[i].id, u).world;
            id in x.approvals && i < |x.approvals[id].stages| && x.approvals[id].stages[i].status == Approved
  {
    var a := w.approvals[id];
    assert Sound(a, w.reviews, CallsOf(w, id));
    ApproveWrites(c, w, d, now, NO_FAULTS, id, a.stages[i].id, u);
    AuthorizedOrder(d, a, u, i);
    CountAppend(ReviewsOf(w.reviews, a.stages[i].id), Review(u.id, DecidedApprove));
    SettledWithQuorum(AddReview(w, a.stages[i].id, Review(u.id, DecidedApprove)), now, NO_FAULTS, id, i, u);
  }

  /** A state in which that happens is reached by one submission and one approval, and the approver cannot repeat it. */
  lemma LostQuorumExample(d: Directory, now: nat, later: nat)
    ensures var approve := ApproveA(d, now, NO_FAULTS.(count := true), 10, 20, REVIEWER);
            var w := Run(COMPLETERS, EMPTY, [SubmitGate(d), approve]);
            && Unsettled(w, 10, 0)
            && Step(COMPLETERS, w, ApproveA(d, later, NO_FAULTS, 10, 20, REVIEWER)).reply == Err(AlreadyReviewed)
  {
    var approve := ApproveA(d, now, NO_FAULTS.(count := true), 10, 20, REVIEWER);
    ThenOneCall(d, approve);
    GateAuthorized(d);
    var recorded := AddReview(SUBMITTED, 20, Review(4, DecidedApprove));
    CountAppend([], Review(4, DecidedApprove));
    assert Step(COMPLETERS, SUBMITTED, approve).world == recorded;
    assert ReviewsOf(recorded.reviews, 20)[0].reviewer == 4;
  }

  // ---- Over whole runs

  /** The call of a run that makes P true. */
  lemma {:induction false} Turns(c: Completers, w: World, acts: seq<Action>, P: World -> bool) returns (k: nat)
    requires !P(w) && P(Run(c, w, acts))
    ensures k < |acts|
    ensures var x := Run(c, w, acts[..k]); !P(x) && P(Step(c, x, acts[k]).world)
    decreases |acts|
  {
    var x := Step(c, w, acts[0]).world;
    if P(x) {
      k := 0;
    } else {
      var rest := Turns(c, x, acts[1..], P);
      k := rest + 1;
      RunPrefix(c, w, acts, rest);
    }
  }

  lemma RunPrefix(c: Completers, w: World, acts: seq<Action>, n: nat)
    requires n < |acts|
    ensures Run(c, w, acts[..n + 1]) == Run(c, Step(c, w, acts[0]).world, acts[1..][..n])
  {
    assert acts[..n + 1] == [acts[0]] + acts[1..][..n];
    RunCons(c, w, acts[0], acts[1..][..n]);
  }

  /** In state w the call is an approval that completes the stages and whose saving of the approval fails. */
  ghost predicate LosesApproval(c: Completers, w: World, act: Action, id: Uuid) {
    && act.ApproveA? && act.id == id && act.faults.save
    && id in w.approvals && !Complete(w.approvals[id].stages) && Stranded(Step(c, w, act).world, id)
  }

  lemma StrandedStep(c: Completers, w: World, act: Action, id: Uuid)
    requires Inv(w) && !Stranded(w, id) && Stranded(Step(c, w, act).world, id)
    ensures LosesApproval(c, w, act, id)
  {
    if id in w.approvals {
      StepAt(c, w, act, id);
      CompletedIsApprovedIffSaved(c, w, act, id);
    } else {
      NewRowIsOpen(c, w, act, id);
    }
  }

  /** An approval is stranded only by the call that completed its stages, and only if saving it failed there. */
  lemma StrandedOnlyByLostSave(c: Completers, w: World, acts: seq<Action>, id: Uuid)
    requires Inv(w) && !Stranded(w, id) && Stranded(Run(c, w, acts), id)
    ensures exists k :: 0 <= k < |acts| && LosesApproval(c, Run(c, w, acts[..k]), acts[k], id)
  {
    var k := Turns(c, w, acts, x => Stranded(x, id));
    RunSafe(c, w, acts[..k]);
    StrandedStep(c, Run(c, w, acts[..k]), acts[k], id);
  }

  /** In state w the call is a rejection that rejects the first stage and whose saving of the approval fails. */
  ghost predicate LosesRejection(c: Completers, w: World, act: Action, id: Uuid) {
    && act.RejectA? && act.id == id && act.faults.save
    && id in w.approvals && !HasRejected(w.approvals[id].stages) && HalfRejected(Step(c, w, act).world, id)
  }

  lemma HalfRejectedStep(c: Completers, w: World, act: Action, id: Uuid)
    requires Inv(w) && !HalfRejected(w, id) && HalfRejected(Step(c, w, act).world, id)
    ensures LosesRejection(c, w, act, id)
  {
    if id in w.approvals {
      StepAt(c, w, act, id);
      RejectedIsClosedIffSaved(c, w, act, id);
    } else {
      NewRowIsOpen(c, w, act, id);
    }
  }

  /** A pending approval has a rejected stage only by the call that rejected it, and only if saving the approval failed
      there. */
  lemma HalfRejectedOnlyByLostSave(c: Completers, w: World, acts: seq<Action>, id: Uuid)
    requires Inv(w) && !HalfRejected(w, id) && HalfRejected(Run(c, w, acts), id)
    ensures exists k :: 0 <= k < |acts| && LosesRejection(c, Run(c, w, acts[..k]), acts[k], id)
  {
    var k := Turns(c, w, acts, x => HalfRejected(x, id));
    RunSafe(c, w, acts[..k]);
    HalfRejectedStep(c, Run(c, w, acts[..k]), acts[k], id);
  }

  /** In state w the call is an approval that brings stage i its quorum and in which the count or saving the stage fails. */
  ghost predicate LosesQuorum(c: Completers, w: World, act: Action, id: Uuid, i: nat) {
    && act.ApproveA? && act.id == id && (act.faults.count || act.faults.saveStage)
    && id in w.approvals && i < |w.approvals[id].stages| && act.stageId == w.approvals[id].stages[i].id
    && !HasQuorum(w, id, i) && Unsettled(Step(c, w, act).world, id, i)
  }

  lemma UnsettledStep(c: Completers, w: World, act: Action, id: Uuid, i: nat)
    requires Inv(w) && !Unsettled(w, id, i) && Unsettled(Step(c, w, act).world, id, i)
    ensures LosesQuorum(c, w, act, id, i)
  {
    if id in w.approvals {
      StepAt(c, w, act, id);
      assert StageEvolves(w.approvals[id].stages[i], Step(c, w, act).world.approvals[id].stages[i]);
      QuorumSettlesIff(c, w, act, id, i);
    } else {
      NewRowHasNoQuorum(c, w, act, id, i);
    }
  }

  lemma NewRowHasNoQuorum(c: Completers, w: World, act: Action, id: Uuid, i: nat)
    requires Inv(w) && id !in w.approvals && id in Step(c, w, act).world.approvals
    ensures !Unsettled(Step(c, w, act).world, id, i)
  {
    match act
    case SubmitA(d, p, f, other, mint, spec) =>
      SubmittedIsExact(w, d, p, f, other, mint, spec);
      var o := Submit(w, d, p, f, other, mint, spec);
      ExactHasNone(o.world, id, i);
    case CancelA(_, _, _, _) =>
    case ApproveA(d, now, f, other, stageId, u) => ApproveAddsNoRow(c, w, d, now, f, other, stageId, u);
    case RejectA(d, now, f, other, stageId, u, comment) => RejectAddsNoRow(c, w, d, now, f, other, stageId, u, comment);
  }

  lemma ExactHasNone(w: World, id: Uuid, i: nat)
    requires id in w.approvals && Exact(w.approvals[id], w.reviews)
    ensures !Unsettled(w, id, i)
  {
    if i < |w.approvals[id].stages| {
      assert StageExact(w.approvals[id].stages[i], ReviewsOf(w.reviews, w.approvals[id].stages[i].id));
    }
  }

  /** A pending stage has its quorum on record only by the call that brought it, and only if the count or saving the stage
      failed there. */
  lemma UnsettledOnlyByLostQuorum(c: Completers, w: World, acts: seq<Action>, id: Uuid, i: nat)
    requires Inv(w) && !Unsettled(w, id, i) && Unsettled(Run(c, w, acts), id, i)
    ensures exists k :: 0 <= k < |acts| && LosesQuorum(c, Run(c, w, acts[..k]), acts[k], id, i)
  {
    var k := Turns(c, w, acts, x => Unsettled(x, id, i));
    RunSafe(c, w, acts[..k]);
    UnsettledStep(c, Run(c, w, acts[..k]), acts[k], id, i);
  }
}
