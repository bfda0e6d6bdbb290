/** What each engine call means to its caller: who is let through, what an accepted call leaves behind, what a refused one
    does not, and where every stored gate comes from. */
module ApprovalOutcomes {
  import opened Basics
  import opened ApprovalModel
  import opened Traversal
  import opened ApprovalSafety
  import Planning

  // ---- Who is let through

  /** The user may review stage s: it is pending and next in order, it is not their own submission unless the project
      allows that, and they are an owner, a project admin, or hold its permission and belong to its team. A lookup that
      fails counts as a no. */
  ghost predicate MayReview(d: Directory, a: Approval, s: Stage, u: User) {
    && s.status == Pending
    && (u.id == a.spec.submittedBy ==> d.selfApproval(a.spec.projectId) == Answer(true))
    && (forall t :: t in a.stages && t.order < s.order ==> t.status == Approved)
    && (|| u.role == Owner
        || d.isAdmin(a.spec.projectId, u.id) == Answer(true)
        || (&& d.hasPermission(a.spec.projectId, u.id, s.permission) == Answer(true)
            && (s.team.Some? ==> d.isMember(s.team.value, u.id) == Answer(true))))
  }

  lemma AuthorizeIff(d: Directory, a: Approval, stageId: Uuid, u: User)
    requires UniqueIds(a.stages)
    ensures Authorize(d, a, stageId, u).Ok? <==> exists s :: s in a.stages && s.id == stageId && MayReview(d, a, s, u)
    ensures Authorize(d, a, stageId, u).Ok? ==> a.stages[Authorize(d, a, stageId, u).value].id == stageId
  {
  }

  /** Why a reviewer is not let through to stage s: the first of these that holds, in the source's order. */
  lemma AuthorizeErrors(d: Directory, a: Approval, s: Stage, u: User)
    requires UniqueIds(a.stages) && s in a.stages
    ensures var r := Authorize(d, a, s.id, u);
            var own := u.id == a.spec.submittedBy && d.selfApproval(a.spec.projectId) != Answer(true);
            var early := exists t :: t in a.stages && t.order < s.order && t.status != Approved;
            var free := u.role == Owner || d.isAdmin(a.spec.projectId, u.id) == Answer(true);
            var permitted := d.hasPermission(a.spec.projectId, u.id, s.permission);
            && (r == Err(StageNotPending) <==> s.status != Pending)
            && (r == Err(SelfReview) <==> s.status == Pending && own)
            && (r == Err(EarlierStagesOpen) <==> s.status == Pending && !own && early)
            && (r == Err(PermissionLookupFailed) <==>
                  s.status == Pending && !own && !early && !free && permitted.Unavailable?)
            && (r == Err(PermissionDenied) <==> s.status == Pending && !own && !early && !free && permitted == Answer(false))
            && (r == Err(MembershipLookupFailed) <==>
                  s.status == Pending && !own && !early && !free && permitted == Answer(true)
                  && s.team.Some? && d.isMember(s.team.value, u.id).Unavailable?)
            && (r == Err(NotTeamMember) <==>
                  s.status == Pending && !own && !early && !free && permitted == Answer(true)
                  && s.team.Some? && d.isMember(s.team.value, u.id) == Answer(false))
            && (r.Err? ==> r.error in {StageNotPending, SelfReview, EarlierStagesOpen, PermissionLookupFailed,
                                       PermissionDenied, MembershipLookupFailed, NotTeamMember})
  {
    var found := FindStage(a.stages, s.id);
    assert a.stages[found.value] == s;
    if exists t :: t in a.stages && t.order < s.order && t.status != Approved {
      var t :| t in a.stages && t.order < s.order && t.status != Approved;
      var k :| 0 <= k < |a.stages| && a.stages[k] == t;
    } else {
      forall j | 0 <= j < |a.stages| && a.stages[j].order < s.order ensures a.stages[j].status == Approved {
        assert a.stages[j] in a.stages;
      }
    }
  }

  lemma UnknownStage(d: Directory, a: Approval, stageId: Uuid, u: User)
    ensures Authorize(d, a, stageId, u) == Err(StageNotFound) <==> forall s :: s in a.stages ==> s.id != stageId
  {
  }

  /** A cancel is accepted exactly when the approval is still open or approved, the user is its submitter, an owner, a project
      admin, or someone the entity's completer lets cancel, and no store or completer call fails. It changes only the
      status, with one completer call, and that exactly when saving the status did not fail; a failing completer does not
      undo it. The reply is the stored, cancelled approval. */
  lemma CancelIff(c: Completers, w: World, d: Directory, f: Faults, id: Uuid, u: User)
    ensures var permitted :=
              && id in w.approvals && w.approvals[id].status in {Pending, Approved}
              && w.approvals[id].spec.entityType in c
              && var a := w.approvals[id];
                 (|| u.id == a.spec.submittedBy || u.role == Owner
                  || d.isAdmin(a.spec.projectId, u.id) == Answer(true)
                  || (var extra := c[a.spec.entityType].canCancel; extra.Some? && extra.value(a, u)));
            var o := Cancel(c, w, d, f, id, u);
            && (o.reply.Ok? <==> permitted && !f.get && !f.save && !f.callback && !f.refetch)
            && (permitted && !f.get && !f.save ==>
                  && o.world.approvals == w.approvals[id := w.approvals[id].(status := Cancelled)]
                  && CallsOf(o.world, id) == CallsOf(w, id) + [OnCancelled]
                  && (forall other :: other != id ==> CallsOf(o.world, other) == CallsOf(w, other))
                  && o.world.reviews == w.reviews)
            && (!permitted || f.get || f.save ==> o.world == w && o.reply.Err?)
            && (o.reply.Ok? ==> o.reply.value == w.approvals[id].(status := Cancelled) && id in o.world.approvals
                                && o.reply.value == o.world.approvals[id])
  {
  }

  /** A failure-free approval is accepted exactly from a user who may review the stage and has not reviewed it before. */
  lemma ApproveIff(c: Completers, w: World, d: Directory, now: nat, id: Uuid, stageId: Uuid, u: User)
    requires id in w.approvals && UniqueIds(w.approvals[id].stages)
    ensures ApproveStage(c, w, d, now, NO_FAULTS, id, stageId, u).reply.Ok? <==>
            var a := w.approvals[id];
            && a.status == Pending && a.spec.entityType in c
            && (exists s :: s in a.stages && s.id == stageId && MayReview(d, a, s, u))
            && (forall r :: r in ReviewsOf(w.reviews, stageId) ==> r.reviewer != u.id)
  {
    AuthorizeIff(d, w.approvals[id], stageId, u);
    OnRecord(ReviewsOf(w.reviews, stageId), u.id);
    AdmitIff(c, w, d, NO_FAULTS, id, stageId, u);
  }

  /** A rejection is accepted exactly with a comment, from a user who may review the stage, if the stores and the completer
      serve every call but the audit record; whether the user has reviewed the stage before does not matter. */
  lemma RejectIff(c: Completers, w: World, d: Directory, now: nat, f: Faults, id: Uuid, stageId: Uuid, u: User, comment: string)
    requires id in w.approvals && UniqueIds(w.approvals[id].stages)
    ensures RejectStage(c, w, d, now, f, id, stageId, u, comment).reply.Ok? <==>
            var a := w.approvals[id];
            && comment != "" && a.status == Pending && a.spec.entityType in c
            && (exists s :: s in a.stages && s.id == stageId && MayReview(d, a, s, u))
            && !f.get && !f.saveStage && !f.save && !f.callback && !f.refetch
  {
  }

  // ---- What a call leaves behind

  ghost predicate Refused(o: Outcome) {
    o.reply.Err? && o.reply.error !in {StoreFailed, CallbackFailed}
  }

  /** A refusal, as opposed to a failing store or completer, changes nothing. */
  lemma RefusalsChangeNothing(c: Completers, w: World, act: Action)
    requires Refused(Step(c, w, act))
    ensures Step(c, w, act).world == w
  {
    match act
    case SubmitA(_, _, _, _, _, _) =>
    case CancelA(_, _, _, _) =>
    case ApproveA(d, now, f, id, stageId, u) =>
      if Step(c, w, act).world != w {
        ApproveWrites(c, w, d, now, f, id, stageId, u);
        TailsNeverRefuse(AddReview(w, stageId, Review(u.id, DecidedApprove)), now, f, id,
                         Authorize(d, w.approvals[id], stageId, u).value, u, "");
      }
    case RejectA(d, now, f, id, stageId, u, comment) =>
      if Step(c, w, act).world != w {
        TailsNeverRefuse(RecordRejection(w, f, stageId, u), now, f, id,
                         Authorize(d, w.approvals[id], stageId, u).value, u, comment);
      }
  }

  lemma TailsNeverRefuse(w: World, now: nat, f: Faults, id: Uuid, i: nat, u: User, comment: string)
    requires id in w.approvals && i < |w.approvals[id].stages|
    ensures !Refused(CountAndSettle(w, now, f, id, i, u)) && !Refused(RejectAndClose(w, now, f, id, i, u, comment))
  {
  }

  /** The calls of a run that are not refused. */
  ghost function Heard(c: Completers, w: World, acts: seq<Action>): seq<Action>
    decreases |acts|
  {
    if acts == [] then []
    else
      var o := Step(c, w, acts[0]);
      (if Refused(o) then [] else [acts[0]]) + Heard(c, o.world, acts[1..])
  }

  /** So a run is what it would be without its refused calls. */
  lemma {:induction false} RefusalsLeaveNoTrace(c: Completers, w: World, acts: seq<Action>)
    ensures Run(c, w, Heard(c, w, acts)) == Run(c, w, acts)
    decreases |acts|
  {
    if acts != [] {
      var o := Step(c, w, acts[0]);
      var rest := Heard(c, o.world, acts[1..]);
      RefusalsLeaveNoTrace(c, o.world, acts[1..]);
      if Refused(o) {
        RefusalsChangeNothing(c, w, acts[0]);
        assert Heard(c, w, acts) == rest;
      } else {
        assert ([acts[0]] + rest)[1..] == rest;
      }
    }
  }

  /** An accepted rejection rejects the stage, with the reviewer, the time and the comment on record, and with it the whole
      approval; the completer hears of it once; the review is on record unless writing it failed; the other stages are as
      they were. */
  lemma RejectionTakesEffect(
    c: Completers, w: World, d: Directory, now: nat, f: Faults, id: Uuid, stageId: Uuid, u: User, comment: string)
    requires Inv(w) && RejectStage(c, w, d, now, f, id, stageId, u, comment).reply.Ok?
    ensures var o := RejectStage(c, w, d, now, f, id, stageId, u, comment);
            && comment != "" && id in w.approvals && id in o.world.approvals && o.reply.value == o.world.approvals[id]
            && o.reply.value.status == Rejected
            && CallsOf(o.world, id) == [OnRejected]
            && o.world.reviews == (if f.record then w.reviews else
                 w.reviews[stageId := ReviewsOf(w.reviews, stageId) + [Review(u.id, DecidedReject)]])
            && |o.reply.value.stages| == |w.approvals[id].stages|
            && forall i :: 0 <= i < |o.reply.value.stages| ==>
                 var before, after := w.approvals[id].stages[i], o.reply.value.stages[i];
                 after == if before.id == stageId then
                            before.(status := Rejected, reviewedBy := Some(u.id), reviewedAt := Some(now), comment := comment)
                          else before
  {
    var a := w.approvals[id];
    assert Sound(a, w.reviews, CallsOf(w, id));
    var i := Authorize(d, a, stageId, u).value;
    RejectUpdates(RecordRejection(w, f, stageId, u), now, f, id, i, u, comment);
    OnlyIndex(a.stages, i);
  }

  lemma OnlyIndex(stages: seq<Stage>, i: nat)
    requires UniqueIds(stages) && i < |stages|
    ensures forall k :: 0 <= k < |stages| && stages[k].id == stages[i].id ==> k == i
  {
  }

  lemma RejectUpdates(w: World, now: nat, f: Faults, id: Uuid, i: nat, u: User, comment: string)
    requires id in w.approvals && i < |w.approvals[id].stages|
    requires RejectAndClose(w, now, f, id, i, u, comment).reply.Ok?
    ensures var o := RejectAndClose(w, now, f, id, i, u, comment);
            var s := w.approvals[id].stages[i];
            && id in o.world.approvals && o.reply.value == o.world.approvals[id]
            && o.reply.value.status == Rejected && CallsOf(o.world, id) == CallsOf(w, id) + [OnRejected]
            && o.reply.value.stages == w.approvals[id].stages[i := s.(
                 status := Rejected, reviewedBy := Some(u.id), reviewedAt := Some(now), comment := comment)]
  {
  }

  /** One more approver after the others settles this stage, if that is its quorum, and no other stage. */
  ghost predicate ApprovedBy(before: Stage, after: Stage, stageId: Uuid, others: set<Uuid>, reviewer: Uuid, now: nat) {
    after == if before.id == stageId && |others + {reviewer}| >= Effective(before.minApprovers)
             then before.(status := Approved, reviewedBy := Some(reviewer), reviewedAt := Some(now))
             else before
  }

  /** An accepted approval puts the reviewer on record for that stage only, and marks the stage approved, by that reviewer
      and at that time, exactly when this gives it its quorum; the other stages are as they were. */
  lemma ApprovalTakesEffect(
    c: Completers, w: World, d: Directory, now: nat, f: Faults, id: Uuid, stageId: Uuid, u: User)
    requires Inv(w) && ApproveStage(c, w, d, now, f, id, stageId, u).reply.Ok?
    ensures var o := ApproveStage(c, w, d, now, f, id, stageId, u);
            && id in w.approvals && id in o.world.approvals && o.reply.value == o.world.approvals[id]
            && ReviewsOf(o.world.reviews, stageId) == ReviewsOf(w.reviews, stageId) + [Review(u.id, DecidedApprove)]
            && (forall other :: other != stageId ==> ReviewsOf(o.world.reviews, other) == ReviewsOf(w.reviews, other))
            && |o.reply.value.stages| == |w.approvals[id].stages|
            && forall i :: 0 <= i < |o.reply.value.stages| ==>
                 ApprovedBy(w.approvals[id].stages[i], o.reply.value.stages[i], stageId,
                            Approvers(ReviewsOf(w.reviews, stageId)), u.id, now)
  {
    var i := ApprovalShape(c, w, d, now, f, id, stageId, u);
    OneStageApproved(w.approvals[id].stages, i, Approvers(ReviewsOf(w.reviews, stageId)), u, now);
  }

  /** The same by the index of the stage. */
  lemma ApprovalShape(
    c: Completers, w: World, d: Directory, now: nat, f: Faults, id: Uuid, stageId: Uuid, u: User) returns (i: nat)
    requires Inv(w) && ApproveStage(c, w, d, now, f, id, stageId, u).reply.Ok?
    ensures id in w.approvals && UniqueIds(w.approvals[id].stages)
    ensures i < |w.approvals[id].stages| && w.approvals[id].stages[i].id == stageId
    ensures var s := w.approvals[id].stages[i];
            var rs := ReviewsOf(w.reviews, stageId);
            var o := ApproveStage(c, w, d, now, f, id, stageId, u);
            && id in o.world.approvals && o.reply.value == o.world.approvals[id]
            && o.world.reviews == w.reviews[stageId := rs + [Review(u.id, DecidedApprove)]]
            && o.reply.value.stages ==
               if |Approvers(rs) + {u.id}| >= Effective(s.minApprovers)
               then w.approvals[id].stages[i := Reviewed(s, Approved, u.id, now)] else w.approvals[id].stages
  {
    ApproveWrites(c, w, d, now, f, id, stageId, u);
    assert Sound(w.approvals[id], w.reviews, CallsOf(w, id));
    i := Authorize(d, w.approvals[id], stageId, u).value;
    RecordAndSettle(w, now, f, id, i, u);
  }

  lemma OneStageApproved(stages: seq<Stage>, i: nat, others: set<Uuid>, u: User, now: nat)
    requires UniqueIds(stages) && i < |stages|
    ensures var after := if |others + {u.id}| >= Effective(stages[i].minApprovers)
                         then stages[i := Reviewed(stages[i], Approved, u.id, now)] else stages;
            forall k :: 0 <= k < |stages| ==> ApprovedBy(stages[k], after[k], stages[i].id, others, u.id, now)
  {
    OnlyIndex(stages, i);
  }

  lemma RecordAndSettle(w: World, now: nat, f: Faults, id: Uuid, i: nat, u: User)
    requires Inv(w) && id in w.approvals && i < |w.approvals[id].stages|
    requires !HasReviewed(ReviewsOf(w.reviews, w.approvals[id].stages[i].id), u.id)
    requires var recorded := AddReview(w, w.approvals[id].stages[i].id, Review(u.id, DecidedApprove));
             CountAndSettle(recorded, now, f, id, i, u).reply.Ok?
    ensures var s := w.approvals[id].stages[i];
            var rs := ReviewsOf(w.reviews, s.id);
            var o := CountAndSettle(AddReview(w, s.id, Review(u.id, DecidedApprove)), now, f, id, i, u);
            && id in o.world.approvals && o.reply.value == o.world.approvals[id]
            && o.world.reviews == w.reviews[s.id := rs + [Review(u.id, DecidedApprove)]]
            && o.reply.value.stages ==
               if |Approvers(rs) + {u.id}| < Effective(s.minApprovers) then w.approvals[id].stages
               else w.approvals[id].stages[i := s.(
                      status := Approved, reviewedBy := Some(u.id), reviewedAt := Some(now))]
  {
    var a := w.approvals[id];
    assert Sound(a, w.reviews, CallsOf(w, id));
    var rs := ReviewsOf(w.reviews, a.stages[i].id);
    assert StageSound(a.stages[i], rs);
    NewcomerCounts(rs, u.id);
    ApproveUpdates(AddReview(w, a.stages[i].id, Review(u.id, DecidedApprove)), now, f, id, i, u);
  }

  lemma NewcomerCounts(rs: seq<Review>, reviewer: Uuid)
    requires DistinctApprovers(rs) && !HasReviewed(rs, reviewer)
    ensures CountApproved(rs + [Review(reviewer, DecidedApprove)]) == |Approvers(rs) + {reviewer}|
  {
    CountAppend(rs, Review(reviewer, DecidedApprove));
    CountIsApprovers(rs);
    forall r | r in rs ensures r.reviewer != reviewer {}
  }

  lemma ApproveUpdates(w: World, now: nat, f: Faults, id: Uuid, i: nat, u: User)
    requires id in w.approvals && i < |w.approvals[id].stages|
    requires CountAndSettle(w, now, f, id, i, u).reply.Ok?
    ensures var o := CountAndSettle(w, now, f, id, i, u);
            var s := w.approvals[id].stages[i];
            && id in o.world.approvals && o.reply.value == o.world.approvals[id]
            && o.reply.value.stages ==
               if CountApproved(ReviewsOf(w.reviews, s.id)) < Effective(s.minApprovers) then w.approvals[id].stages
               else w.approvals[id].stages[i := s.(
                      status := Approved, reviewedBy := Some(u.id), reviewedAt := Some(now))]
  {
  }

  // ---- What a failure in the middle of a call leaves behind

  /** The first writes on the way from w to g: the review, then the stages, then the status with the completer call. */
  ghost function Cut(w: World, g: World, id: Uuid, reviewed: bool, settled: bool, closed: bool): World
    requires id in w.approvals && id in g.approvals
  {
    var a, b := w.approvals[id], g.approvals[id];
    World(w.approvals[id := Approval(a.spec, if closed then b.status else a.status, if settled then b.stages else a.stages)],
          if reviewed then g.reviews else w.reviews,
          if closed then g.calls else w.calls)
  }

  /** A failing store or completer call ends an approval there: what the failure-free approval would have written before
      is kept, nothing after it is written, and the caller is told. */
  lemma ApproveCutShort(c: Completers, w: World, d: Directory, now: nat, f: Faults, id: Uuid, stageId: Uuid, u: User)
    ensures var good := ApproveStage(c, w, d, now, NO_FAULTS, id, stageId, u);
            var o := ApproveStage(c, w, d, now, f, id, stageId, u);
            && (good.reply.Err? ==> o.world == w && o.reply.Err?)
            && (good.reply.Ok? ==>
                  && id in w.approvals && id in good.world.approvals
                  && var reviewed := !f.get && !f.list && !f.record;
                     var settled := reviewed && !f.count && !f.saveStage;
                     o.world == Cut(w, good.world, id, reviewed, settled, settled && !f.save)
                     && (o.reply.Ok? <==>
                           && reviewed && !f.count && !f.refetch
                           && (good.world.approvals[id].stages != w.approvals[id].stages ==> !f.saveStage)
                           && (good.world.approvals[id].status != w.approvals[id].status ==> !f.save && !f.callback)))
  {
    AdmitIff(c, w, d, NO_FAULTS, id, stageId, u);
    AdmitIff(c, w, d, f, id, stageId, u);
    if Admit(c, w, d, NO_FAULTS, id, stageId, u).Ok? {
      var i := Authorize(d, w.approvals[id], stageId, u).value;
      if f.get || f.list || f.record {
        assert w.approvals[id := w.approvals[id]] == w.approvals;
      } else {
        RecordedCutShort(w, now, f, id, i, u);
      }
    }
  }

  /** Once the review is on record, a failure cuts off the writes after it. */
  lemma RecordedCutShort(w: World, now: nat, f: Faults, id: Uuid, i: nat, u: User)
    requires id in w.approvals && i < |w.approvals[id].stages|
    requires w.approvals[id].status == Pending && w.approvals[id].stages[i].status == Pending
    ensures var recorded := AddReview(w, w.approvals[id].stages[i].id, Review(u.id, DecidedApprove));
            var good := CountAndSettle(recorded, now, NO_FAULTS, id, i, u);
            var o := CountAndSettle(recorded, now, f, id, i, u);
            var settled := !f.count && !f.saveStage;
            && id in good.world.approvals
            && o.world == Cut(w, good.world, id, true, settled, settled && !f.save)
            && (o.reply.Ok? <==>
                  && !f.count && !f.refetch
                  && (good.world.approvals[id].stages != w.approvals[id].stages ==> !f.saveStage)
                  && (good.world.approvals[id].status != w.approvals[id].status ==> !f.save && !f.callback))
  {
    SettleCutShort(AddReview(w, w.approvals[id].stages[i].id, Review(u.id, DecidedApprove)), now, f, id, i, u);
  }

  lemma SettleCutShort(w: World, now: nat, f: Faults, id: Uuid, i: nat, u: User)
    requires id in w.approvals && i < |w.approvals[id].stages|
    requires w.approvals[id].status == Pending && w.approvals[id].stages[i].status == Pending
    ensures var good := CountAndSettle(w, now, NO_FAULTS, id, i, u);
            var o := CountAndSettle(w, now, f, id, i, u);
            var settled := !f.count && !f.saveStage;
            && id in good.world.approvals
            && o.world == Cut(w, good.world, id, true, settled, settled && !f.save)
            && (o.reply.Ok? <==>
                  && !f.count && !f.refetch
                  && (good.world.approvals[id].stages != w.approvals[id].stages ==> !f.saveStage)
                  && (good.world.approvals[id].status != w.approvals[id].status ==> !f.save && !f.callback))
  {
    var a := w.approvals[id];
    assert w.approvals[id := a] == w.approvals;
    assert a.stages[i := Reviewed(a.stages[i], Approved, u.id, now)][i].status == Approved;
  }

  /** The same for a rejection, except that failing to write its audit record costs that record alone, and the caller is
      not told of it. */
  lemma RejectCutShort(c: Completers, w: World, d: Directory, now: nat, f: Faults, id: Uuid, stageId: Uuid, u: User,
                       comment: string)
    ensures var good := RejectStage(c, w, d, now, NO_FAULTS, id, stageId, u, comment);
            var o := RejectStage(c, w, d, now, f, id, stageId, u, comment);
            && (good.reply.Err? ==> o.world == w && o.reply.Err?)
            && (good.reply.Ok? ==>
                  && id in w.approvals && id in good.world.approvals
                  && o.world == Cut(w, good.world, id, !f.get && !f.record, !f.get && !f.saveStage,
                                    !f.get && !f.saveStage && !f.save)
                  && (o.reply.Ok? <==> !f.get && !f.saveStage && !f.save && !f.callback && !f.refetch))
  {
  }

  /** The approval id and the n stage ids are new: no stored row has them, and the stage ids differ from each other. */
  ghost predicate NewKeys(approvals: map<Uuid, Approval>, id: Uuid, n: nat, mint: nat -> Uuid) {
    && id !in approvals
    && (forall i, j :: 0 <= i < j < n ==> mint(i) != mint(j))
    && (forall other, i :: other in approvals && 0 <= i < n ==> !HasId(approvals[other].stages, mint(i)))
  }

  lemma KeysTakenIff(approvals: map<Uuid, Approval>, id: Uuid, n: nat, mint: nat -> Uuid)
    ensures KeysTaken(approvals, id, n, mint) <==> !NewKeys(approvals, id, n, mint)
  {
    forall other, i | other in approvals && 0 <= i < n
      ensures FindStage(approvals[other].stages, mint(i)).Some? <==> HasId(approvals[other].stages, mint(i))
    {
    }
  }

  /** A submission is stored exactly when the lookup chain selects readable templates whose team scopes resolve, a client
      attachment is not left without a stage, and the store takes the row and its new stage ids; otherwise nothing changes. */
  lemma SubmitIff(w: World, d: Directory, p: Policies, f: Faults, id: Uuid, mint: nat -> Uuid, spec: Spec)
    ensures var o := Submit(w, d, p, f, id, mint, spec);
            && (o.reply.Ok? <==>
                  && (exists ts: seq<Template> ::
                        && Planning.Selects(p, spec, ts)
                        && (forall k :: 0 <= k < |ts| ==>
                              Planning.ResolveTeamScope(d, ts[k].teamScope, ts[k].order, spec.projectId, spec.submittedBy).Ok?)
                        && (ts == [] ==> spec.entityType != ClientAttachment)
                        && NewKeys(w.approvals, id, if ts == [] then 1 else |ts|, mint))
                  && !f.create)
            && (o.reply.Err? ==> o.world == w)
            && (o.reply.Ok? ==> o.world == w.(approvals := w.approvals[id := o.reply.value]))
  {
    Planning.PlanSucceedsIff(d, p, spec);
    KeysTakenForPlan(w, d, p, id, mint, spec);
    forall ts: seq<Template> | Planning.Selects(p, spec, ts) && Planning.Plan(d, p, spec).Ok?
      ensures |Planning.Plan(d, p, spec).value| == if ts == [] then 1 else |ts|
    {
      PlannedLength(d, p, spec, ts);
    }
  }

  lemma KeysTakenForPlan(w: World, d: Directory, p: Policies, id: Uuid, mint: nat -> Uuid, spec: Spec)
    ensures var planned := Planning.Plan(d, p, spec);
            planned.Ok? ==>
              (KeysTaken(w.approvals, id, |planned.value|, mint) <==> !NewKeys(w.approvals, id, |planned.value|, mint))
  {
    var planned := Planning.Plan(d, p, spec);
    if planned.Ok? {
      KeysTakenIff(w.approvals, id, |planned.value|, mint);
    }
  }

  lemma PlannedLength(d: Directory, p: Policies, spec: Spec, ts: seq<Template>)
    requires Planning.Selects(p, spec, ts) && Planning.Plan(d, p, spec).Ok?
    ensures |Planning.Plan(d, p, spec).value| == if ts == [] then 1 else |ts|
  {
    if ts == [] {
      Planning.FallbackGate(d, p, spec);
    } else {
      Planning.PolicyIsObeyed(d, p, spec, ts, 0);
    }
  }

  /** What is stored: the spec, pending, with the planned stages under the ids the store gave them. A submission that is not
      stored says why: planning's own error, or the store's. */
  lemma SubmissionTakesEffect(w: World, d: Directory, p: Policies, f: Faults, id: Uuid, mint: nat -> Uuid, spec: Spec)
    ensures var o := Submit(w, d, p, f, id, mint, spec);
            var planned := Planning.Plan(d, p, spec);
            && (planned.Err? <==> o.reply == Err(PlanFailed(if planned.Err? then planned.error else PolicyLookupFailed)))
            && (planned.Ok? && o.reply.Err? ==> o.reply.error == StoreFailed)
            && (o.reply.Ok? ==>
                  && id in o.world.approvals && o.reply.value == o.world.approvals[id]
                  && o.reply.value.spec == spec && o.reply.value.status == Pending
                  && |o.reply.value.stages| == |planned.value|
                  && forall i :: 0 <= i < |planned.value| ==> o.reply.value.stages[i] == planned.value[i].(id := mint(i)))
  {
  }

  // ---- What a call that is not accepted answers

  /** Why an approval is not accepted: the first of these that holds, in the source's order. */
  lemma ApproveErrors(c: Completers, w: World, d: Directory, now: nat, f: Faults, id: Uuid, stageId: Uuid, u: User)
    ensures var r := ApproveStage(c, w, d, now, f, id, stageId, u).reply;
            if f.get || id !in w.approvals then r == Err(StoreFailed)
            else
              var a := w.approvals[id];
              if a.status != Pending then r == Err(NotPending)
              else if a.spec.entityType !in c then r == Err(NoCompleter)
              else if Authorize(d, a, stageId, u).Err? then r == Err(Authorize(d, a, stageId, u).error)
              else if f.list then r == Err(StoreFailed)
              else if exists v :: v in ReviewsOf(w.reviews, stageId) && v.reviewer == u.id then r == Err(AlreadyReviewed)
              else r.Err? ==> r.error == StoreFailed || (r.error == CallbackFailed && f.callback)
  {
    OnRecord(ReviewsOf(w.reviews, stageId), u.id);
    if Admit(c, w, d, f, id, stageId, u).Ok? {
      AdmitIff(c, w, d, f, id, stageId, u);
      SettleErrors(AddReview(w, stageId, Review(u.id, DecidedApprove)), now, f, id, Admit(c, w, d, f, id, stageId, u).value, u);
    }
  }

  lemma OnRecord(rs: seq<Review>, user: Uuid)
    ensures HasReviewed(rs, user) <==> exists v :: v in rs && v.reviewer == user
  {
    if HasReviewed(rs, user) {
      var j :| 0 <= j < |rs| && rs[j].reviewer == user;
      assert rs[j] in rs;
    }
  }

  lemma SettleErrors(w: World, now: nat, f: Faults, id: Uuid, i: nat, u: User)
    requires id in w.approvals && i < |w.approvals[id].stages|
    ensures var r := CountAndSettle(w, now, f, id, i, u).reply;
            r.Err? ==> r.error == StoreFailed || (r.error == CallbackFailed && f.callback)
  {
  }

  /** Why a rejection is not accepted. */
  lemma RejectErrors(c: Completers, w: World, d: Directory, now: nat, f: Faults, id: Uuid, stageId: Uuid, u: User,
                     comment: string)
    ensures var r := RejectStage(c, w, d, now, f, id, stageId, u, comment).reply;
            if comment == "" then r == Err(CommentRequired)
            else if f.get || id !in w.approvals then r == Err(StoreFailed)
            else
              var a := w.approvals[id];
              if a.status != Pending then r == Err(NotPending)
              else if a.spec.entityType !in c then r == Err(NoCompleter)
              else if Authorize(d, a, stageId, u).Err? then r == Err(Authorize(d, a, stageId, u).error)
              else if f.saveStage || f.save then r == Err(StoreFailed)
              else if f.callback then r == Err(CallbackFailed)
              else r.Err? ==> r.error == StoreFailed && f.refetch
  {
  }

  /** Why a cancel is not accepted. */
  lemma CancelErrors(c: Completers, w: World, d: Directory, f: Faults, id: Uuid, u: User)
    ensures var r := Cancel(c, w, d, f, id, u).reply;
            if f.get || id !in w.approvals then r == Err(StoreFailed)
            else
              var a := w.approvals[id];
              if a.status in {Rejected, Cancelled} then r == Err(NotCancellable)
              else if a.spec.entityType !in c then r == Err(NoCompleter)
              else if !(|| u.id == a.spec.submittedBy || u.role == Owner
                        || d.isAdmin(a.spec.projectId, u.id) == Answer(true)
                        || (var extra := c[a.spec.entityType].canCancel; extra.Some? && extra.value(a, u)))
              then r == Err(CancelDenied)
              else if f.save then r == Err(StoreFailed)
              else if f.callback then r == Err(CallbackFailed)
              else r.Err? ==> r.error == StoreFailed && f.refetch
  {
  }

  /** The completer's failure is told exactly when it was called. */
  lemma CallbackFailures(c: Completers, w: World, act: Action)
    requires !act.SubmitA?
    ensures Step(c, w, act).reply == Err(CallbackFailed) <==> act.faults.callback && Step(c, w, act).world.calls != w.calls
  {
    match act
    case CancelA(_, f, id, _) => CloseTells(w, f, id, Cancelled, OnCancelled);
    case ApproveA(d, now, f, id, stageId, u) =>
      AdmitIff(c, w, d, f, id, stageId, u);
      if Admit(c, w, d, f, id, stageId, u).Ok? {
        SettleTells(AddReview(w, stageId, Review(u.id, DecidedApprove)), now, f, id, Admit(c, w, d, f, id, stageId, u).value, u);
      }
    case RejectA(d, now, f, id, stageId, u, comment) =>
      if comment != "" && Reviewable(c, w, f, id).Ok? && Authorize(d, w.approvals[id], stageId, u).Ok? {
        RejectTells(RecordRejection(w, f, stageId, u), now, f, id, Authorize(d, w.approvals[id], stageId, u).value, u, comment);
      }
  }

  lemma CloseTells(w: World, f: Faults, id: Uuid, status: Status, call: Callback)
    ensures id in w.approvals ==>
              (Close(w, f, id, status, call).reply == Err(CallbackFailed)
               <==> f.callback && Close(w, f, id, status, call).world.calls != w.calls)
  {
    if id in w.approvals {
      assert w.calls[id := CallsOf(w, id) + [call]] != w.calls by {
        assert CallsOf(w, id) + [call] != CallsOf(w, id);
        assert w.calls[id := CallsOf(w, id) + [call]][id] == CallsOf(w, id) + [call];
      }
    }
  }

  lemma SettleTells(w: World, now: nat, f: Faults, id: Uuid, i: nat, u: User)
    requires id in w.approvals && i < |w.approvals[id].stages|
    ensures var o := CountAndSettle(w, now, f, id, i, u);
            o.reply == Err(CallbackFailed) <==> f.callback && o.world.calls != w.calls
  {
    CloseTells(PutStage(w, id, i, Reviewed(w.approvals[id].stages[i], Approved, u.id, now)), f, id, Approved, OnApproved);
  }

  lemma RejectTells(w: World, now: nat, f: Faults, id: Uuid, i: nat, u: User, comment: string)
    requires id in w.approvals && i < |w.approvals[id].stages|
    ensures var o := RejectAndClose(w, now, f, id, i, u, comment);
            o.reply == Err(CallbackFailed) <==> f.callback && o.world.calls != w.calls
  {
    var s := Reviewed(w.approvals[id].stages[i], Rejected, u.id, now).(comment := comment);
    CloseTells(PutStage(w, id, i, s), f, id, Rejected, OnRejected);
  }

  // ---- Where stored gates come from

  /** The stored stages demand exactly what was planned. */
  ghost predicate SameGate(planned: seq<Stage>, stages: seq<Stage>) {
    && |planned| == |stages|
    && forall i :: 0 <= i < |stages| ==>
         && stages[i].order == planned[i].order && stages[i].permission == planned[i].permission
         && stages[i].team == planned[i].team && stages[i].minApprovers == planned[i].minApprovers
  }

  ghost predicate PlannedBy(act: Action, id: Uuid, a: Approval) {
    && act.SubmitA? && act.id == id && act.spec == a.spec
    && Planning.Plan(act.dir, act.policies, act.spec).Ok?
    && SameGate(Planning.Plan(act.dir, act.policies, act.spec).value, a.stages)
  }

  lemma NewRowsArePlanned(c: Completers, w: World, act: Action, id: Uuid)
    requires id in Step(c, w, act).world.approvals && id !in w.approvals
    ensures PlannedBy(act, id, Step(c, w, act).world.approvals[id])
  {
    match act
    case SubmitA(_, _, _, _, _, _) =>
    case CancelA(_, _, _, _) =>
    case ApproveA(d, now, f, other, stageId, u) => ApproveAddsNoRow(c, w, d, now, f, other, stageId, u);
    case RejectA(d, now, f, other, stageId, u, comment) => RejectAddsNoRow(c, w, d, now, f, other, stageId, u, comment);
  }

  lemma GateKept(a: Approval, b: Approval, act: Action, id: Uuid)
    requires ApprovalEvolves(a, b) && PlannedBy(act, id, a)
    ensures PlannedBy(act, id, b)
  {
  }

  lemma {:induction false} PlannedInRun(c: Completers, w: World, acts: seq<Action>, id: Uuid)
    requires Inv(w) && id in Run(c, w, acts).approvals && id !in w.approvals
    ensures exists k :: 0 <= k < |acts| && PlannedBy(acts[k], id, Run(c, w, acts).approvals[id])
    decreases |acts|
  {
    if acts != [] {
      var x := Step(c, w, acts[0]).world;
      StepSafe(c, w, acts[0]);
      if id in x.approvals {
        NewRowsArePlanned(c, w, acts[0], id);
        RunAt(c, x, acts[1..], id);
        GateKept(x.approvals[id], Run(c, x, acts[1..]).approvals[id], acts[0], id);
      } else {
        PlannedInRun(c, x, acts[1..], id);
        var k :| 0 <= k < |acts[1..]| && PlannedBy(acts[1..][k], id, Run(c, x, acts[1..]).approvals[id]);
        assert acts[k + 1] == acts[1..][k];
      }
    }
  }

  /** In every run every stored approval demands, stage by stage, exactly what the policy planned for its submission. */
  lemma GatesArePlanned(c: Completers, acts: seq<Action>, id: Uuid)
    requires id in Run(c, EMPTY, acts).approvals
    ensures exists k :: 0 <= k < |acts| && PlannedBy(acts[k], id, Run(c, EMPTY, acts).approvals[id])
  {
    PlannedInRun(c, EMPTY, acts, id);
  }
}
