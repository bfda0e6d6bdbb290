/** What holds in every state the engine can reach, whatever store and completer calls fail. */
module ApprovalSafety {
  import opened Basics
  import opened ApprovalModel
  import opened Traversal
  import Planning

  // ---- The invariant

  ghost predicate UniqueIds(stages: seq<Stage>) {
    forall i, j :: 0 <= i < j < |stages| ==> stages[i].id != stages[j].id
  }

  /** No reviewer has two approving reviews in one stage. */
  ghost predicate DistinctApprovers(rs: seq<Review>) {
    forall i, j :: 0 <= i < j < |rs| && rs[i].decision == DecidedApprove && rs[j].decision == DecidedApprove
                   ==> rs[i].reviewer != rs[j].reviewer
  }

  ghost predicate StageSound(s: Stage, rs: seq<Review>) {
    && s.status != Cancelled
    && DistinctApprovers(rs)
    && (s.status == Approved ==> Effective(s.minApprovers) <= CountApproved(rs))
  }

  /** Approved stages, and stages anyone approved, have every lower-order stage approved. */
  ghost predicate InOrder(stages: seq<Stage>, reviews: map<Uuid, seq<Review>>) {
    forall i, j :: 0 <= i < |stages| && 0 <= j < |stages| && stages[i].order < stages[j].order
                   && (stages[j].status == Approved || CountApproved(ReviewsOf(reviews, stages[j].id)) > 0)
                   ==> stages[i].status == Approved
  }

  ghost predicate Complete(stages: seq<Stage>) {
    forall i :: 0 <= i < |stages| ==> stages[i].status == Approved
  }

  ghost predicate HasRejected(stages: seq<Stage>) {
    exists i :: 0 <= i < |stages| && stages[i].status == Rejected
  }

  /** The completer calls an approval's status and stages allow. */
  ghost predicate CallsFit(a: Approval, calls: seq<Callback>) {
    match a.status
    case Pending => calls == []
    case Approved => calls == [OnApproved] && Complete(a.stages)
    case Rejected => calls == [OnRejected] && HasRejected(a.stages)
    case Cancelled => calls == [OnCancelled] || (calls == [OnApproved, OnCancelled] && Complete(a.stages))
  }

  ghost predicate Sound(a: Approval, reviews: map<Uuid, seq<Review>>, calls: seq<Callback>) {
    && a.stages != []
    && UniqueIds(a.stages)
    && (forall i :: 0 <= i < |a.stages| ==> StageSound(a.stages[i], ReviewsOf(reviews, a.stages[i].id)))
    && InOrder(a.stages, reviews)
    && CallsFit(a, calls)
  }

  ghost predicate HasId(stages: seq<Stage>, stageId: Uuid) {
    exists i :: 0 <= i < |stages| && stages[i].id == stageId
  }

  /** A stage id names a stage of at most one approval. */
  ghost predicate StagesOwned(approvals: map<Uuid, Approval>) {
    forall id, other, stageId ::
      (id in approvals && other in approvals
       && HasId(approvals[id].stages, stageId) && HasId(approvals[other].stages, stageId))
      ==> id == other
  }

  /** Reviews and completer calls only exist for stored stages and approvals. */
  ghost predicate NoOrphans(w: World) {
    && (forall stageId :: stageId in w.reviews ==>
          exists id :: id in w.approvals && HasId(w.approvals[id].stages, stageId))
    && (forall id :: id in w.calls ==> id in w.approvals)
  }

  ghost predicate Inv(w: World) {
    && (forall id :: id in w.approvals ==> Sound(w.approvals[id], w.reviews, CallsOf(w, id)))
    && StagesOwned(w.approvals)
    && NoOrphans(w)
  }

  // ---- How one state may follow another

  ghost predicate StageEvolves(s: Stage, t: Stage) {
    && (s.status != Pending ==> t == s)
    && t.(status := s.status, reviewedBy := s.reviewedBy, reviewedAt := s.reviewedAt, comment := s.comment) == s
  }

  /** Rejected and cancelled approvals never change again; an approved one can only be cancelled. */
  ghost predicate ApprovalEvolves(a: Approval, b: Approval) {
    && a.spec == b.spec
    && |a.stages| == |b.stages|
    && (forall i :: 0 <= i < |a.stages| ==> StageEvolves(a.stages[i], b.stages[i]))
    && (a.status in {Rejected, Cancelled} ==> b == a)
    && (a.status == Approved ==> b.stages == a.stages && b.status in {Approved, Cancelled})
  }

  /** Nothing recorded is ever lost: approvals stay, reviews and completer calls are only appended. */
  ghost predicate Evolves(v: World, w: World) {
    && (forall id :: id in v.approvals ==> id in w.approvals && ApprovalEvolves(v.approvals[id], w.approvals[id]))
    && (forall stageId :: ReviewsOf(v.reviews, stageId) <= ReviewsOf(w.reviews, stageId))
    && (forall id :: CallsOf(v, id) <= CallsOf(w, id))
  }

  lemma EvolvesTransitive(u: World, v: World, w: World)
    requires Evolves(u, v) && Evolves(v, w)
    ensures Evolves(u, w)
  {
  }

  // ---- Counting approvals

  lemma CountAppend(rs: seq<Review>, r: Review)
    ensures CountApproved(rs + [r]) == CountApproved(rs) + if r.decision == DecidedApprove then 1 else 0
  {
  }

  ghost function Approvers(rs: seq<Review>): set<Uuid> {
    set r | r in rs && r.decision == DecidedApprove :: r.reviewer
  }

  /** What the store counts is the number of different people who approved. */
  lemma {:induction false} CountIsApprovers(rs: seq<Review>)
    requires DistinctApprovers(rs)
    ensures CountApproved(rs) == |Approvers(rs)|
  {
    if rs == [] {
      assert Approvers(rs) == {};
    } else {
      var front, last := rs[..|rs| - 1], rs[|rs| - 1];
      assert rs == front + [last];
      CountIsApprovers(front);
      if last.decision == DecidedApprove {
        assert Approvers(rs) == Approvers(front) + {last.reviewer};
        assert last.reviewer !in Approvers(front);
      } else {
        assert Approvers(rs) == Approvers(front);
      }
    }
  }

  lemma {:induction false} CountZero(rs: seq<Review>)
    requires forall r :: r in rs ==> r.decision != DecidedApprove
    ensures CountApproved(rs) == 0
  {
    if rs != [] { CountZero(rs[..|rs| - 1]); }
  }

  // ---- The three kinds of write keep the invariant

  /** Changes confined to one approval, its own stages' reviews and its own completer calls leave every other one sound. */
  lemma OtherSound(w: World, x: World, id: Uuid, other: Uuid)
    requires StagesOwned(w.approvals)
    requires id in w.approvals && other in w.approvals && other != id
    requires Sound(w.approvals[other], w.reviews, CallsOf(w, other))
    requires forall stageId :: !HasId(w.approvals[id].stages, stageId) ==>
               ReviewsOf(x.reviews, stageId) == ReviewsOf(w.reviews, stageId)
    ensures Sound(w.approvals[other], x.reviews, CallsOf(w, other))
  {
  }

  /** What has to be shown about a write to one approval for the whole invariant to survive. */
  lemma LocalChange(w: World, x: World, id: Uuid)
    requires Inv(w) && id in w.approvals
    requires x.approvals.Keys == w.approvals.Keys
    requires forall other :: other in w.approvals && other != id ==>
               x.approvals[other] == w.approvals[other] && CallsOf(x, other) == CallsOf(w, other)
    requires forall stageId :: !HasId(w.approvals[id].stages, stageId) ==>
               ReviewsOf(x.reviews, stageId) == ReviewsOf(w.reviews, stageId)
    requires forall stageId :: HasId(x.approvals[id].stages, stageId) <==> HasId(w.approvals[id].stages, stageId)
    requires forall stageId :: stageId in x.reviews && stageId !in w.reviews ==> HasId(w.approvals[id].stages, stageId)
    requires forall other :: other in x.calls && other !in w.calls ==> other == id
    requires Sound(x.approvals[id], x.reviews, CallsOf(x, id))
    ensures Inv(x)
  {
    forall other | other in x.approvals
      ensures Sound(x.approvals[other], x.reviews, CallsOf(x, other))
    {
      if other != id { OtherSound(w, x, id, other); }
    }
    OwnersKept(w, x, id);
  }

  lemma OwnersKept(w: World, x: World, id: Uuid)
    requires StagesOwned(w.approvals) && NoOrphans(w) && id in w.approvals
    requires x.approvals.Keys == w.approvals.Keys
    requires forall other :: other in w.approvals && other != id ==> x.approvals[other] == w.approvals[other]
    requires forall stageId :: HasId(x.approvals[id].stages, stageId) <==> HasId(w.approvals[id].stages, stageId)
    requires forall stageId :: stageId in x.reviews && stageId !in w.reviews ==> HasId(w.approvals[id].stages, stageId)
    requires forall other :: other in x.calls && other !in w.calls ==> other == id
    ensures StagesOwned(x.approvals) && NoOrphans(x)
  {
  }

  /** A new row for one approval, with the same stage ids, and perhaps one more completer call. */
  lemma RowWriteSafe(w: World, id: Uuid, b: Approval, calls: map<Uuid, seq<Callback>>)
    requires Inv(w) && id in w.approvals
    requires |b.stages| == |w.approvals[id].stages|
    requires forall k :: 0 <= k < |b.stages| ==> b.stages[k].id == w.approvals[id].stages[k].id
    requires calls == w.calls || (id in calls && calls == w.calls[id := calls[id]])
    requires Sound(b, w.reviews, CallsOf(w.(calls := calls), id))
    ensures Inv(World(w.approvals[id := b], w.reviews, calls))
  {
    SameIds(b.stages, w.approvals[id].stages);
    LocalChange(w, World(w.approvals[id := b], w.reviews, calls), id);
  }

  lemma SameIds(ss: seq<Stage>, ts: seq<Stage>)
    requires |ss| == |ts| && forall k :: 0 <= k < |ss| ==> ss[k].id == ts[k].id
    ensures forall stageId :: HasId(ss, stageId) <==> HasId(ts, stageId)
  {
  }

  lemma DistinctAppend(rs: seq<Review>, r: Review)
    requires DistinctApprovers(rs)
    requires r.decision == DecidedApprove ==> !HasReviewed(rs, r.reviewer)
    ensures DistinctApprovers(rs + [r])
  {
  }

  lemma ReviewKeepsSound(a: Approval, reviews: map<Uuid, seq<Review>>, calls: seq<Callback>, i: nat, r: Review)
    requires Sound(a, reviews, calls) && i < |a.stages|
    requires r.decision == DecidedApprove ==>
               LowerApproved(a.stages, a.stages[i].order) && !HasReviewed(ReviewsOf(reviews, a.stages[i].id), r.reviewer)
    ensures Sound(a, reviews[a.stages[i].id := ReviewsOf(reviews, a.stages[i].id) + [r]], calls)
  {
    var stageId := a.stages[i].id;
    var rs := ReviewsOf(reviews, stageId);
    var after := reviews[stageId := rs + [r]];
    assert StageSound(a.stages[i], rs);
    DistinctAppend(rs, r);
    CountAppend(rs, r);
    forall k | 0 <= k < |a.stages|
      ensures StageSound(a.stages[k], ReviewsOf(after, a.stages[k].id))
      ensures k != i ==> ReviewsOf(after, a.stages[k].id) == ReviewsOf(reviews, a.stages[k].id)
    {
      assert StageSound(a.stages[k], ReviewsOf(reviews, a.stages[k].id));
      if k < i { assert a.stages[k].id != a.stages[i].id; }
      if i < k { assert a.stages[i].id != a.stages[k].id; }
    }
    assert InOrder(a.stages, after);
  }

  lemma SettleKeepsSound(a: Approval, reviews: map<Uuid, seq<Review>>, calls: seq<Callback>, i: nat, s: Stage)
    requires Sound(a, reviews, calls) && i < |a.stages|
    requires a.status == Pending && a.stages[i].status == Pending
    requires StageEvolves(a.stages[i], s) && s.status in {Approved, Rejected}
    requires s.status == Approved ==>
               LowerApproved(a.stages, s.order) && Effective(s.minApprovers) <= CountApproved(ReviewsOf(reviews, s.id))
    ensures Sound(a.(stages := a.stages[i := s]), reviews, calls)
  {
  }

  lemma CloseKeepsSound(a: Approval, reviews: map<Uuid, seq<Review>>, calls: seq<Callback>, status: Status, call: Callback)
    requires Sound(a, reviews, calls) && MayClose(a, status, call)
    ensures Sound(a.(status := status), reviews, calls + [call])
  {
  }

  lemma AddReviewEvolves(w: World, stageId: Uuid, r: Review)
    ensures Evolves(w, AddReview(w, stageId, r))
  {
  }

  /** Recording a review of a stage; an approving one by a newcomer, with the lower stages approved. */
  lemma AddReviewSafe(w: World, id: Uuid, i: nat, r: Review)
    requires Inv(w) && id in w.approvals && i < |w.approvals[id].stages|
    requires r.decision == DecidedApprove ==>
               && LowerApproved(w.approvals[id].stages, w.approvals[id].stages[i].order)
               && !HasReviewed(ReviewsOf(w.reviews, w.approvals[id].stages[i].id), r.reviewer)
    ensures Inv(AddReview(w, w.approvals[id].stages[i].id, r))
  {
    var a := w.approvals[id];
    assert HasId(a.stages, a.stages[i].id);
    ReviewKeepsSound(a, w.reviews, CallsOf(w, id), i, r);
    LocalChange(w, AddReview(w, a.stages[i].id, r), id);
  }

  lemma PutStageEvolves(w: World, id: Uuid, i: nat, s: Stage)
    requires id in w.approvals && i < |w.approvals[id].stages|
    requires w.approvals[id].status == Pending && StageEvolves(w.approvals[id].stages[i], s)
    ensures Evolves(w, PutStage(w, id, i, s))
  {
  }

  /** Settling a pending stage: as approved with its quorum and its lower stages approved, or as rejected. */
  lemma PutStageSafe(w: World, id: Uuid, i: nat, s: Stage)
    requires Inv(w) && id in w.approvals && i < |w.approvals[id].stages|
    requires w.approvals[id].status == Pending && w.approvals[id].stages[i].status == Pending
    requires StageEvolves(w.approvals[id].stages[i], s) && s.status in {Approved, Rejected}
    requires s.status == Approved ==>
               && LowerApproved(w.approvals[id].stages, s.order)
               && Effective(s.minApprovers) <= CountApproved(ReviewsOf(w.reviews, s.id))
    ensures Inv(PutStage(w, id, i, s))
  {
    var a := w.approvals[id];
    SettleKeepsSound(a, w.reviews, CallsOf(w, id), i, s);
    assert s.id == a.stages[i].id;
    RowWriteSafe(w, id, a.(stages := a.stages[i := s]), w.calls);
  }

  /** The final statuses the engine may give an approval, with the completer call that goes with each. */
  ghost predicate MayClose(a: Approval, status: Status, call: Callback) {
    || (a.status == Pending && status == Approved && call == OnApproved && Complete(a.stages))
    || (a.status == Pending && status == Rejected && call == OnRejected && HasRejected(a.stages))
    || (a.status in {Pending, Approved} && status == Cancelled && call == OnCancelled)
  }

  /** Saving a final status and telling the completer. */
  lemma CloseSafe(w: World, f: Faults, id: Uuid, status: Status, call: Callback)
    requires Inv(w) && id in w.approvals && MayClose(w.approvals[id], status, call)
    ensures Inv(Close(w, f, id, status, call).world)
  {
    if !f.save {
      CloseKeepsSound(w.approvals[id], w.reviews, CallsOf(w, id), status, call);
      RowWriteSafe(w, id, w.approvals[id].(status := status), w.calls[id := CallsOf(w, id) + [call]]);
    }
  }

  lemma CloseEvolves(w: World, f: Faults, id: Uuid, status: Status, call: Callback)
    requires id in w.approvals && MayClose(w.approvals[id], status, call)
    ensures Evolves(w, Close(w, f, id, status, call).world)
  {
    if !f.save {
      var x := Called(PutStatus(w, id, status), id, call);
      assert ApprovalEvolves(w.approvals[id], x.approvals[id]);
      assert Evolves(w, x);
    }
  }

  // ---- Every engine call keeps the invariant

  lemma CountAndSettleSafe(w: World, now: nat, f: Faults, id: Uuid, i: nat, u: User)
    requires Inv(w) && id in w.approvals && i < |w.approvals[id].stages|
    requires w.approvals[id].status == Pending && w.approvals[id].stages[i].status == Pending
    requires LowerApproved(w.approvals[id].stages, w.approvals[id].stages[i].order)
    ensures var x := CountAndSettle(w, now, f, id, i, u).world; Inv(x) && Evolves(w, x)
  {
    var x := CountAndSettle(w, now, f, id, i, u).world;
    if x != w {
      var s := Reviewed(w.approvals[id].stages[i], Approved, u.id, now);
      var settled := PutStage(w, id, i, s);
      PutStageSafe(w, id, i, s);
      PutStageEvolves(w, id, i, s);
      if x != settled {
        FinishSafe(settled, f, id, i);
        EvolvesTransitive(w, settled, x);
      }
    }
  }

  lemma FinishSafe(w: World, f: Faults, id: Uuid, i: nat)
    requires Inv(w) && id in w.approvals && i < |w.approvals[id].stages|
    requires w.approvals[id].status == Pending && w.approvals[id].stages[i].status == Approved
    requires AllApproved(w.approvals[id].stages, w.approvals[id].stages[i].id)
    ensures var x := Close(w, f, id, Approved, OnApproved).world; Inv(x) && Evolves(w, x)
  {
    assert Sound(w.approvals[id], w.reviews, CallsOf(w, id));
    AllApprovedMeansComplete(w.approvals[id].stages, i);
    CloseSafe(w, f, id, Approved, OnApproved);
    CloseEvolves(w, f, id, Approved, OnApproved);
  }

  /** An authorized newcomer's approval, once accepted for recording. */
  lemma RecordAndSettleSafe(w: World, now: nat, f: Faults, id: Uuid, i: nat, u: User)
    requires Inv(w) && id in w.approvals && i < |w.approvals[id].stages|
    requires w.approvals[id].status == Pending && w.approvals[id].stages[i].status == Pending
    requires LowerApproved(w.approvals[id].stages, w.approvals[id].stages[i].order)
    requires !HasReviewed(ReviewsOf(w.reviews, w.approvals[id].stages[i].id), u.id)
    ensures var recorded := AddReview(w, w.approvals[id].stages[i].id, Review(u.id, DecidedApprove));
            var x := CountAndSettle(recorded, now, f, id, i, u).world;
            Inv(x) && Evolves(w, x)
  {
    var r := Review(u.id, DecidedApprove);
    var recorded := AddReview(w, w.approvals[id].stages[i].id, r);
    AddReviewSafe(w, id, i, r);
    AddReviewEvolves(w, w.approvals[id].stages[i].id, r);
    CountAndSettleSafe(recorded, now, f, id, i, u);
    EvolvesTransitive(w, recorded, CountAndSettle(recorded, now, f, id, i, u).world);
  }

  lemma ApproveSafe(c: Completers, w: World, d: Directory, now: nat, f: Faults, id: Uuid, stageId: Uuid, u: User)
    requires Inv(w)
    ensures var x := ApproveStage(c, w, d, now, f, id, stageId, u).world; Inv(x) && Evolves(w, x)
  {
    if ApproveStage(c, w, d, now, f, id, stageId, u).world != w {
      ApproveWrites(c, w, d, now, f, id, stageId, u);
      RecordAndSettleSafe(w, now, f, id, Authorize(d, w.approvals[id], stageId, u).value, u);
    }
  }

  /** An approval that is accepted or writes anything has passed every check, and its writes start with the review. */
  lemma ApproveWrites(c: Completers, w: World, d: Directory, now: nat, f: Faults, id: Uuid, stageId: Uuid, u: User)
    requires var o := ApproveStage(c, w, d, now, f, id, stageId, u); o.world != w || o.reply.Ok?
    ensures id in w.approvals && Authorize(d, w.approvals[id], stageId, u).Ok?
    ensures var a := w.approvals[id];
            var i := Authorize(d, a, stageId, u).value;
            && a.status == Pending && a.stages[i].status == Pending && LowerApproved(a.stages, a.stages[i].order)
            && !HasReviewed(ReviewsOf(w.reviews, stageId), u.id)
            && ApproveStage(c, w, d, now, f, id, stageId, u)
               == CountAndSettle(AddReview(w, stageId, Review(u.id, DecidedApprove)), now, f, id, i, u)
  {
    AdmitIff(c, w, d, f, id, stageId, u);
  }

  lemma ApproveAddsNoRow(c: Completers, w: World, d: Directory, now: nat, f: Faults, id: Uuid, stageId: Uuid, u: User)
    ensures ApproveStage(c, w, d, now, f, id, stageId, u).world.approvals.Keys == w.approvals.Keys
  {
    if ApproveStage(c, w, d, now, f, id, stageId, u).world != w {
      ApproveWrites(c, w, d, now, f, id, stageId, u);
    }
  }

  lemma RejectAddsNoRow(c: Completers, w: World, d: Directory, now: nat, f: Faults, id: Uuid, stageId: Uuid, u: User,
                        comment: string)
    ensures RejectStage(c, w, d, now, f, id, stageId, u, comment).world.approvals.Keys == w.approvals.Keys
  {
  }

  /** The skip over the just-approved stage hides nothing: that stage is approved too. */
  lemma AllApprovedMeansComplete(stages: seq<Stage>, i: nat)
    requires UniqueIds(stages) && i < |stages| && stages[i].status == Approved
    ensures AllApproved(stages, stages[i].id) <==> Complete(stages)
  {
  }

  lemma RejectAndCloseSafe(w: World, now: nat, f: Faults, id: Uuid, i: nat, u: User, comment: string)
    requires Inv(w) && id in w.approvals && i < |w.approvals[id].stages|
    requires w.approvals[id].status == Pending && w.approvals[id].stages[i].status == Pending
    ensures var x := RejectAndClose(w, now, f, id, i, u, comment).world; Inv(x) && Evolves(w, x)
  {
    if !f.saveStage {
      var s := Reviewed(w.approvals[id].stages[i], Rejected, u.id, now).(comment := comment);
      var settled := PutStage(w, id, i, s);
      PutStageSafe(w, id, i, s);
      PutStageEvolves(w, id, i, s);
      assert settled.approvals[id].stages[i].status == Rejected;
      CloseSafe(settled, f, id, Rejected, OnRejected);
      CloseEvolves(settled, f, id, Rejected, OnRejected);
      EvolvesTransitive(w, settled, Close(settled, f, id, Rejected, OnRejected).world);
    }
  }

  lemma RecordRejectionSafe(w: World, f: Faults, id: Uuid, i: nat, u: User)
    requires Inv(w) && id in w.approvals && i < |w.approvals[id].stages|
    ensures var x := RecordRejection(w, f, w.approvals[id].stages[i].id, u); Inv(x) && Evolves(w, x)
  {
    AddReviewSafe(w, id, i, Review(u.id, DecidedReject));
    AddReviewEvolves(w, w.approvals[id].stages[i].id, Review(u.id, DecidedReject));
  }

  lemma RecordAndRejectSafe(w: World, now: nat, f: Faults, id: Uuid, i: nat, u: User, comment: string)
    requires Inv(w) && id in w.approvals && i < |w.approvals[id].stages|
    requires w.approvals[id].status == Pending && w.approvals[id].stages[i].status == Pending
    ensures var recorded := RecordRejection(w, f, w.approvals[id].stages[i].id, u);
            var x := RejectAndClose(recorded, now, f, id, i, u, comment).world;
            Inv(x) && Evolves(w, x)
  {
    var recorded := RecordRejection(w, f, w.approvals[id].stages[i].id, u);
    RecordRejectionSafe(w, f, id, i, u);
    RejectAndCloseSafe(recorded, now, f, id, i, u, comment);
    EvolvesTransitive(w, recorded, RejectAndClose(recorded, now, f, id, i, u, comment).world);
  }

  lemma RejectSafe(c: Completers, w: World, d: Directory, now: nat, f: Faults, id: Uuid, stageId: Uuid, u: User,
                   comment: string)
    requires Inv(w)
    ensures var x := RejectStage(c, w, d, now, f, id, stageId, u, comment).world; Inv(x) && Evolves(w, x)
  {
    if RejectStage(c, w, d, now, f, id, stageId, u, comment).world != w {
      RecordAndRejectSafe(w, now, f, id, Authorize(d, w.approvals[id], stageId, u).value, u, comment);
    }
  }

  /** Stage ids the store accepts for a new approval belong to no stored stage, so nobody has reviewed them. */
  lemma NewKeysUnused(w: World, id: Uuid, n: nat, mint: nat -> Uuid, i: nat)
    requires Inv(w) && !KeysTaken(w.approvals, id, n, mint) && i < n
    ensures forall other :: other in w.approvals ==> !HasId(w.approvals[other].stages, mint(i))
    ensures ReviewsOf(w.reviews, mint(i)) == []
    ensures CallsOf(w, id) == []
  {
  }

  lemma FreshIsSound(planned: seq<Stage>, mint: nat -> Uuid, spec: Spec, reviews: map<Uuid, seq<Review>>)
    requires planned != [] && forall s :: s in planned ==> Planning.FreshStage(s)
    requires forall i, j :: 0 <= i < j < |planned| ==> mint(i) != mint(j)
    requires forall i :: 0 <= i < |planned| ==> ReviewsOf(reviews, mint(i)) == []
    ensures Sound(Approval(spec, Pending, WithIds(planned, mint)), reviews, [])
  {
    var stages := WithIds(planned, mint);
    forall i | 0 <= i < |stages|
      ensures StageSound(stages[i], ReviewsOf(reviews, stages[i].id)) && stages[i].status == Pending
      ensures CountApproved(ReviewsOf(reviews, stages[i].id)) == 0
    {
      assert planned[i] in planned;
    }
  }

  lemma NewStagesOwned(approvals: map<Uuid, Approval>, id: Uuid, a: Approval)
    requires StagesOwned(approvals) && id !in approvals
    requires forall other, i :: other in approvals && 0 <= i < |a.stages| ==> !HasId(approvals[other].stages, a.stages[i].id)
    ensures StagesOwned(approvals[id := a])
  {
  }

  lemma SubmitSafe(w: World, d: Directory, p: Policies, f: Faults, id: Uuid, mint: nat -> Uuid, spec: Spec)
    requires Inv(w)
    ensures var x := Submit(w, d, p, f, id, mint, spec).world; Inv(x) && Evolves(w, x)
    ensures Submit(w, d, p, f, id, mint, spec).reply.Ok? ==>
              var a := Submit(w, d, p, f, id, mint, spec).reply.value;
              && id !in w.approvals
              && (forall i :: 0 <= i < |a.stages| ==> ReviewsOf(w.reviews, a.stages[i].id) == [])
  {
    var o := Submit(w, d, p, f, id, mint, spec);
    if o.reply.Ok? {
      var a, x := o.reply.value, o.world;
      Planning.PlannedStagesAreFresh(d, p, spec);
      var planned := Planning.Plan(d, p, spec).value;
      var n := |planned|;
      NewKeysUnused(w, id, n, mint, 0);
      forall i | 0 <= i < n
        ensures ReviewsOf(w.reviews, mint(i)) == []
        ensures forall other :: other in w.approvals ==> !HasId(w.approvals[other].stages, a.stages[i].id)
      {
        NewKeysUnused(w, id, n, mint, i);
      }
      FreshIsSound(planned, mint, spec, w.reviews);
      NewStagesOwned(w.approvals, id, a);
      SubmitInv(w, x, id, a);
      SubmitEvolves(w, id, a);
    }
  }

  lemma SubmitInv(w: World, x: World, id: Uuid, a: Approval)
    requires Inv(w) && id !in w.approvals && x == w.(approvals := w.approvals[id := a])
    requires Sound(a, w.reviews, CallsOf(w, id)) && StagesOwned(x.approvals)
    ensures Inv(x)
  {
    forall other | other in x.approvals ensures Sound(x.approvals[other], x.reviews, CallsOf(x, other)) {
      assert CallsOf(x, other) == CallsOf(w, other);
    }
    SubmitNoOrphans(w, id, a);
  }

  lemma SubmitNoOrphans(w: World, id: Uuid, a: Approval)
    requires NoOrphans(w) && id !in w.approvals
    ensures NoOrphans(w.(approvals := w.approvals[id := a]))
  {
    var x := w.(approvals := w.approvals[id := a]);
    forall stageId | stageId in x.reviews
      ensures exists o :: o in x.approvals && HasId(x.approvals[o].stages, stageId)
    {
      var o :| o in w.approvals && HasId(w.approvals[o].stages, stageId);
      assert o in x.approvals && HasId(x.approvals[o].stages, stageId);
    }
  }

  lemma SubmitEvolves(w: World, id: Uuid, a: Approval)
    requires id !in w.approvals
    ensures Evolves(w, w.(approvals := w.approvals[id := a]))
  {
  }

  lemma StepSafe(c: Completers, w: World, act: Action)
    requires Inv(w)
    ensures Inv(Step(c, w, act).world) && Evolves(w, Step(c, w, act).world)
  {
    match act
    case SubmitA(d, p, f, id, mint, spec) => SubmitSafe(w, d, p, f, id, mint, spec);
    case ApproveA(d, now, f, id, stageId, u) => ApproveSafe(c, w, d, now, f, id, stageId, u);
    case RejectA(d, now, f, id, stageId, u, comment) => RejectSafe(c, w, d, now, f, id, stageId, u, comment);
    case CancelA(d, f, id, u) =>
      if Step(c, w, act).world != w {
        CloseSafe(w, f, id, Cancelled, OnCancelled);
        CloseEvolves(w, f, id, Cancelled, OnCancelled);
      }
  }

  /** What a call guarantees about one approval. */
  lemma StepAt(c: Completers, w: World, act: Action, id: Uuid)
    requires Inv(w) && id in w.approvals
    ensures var x := Step(c, w, act).world; id in x.approvals && ApprovalEvolves(w.approvals[id], x.approvals[id])
  {
    StepSafe(c, w, act);
  }

  lemma {:induction false} RunSafe(c: Completers, w: World, acts: seq<Action>)
    requires Inv(w)
    ensures Inv(Run(c, w, acts)) && Evolves(w, Run(c, w, acts))
    decreases |acts|
  {
    if acts != [] {
      var x := Step(c, w, acts[0]).world;
      StepSafe(c, w, acts[0]);
      RunSafe(c, x, acts[1..]);
      EvolvesTransitive(w, x, Run(c, x, acts[1..]));
    }
  }

  /** What a run guarantees about one approval. */
  lemma RunAt(c: Completers, w: World, acts: seq<Action>, id: Uuid)
    requires Inv(w) && id in w.approvals
    ensures var x := Run(c, w, acts);
            && id in x.approvals
            && Sound(w.approvals[id], w.reviews, CallsOf(w, id))
            && Sound(x.approvals[id], x.reviews, CallsOf(x, id))
            && ApprovalEvolves(w.approvals[id], x.approvals[id])
            && CallsOf(w, id) <= CallsOf(x, id)
  {
    RunSafe(c, w, acts);
  }

  // ---- What a reader gets from it, for every run from empty stores

  /** Quorum: nothing is approved without enough different people having approved each stage. */
  lemma Quorum(c: Completers, acts: seq<Action>, id: Uuid, i: nat)
    requires var w := Run(c, EMPTY, acts); id in w.approvals && i < |w.approvals[id].stages|
    ensures var w := Run(c, EMPTY, acts);
            var s := w.approvals[id].stages[i];
            && (w.approvals[id].status == Approved ==> s.status == Approved)
            && (OnApproved in CallsOf(w, id) ==> s.status == Approved)
            && (s.status == Approved ==> |Approvers(ReviewsOf(w.reviews, s.id))| >= Effective(s.minApprovers))
  {
    RunSafe(c, EMPTY, acts);
    var w := Run(c, EMPTY, acts);
    assert Sound(w.approvals[id], w.reviews, CallsOf(w, id));
    var s := w.approvals[id].stages[i];
    assert StageSound(s, ReviewsOf(w.reviews, s.id));
    CountIsApprovers(ReviewsOf(w.reviews, s.id));
  }

  /** The completer hears of one approval at most once approved-then-cancelled, or rejected, or cancelled,
      and exactly what the stored status says. */
  lemma CallbackTrace(c: Completers, acts: seq<Action>, id: Uuid)
    ensures var w := Run(c, EMPTY, acts);
            var calls := CallsOf(w, id);
            && (calls <= [OnApproved, OnCancelled] || calls == [OnRejected] || calls == [OnCancelled])
            && (calls != [] ==> id in w.approvals)
            && (id in w.approvals ==>
                  && (w.approvals[id].status == Pending <==> calls == [])
                  && (w.approvals[id].status == Approved <==> calls == [OnApproved])
                  && (w.approvals[id].status == Rejected <==> calls == [OnRejected])
                  && (w.approvals[id].status == Cancelled <==> OnCancelled in calls))
  {
    RunSafe(c, EMPTY, acts);
    var w := Run(c, EMPTY, acts);
    if id in w.approvals {
      assert Sound(w.approvals[id], w.reviews, CallsOf(w, id));
    }
  }

  /** Once a stage is rejected the approval can never be approved, even if saving the rejection itself failed. */
  lemma RejectedStageIsFinal(c: Completers, w: World, acts: seq<Action>, id: Uuid, i: nat)
    requires Inv(w) && id in w.approvals && i < |w.approvals[id].stages|
    requires w.approvals[id].stages[i].status == Rejected
    ensures var x := Run(c, w, acts);
            && id in x.approvals && i < |x.approvals[id].stages|
            && x.approvals[id].stages[i] == w.approvals[id].stages[i]
            && x.approvals[id].status != Approved
            && OnApproved !in CallsOf(x, id)
  {
    RunAt(c, w, acts, id);
    var x := Run(c, w, acts);
    StaysRejected(w.approvals[id], x.approvals[id], x.reviews, CallsOf(x, id), i);
  }

  lemma StaysRejected(a: Approval, b: Approval, reviews: map<Uuid, seq<Review>>, calls: seq<Callback>, i: nat)
    requires ApprovalEvolves(a, b) && Sound(b, reviews, calls)
    requires i < |a.stages| && a.stages[i].status == Rejected
    ensures b.stages[i] == a.stages[i] && b.status != Approved && OnApproved !in calls
  {
    assert StageEvolves(a.stages[i], b.stages[i]);
  }

  /** Rejected and Cancelled are absorbing: the row and the completer calls never change again. */
  lemma ClosedForGood(c: Completers, w: World, acts: seq<Action>, id: Uuid)
    requires Inv(w) && id in w.approvals && w.approvals[id].status in {Rejected, Cancelled}
    ensures var x := Run(c, w, acts);
            id in x.approvals && x.approvals[id] == w.approvals[id] && CallsOf(x, id) == CallsOf(w, id)
  {
    RunAt(c, w, acts, id);
    SameCalls(w.approvals[id], CallsOf(w, id), CallsOf(Run(c, w, acts), id));
  }

  lemma SameCalls(a: Approval, calls: seq<Callback>, more: seq<Callback>)
    requires a.status in {Rejected, Cancelled} && CallsFit(a, calls) && CallsFit(a, more) && calls <= more
    ensures more == calls
  {
    assert calls[0] == more[0];
  }

  /** A stage's reviews change only in a review call about that stage, which must be allowed to review it. */
  lemma WhoReviews(c: Completers, w: World, act: Action, stageId: Uuid)
    requires ReviewsOf(Step(c, w, act).world.reviews, stageId) != ReviewsOf(w.reviews, stageId)
    ensures (act.ApproveA? || act.RejectA?) && act.stageId == stageId && act.id in w.approvals
    ensures Authorize(act.dir, w.approvals[act.id], stageId, act.user).Ok?
    ensures Step(c, w, act).world.reviews ==
            AddReview(w, stageId, Review(act.user.id, if act.ApproveA? then DecidedApprove else DecidedReject)).reviews
  {
  }

  /** Only an ApproveStage call of that very stage adds to its approving reviews. */
  lemma WhoCounts(c: Completers, w: World, act: Action, stageId: Uuid)
    requires CountApproved(ReviewsOf(Step(c, w, act).world.reviews, stageId)) != CountApproved(ReviewsOf(w.reviews, stageId))
    ensures act.ApproveA? && act.stageId == stageId && act.id in w.approvals
    ensures Authorize(act.dir, w.approvals[act.id], stageId, act.user).Ok?
  {
    WhoReviews(c, w, act, stageId);
    if act.RejectA? {
      CountAppend(ReviewsOf(w.reviews, act.stageId), Review(act.user.id, DecidedReject));
    }
  }

  lemma AuthorizedOrder(d: Directory, a: Approval, u: User, j: nat)
    requires j < |a.stages| && UniqueIds(a.stages) && Authorize(d, a, a.stages[j].id, u).Ok?
    ensures Authorize(d, a, a.stages[j].id, u).value == j
    ensures a.stages[j].status == Pending && LowerApproved(a.stages, a.stages[j].order)
  {
  }

  /** Stage order: approved stages are downward closed, and an approving review is given, in any call of any run,
      only while every lower-order stage is approved. */
  lemma StageOrder(c: Completers, acts: seq<Action>, next: Action, id: Uuid, i: nat, j: nat)
    requires var w := Run(c, EMPTY, acts);
             id in w.approvals && i < |w.approvals[id].stages| && j < |w.approvals[id].stages|
             && w.approvals[id].stages[i].order < w.approvals[id].stages[j].order
    ensures var w := Run(c, EMPTY, acts);
            var x := Step(c, w, next).world;
            var s, t := w.approvals[id].stages[i], w.approvals[id].stages[j];
            && (t.status == Approved ==> s.status == Approved)
            && (CountApproved(ReviewsOf(x.reviews, t.id)) > CountApproved(ReviewsOf(w.reviews, t.id)) ==>
                  s.status == Approved)
  {
    RunSafe(c, EMPTY, acts);
    var w := Run(c, EMPTY, acts);
    var a := w.approvals[id];
    var t := a.stages[j];
    if CountApproved(ReviewsOf(Step(c, w, next).world.reviews, t.id)) > CountApproved(ReviewsOf(w.reviews, t.id)) {
      WhoCounts(c, w, next, t.id);
      OneOwner(w, id, next.id, j, Authorize(next.dir, w.approvals[next.id], t.id, next.user).value);
      AuthorizedOrder(next.dir, a, next.user, j);
    } else {
      assert InOrder(a.stages, w.reviews);
    }
  }

  lemma OneOwner(w: World, id: Uuid, other: Uuid, j: nat, k: nat)
    requires Inv(w) && id in w.approvals && other in w.approvals
    requires j < |w.approvals[id].stages| && k < |w.approvals[other].stages|
    requires w.approvals[id].stages[j].id == w.approvals[other].stages[k].id
    ensures id == other && UniqueIds(w.approvals[id].stages)
  {
    assert HasId(w.approvals[id].stages, w.approvals[id].stages[j].id);
    assert HasId(w.approvals[other].stages, w.approvals[id].stages[j].id);
  }
}
