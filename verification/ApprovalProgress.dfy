/** How many approvals it takes, when an approval can still move, and when it is stuck. */
module ApprovalProgress {
  import opened Basics
  import opened ApprovalModel
  import opened Traversal
  import opened ApprovalSafety
  import Planning

  function Quotas(stages: seq<Stage>): seq<nat> {
    seq(|stages|, i requires 0 <= i < |stages| => Effective(stages[i].minApprovers))
  }

  function Counts(stages: seq<Stage>, reviews: map<Uuid, seq<Review>>): seq<nat> {
    seq(|stages|, i requires 0 <= i < |stages| => CountApproved(ReviewsOf(reviews, stages[i].id)))
  }

  /** The approvals an approval needs over all its stages. */
  function Required(stages: seq<Stage>): nat {
    Sum(Quotas(stages))
  }

  /** The approvals on record over all its stages. */
  function Given(stages: seq<Stage>, reviews: map<Uuid, seq<Review>>): nat {
    Sum(Counts(stages, reviews))
  }

  ghost predicate StageExact(s: Stage, rs: seq<Review>) {
    || (s.status == Pending && CountApproved(rs) < Effective(s.minApprovers))
    || (s.status == Approved && CountApproved(rs) == Effective(s.minApprovers))
  }

  /** The bookkeeping of an approval that has met neither a failure nor a rejection nor a cancellation. */
  ghost predicate Exact(a: Approval, reviews: map<Uuid, seq<Review>>) {
    && (forall i :: 0 <= i < |a.stages| ==> StageExact(a.stages[i], ReviewsOf(reviews, a.stages[i].id)))
    && a.status in {Pending, Approved}
    && (a.status == Approved <==> Complete(a.stages))
  }

  lemma ExactStatus(a: Approval, reviews: map<Uuid, seq<Review>>)
    requires Exact(a, reviews)
    ensures Given(a.stages, reviews) <= Required(a.stages)
    ensures a.status == Approved <==> Given(a.stages, reviews) == Required(a.stages)
  {
    var counts, quotas := Counts(a.stages, reviews), Quotas(a.stages);
    forall i | 0 <= i < |a.stages|
      ensures counts[i] <= quotas[i] && (counts[i] == quotas[i] <==> a.stages[i].status == Approved)
    {
      assert StageExact(a.stages[i], ReviewsOf(reviews, a.stages[i].id));
    }
    SumBelow(counts, quotas);
    if counts == quotas {
      assert forall i :: 0 <= i < |a.stages| ==> counts[i] == quotas[i];
    }
  }

  lemma RequiredKept(a: Approval, b: Approval)
    requires ApprovalEvolves(a, b)
    ensures Required(a.stages) == Required(b.stages)
  {
    forall i | 0 <= i < |a.stages| ensures Quotas(a.stages)[i] == Quotas(b.stages)[i] {
      assert StageEvolves(a.stages[i], b.stages[i]);
    }
    assert Quotas(a.stages) == Quotas(b.stages);
  }

  // ---- One accepted approval adds exactly one

  lemma ReviewAddsOne(stages: seq<Stage>, reviews: map<Uuid, seq<Review>>, i: nat, reviewer: Uuid)
    requires UniqueIds(stages) && i < |stages|
    ensures var id := stages[i].id;
            Given(stages, reviews[id := ReviewsOf(reviews, id) + [Review(reviewer, DecidedApprove)]])
            == Given(stages, reviews) + 1
  {
    var id := stages[i].id;
    var r := Review(reviewer, DecidedApprove);
    var after := reviews[id := ReviewsOf(reviews, id) + [r]];
    CountAppend(ReviewsOf(reviews, id), r);
    var before := Counts(stages, reviews);
    forall k | 0 <= k < |stages|
      ensures Counts(stages, after)[k] == before[i := before[i] + 1][k]
    {
      if k < i { assert stages[k].id != stages[i].id; }
      if i < k { assert stages[i].id != stages[k].id; }
    }
    assert Counts(stages, after) == before[i := before[i] + 1];
    SumUpdate(before, i, before[i] + 1);
  }

  /** Recording one more approval and settling the stage when it has its quota keeps the books exact. */
  lemma SettleExact(a: Approval, reviews: map<Uuid, seq<Review>>, i: nat, u: User, now: nat)
    requires Exact(a, reviews) && UniqueIds(a.stages) && a.status == Pending
    requires i < |a.stages| && a.stages[i].status == Pending
    ensures var s := a.stages[i];
            var after := reviews[s.id := ReviewsOf(reviews, s.id) + [Review(u.id, DecidedApprove)]];
            var settled := a.(stages := a.stages[i := Reviewed(s, Approved, u.id, now)]);
            && (CountApproved(ReviewsOf(after, s.id)) < Effective(s.minApprovers) ==> Exact(a, after))
            && (CountApproved(ReviewsOf(after, s.id)) >= Effective(s.minApprovers) ==>
                  Exact(settled.(status := if AllApproved(settled.stages, s.id) then Approved else Pending), after))
  {
    var s := a.stages[i];
    var r := Review(u.id, DecidedApprove);
    var after := reviews[s.id := ReviewsOf(reviews, s.id) + [r]];
    var stages := a.stages[i := Reviewed(s, Approved, u.id, now)];
    CountAppend(ReviewsOf(reviews, s.id), r);
    forall k | 0 <= k < |a.stages|
      ensures StageExact(a.stages[k], ReviewsOf(reviews, a.stages[k].id))
      ensures k != i ==> ReviewsOf(after, a.stages[k].id) == ReviewsOf(reviews, a.stages[k].id)
    {
      if k < i { assert a.stages[k].id != a.stages[i].id; }
      if i < k { assert a.stages[i].id != a.stages[k].id; }
    }
    assert UniqueIds(stages);
    AllApprovedMeansComplete(stages, i);
    assert !Complete(a.stages);
  }

  /** What a failure-free accepted approval writes. */
  lemma AcceptedShape(c: Completers, w: World, d: Directory, now: nat, id: Uuid, stageId: Uuid, u: User) returns (i: nat)
    requires ApproveStage(c, w, d, now, NO_FAULTS, id, stageId, u).reply.Ok?
    ensures id in w.approvals && i < |w.approvals[id].stages|
    ensures var a := w.approvals[id];
            var s := a.stages[i];
            var o := ApproveStage(c, w, d, now, NO_FAULTS, id, stageId, u);
            var after := w.reviews[s.id := ReviewsOf(w.reviews, s.id) + [Review(u.id, DecidedApprove)]];
            var stages := a.stages[i := Reviewed(s, Approved, u.id, now)];
            && s.id == stageId && a.status == Pending && s.status == Pending
            && o.world.reviews == after
            && o.world.approvals == w.approvals[id :=
                 if CountApproved(ReviewsOf(after, s.id)) < Effective(s.minApprovers) then a
                 else a.(stages := stages, status := if AllApproved(stages, s.id) then Approved else Pending)]
  {
    ApproveWrites(c, w, d, now, NO_FAULTS, id, stageId, u);
    i := Authorize(d, w.approvals[id], stageId, u).value;
    SettledShape(AddReview(w, stageId, Review(u.id, DecidedApprove)), now, id, i, u);
  }

  lemma SettledShape(w: World, now: nat, id: Uuid, i: nat, u: User)
    requires id in w.approvals && i < |w.approvals[id].stages| && w.approvals[id].status == Pending
    ensures var a := w.approvals[id];
            var s := a.stages[i];
            var stages := a.stages[i := Reviewed(s, Approved, u.id, now)];
            CountAndSettle(w, now, NO_FAULTS, id, i, u).world.approvals
            == w.approvals[id :=
                 if CountApproved(ReviewsOf(w.reviews, s.id)) < Effective(s.minApprovers) then a
                 else a.(stages := stages, status := if AllApproved(stages, s.id) then Approved else Pending)]
  {
  }

  lemma ApprovedStageKeepsCounts(stages: seq<Stage>, reviews: map<Uuid, seq<Review>>, i: nat, u: User, now: nat)
    requires i < |stages|
    ensures Given(stages[i := Reviewed(stages[i], Approved, u.id, now)], reviews) == Given(stages, reviews)
  {
    assert Counts(stages[i := Reviewed(stages[i], Approved, u.id, now)], reviews) == Counts(stages, reviews);
  }

  /** A failure-free approve call is either refused without a trace or adds one approval. */
  lemma CleanApprove(c: Completers, w: World, d: Directory, now: nat, id: Uuid, stageId: Uuid, u: User)
    requires id in w.approvals && UniqueIds(w.approvals[id].stages) && Exact(w.approvals[id], w.reviews)
    ensures var o := ApproveStage(c, w, d, now, NO_FAULTS, id, stageId, u);
            && (o.reply.Err? ==> o.world == w)
            && id in o.world.approvals
            && Exact(o.world.approvals[id], o.world.reviews)
            && (o.reply.Ok? ==> Given(o.world.approvals[id].stages, o.world.reviews)
                                == Given(w.approvals[id].stages, w.reviews) + 1)
  {
    if ApproveStage(c, w, d, now, NO_FAULTS, id, stageId, u).reply.Ok? {
      var i := AcceptedShape(c, w, d, now, id, stageId, u);
      AcceptedBooks(w.approvals[id], w.reviews, now, i, u);
    } else {
      RefusedWithoutTrace(c, w, d, now, id, stageId, u);
    }
  }

  lemma RefusedWithoutTrace(c: Completers, w: World, d: Directory, now: nat, id: Uuid, stageId: Uuid, u: User)
    requires ApproveStage(c, w, d, now, NO_FAULTS, id, stageId, u).reply.Err?
    ensures ApproveStage(c, w, d, now, NO_FAULTS, id, stageId, u).world == w
  {
    AdmitIff(c, w, d, NO_FAULTS, id, stageId, u);
    if Admit(c, w, d, NO_FAULTS, id, stageId, u).Ok? {
      SettlesCleanly(AddReview(w, stageId, Review(u.id, DecidedApprove)), now, id,
                     Authorize(d, w.approvals[id], stageId, u).value, u);
    }
  }

  lemma SettlesCleanly(w: World, now: nat, id: Uuid, i: nat, u: User)
    requires id in w.approvals && i < |w.approvals[id].stages|
    ensures CountAndSettle(w, now, NO_FAULTS, id, i, u).reply.Ok?
  {
  }

  /** The books after one more approval, with the stage and the approval settled as far as it takes them. */
  lemma AcceptedBooks(a: Approval, reviews: map<Uuid, seq<Review>>, now: nat, i: nat, u: User)
    requires Exact(a, reviews) && UniqueIds(a.stages) && a.status == Pending
    requires i < |a.stages| && a.stages[i].status == Pending
    ensures var s := a.stages[i];
            var after := reviews[s.id := ReviewsOf(reviews, s.id) + [Review(u.id, DecidedApprove)]];
            var stages := a.stages[i := Reviewed(s, Approved, u.id, now)];
            var b := if CountApproved(ReviewsOf(after, s.id)) < Effective(s.minApprovers) then a
                     else a.(stages := stages, status := if AllApproved(stages, s.id) then Approved else Pending);
            Exact(b, after) && Given(b.stages, after) == Given(a.stages, reviews) + 1
  {
    var s := a.stages[i];
    SettleExact(a, reviews, i, u, now);
    ReviewAddsOne(a.stages, reviews, i, u.id);
    ApprovedStageKeepsCounts(a.stages, reviews[s.id := ReviewsOf(reviews, s.id) + [Review(u.id, DecidedApprove)]], i, u, now);
  }

  lemma OtherRowsKept(c: Completers, w: World, act: Action, id: Uuid)
    requires id in w.approvals && (act.id != id || act.SubmitA?)
    ensures var x := Step(c, w, act).world; id in x.approvals && x.approvals[id] == w.approvals[id]
  {
    match act
    case SubmitA(_, _, _, _, _, _) =>
    case CancelA(_, _, _, _) =>
    case ApproveA(d, now, f, other, stageId, u) => ApproveKeepsRow(c, w, d, now, f, other, stageId, u, id);
    case RejectA(d, now, f, other, stageId, u, comment) => RejectKeepsRow(c, w, d, now, f, other, stageId, u, comment, id);
  }

  lemma TailsKeepRow(w: World, now: nat, f: Faults, other: Uuid, i: nat, u: User, comment: string, id: Uuid)
    requires id in w.approvals && other in w.approvals && other != id && i < |w.approvals[other].stages|
    ensures var x := CountAndSettle(w, now, f, other, i, u).world; id in x.approvals && x.approvals[id] == w.approvals[id]
    ensures var x := RejectAndClose(w, now, f, other, i, u, comment).world;
            id in x.approvals && x.approvals[id] == w.approvals[id]
  {
  }

  lemma ApproveKeepsRow(c: Completers, w: World, d: Directory, now: nat, f: Faults, other: Uuid, stageId: Uuid, u: User,
                        id: Uuid)
    requires id in w.approvals && other != id
    ensures var x := ApproveStage(c, w, d, now, f, other, stageId, u).world;
            id in x.approvals && x.approvals[id] == w.approvals[id]
  {
    if ApproveStage(c, w, d, now, f, other, stageId, u).world != w {
      TailsKeepRow(AddReview(w, stageId, Review(u.id, DecidedApprove)), now, f, other,
                   Authorize(d, w.approvals[other], stageId, u).value, u, "", id);
    }
  }

  lemma RejectKeepsRow(c: Completers, w: World, d: Directory, now: nat, f: Faults, other: Uuid, stageId: Uuid, u: User,
                       comment: string, id: Uuid)
    requires id in w.approvals && other != id
    ensures var x := RejectStage(c, w, d, now, f, other, stageId, u, comment).world;
            id in x.approvals && x.approvals[id] == w.approvals[id]
  {
  }

  /** A call about one approval leaves every other approval and its reviews alone. */
  lemma Untouched(c: Completers, w: World, act: Action, id: Uuid)
    requires Inv(w) && id in w.approvals
    requires act.id != id || act.SubmitA?
    ensures var x := Step(c, w, act).world;
            && id in x.approvals && x.approvals[id] == w.approvals[id]
            && forall i :: 0 <= i < |w.approvals[id].stages| ==>
                 ReviewsOf(x.reviews, w.approvals[id].stages[i].id) == ReviewsOf(w.reviews, w.approvals[id].stages[i].id)
  {
    OtherRowsKept(c, w, act, id);
    var stages := w.approvals[id].stages;
    forall i | 0 <= i < |stages|
      ensures ReviewsOf(Step(c, w, act).world.reviews, stages[i].id) == ReviewsOf(w.reviews, stages[i].id)
    {
      StageUntouched(c, w, act, id, i);
    }
  }

  lemma StageUntouched(c: Completers, w: World, act: Action, id: Uuid, i: nat)
    requires Inv(w) && id in w.approvals && i < |w.approvals[id].stages|
    requires act.id != id || act.SubmitA?
    ensures ReviewsOf(Step(c, w, act).world.reviews, w.approvals[id].stages[i].id)
            == ReviewsOf(w.reviews, w.approvals[id].stages[i].id)
  {
    var stageId := w.approvals[id].stages[i].id;
    if ReviewsOf(Step(c, w, act).world.reviews, stageId) != ReviewsOf(w.reviews, stageId) {
      WhoReviews(c, w, act, stageId);
      OneOwner(w, id, act.id, i, Authorize(act.dir, w.approvals[act.id], act.stageId, act.user).value);
    }
  }

  // ---- Whole runs without failures

  /** The call is about another approval, changes nothing, or is a submission or a failure-free ApproveStage. */
  ghost predicate Harmless(c: Completers, w: World, act: Action, id: Uuid) {
    || act.id != id
    || act.SubmitA?
    || (act.ApproveA? && act.faults == NO_FAULTS)
    || Step(c, w, act).world == w
  }

  /** No call of the run that changes this approval fails, rejects it or cancels it. Calls about others are free. */
  ghost predicate Clean(c: Completers, w: World, acts: seq<Action>, id: Uuid)
    decreases |acts|
  {
    acts == [] || (Harmless(c, w, acts[0], id) && Clean(c, Step(c, w, acts[0]).world, acts[1..], id))
  }

  /** How many ApproveStage calls about this approval succeeded. */
  function Accepted(c: Completers, w: World, acts: seq<Action>, id: Uuid): nat
    decreases |acts|
  {
    if acts == [] then 0
    else
      var o := Step(c, w, acts[0]);
      (if acts[0].ApproveA? && acts[0].id == id && o.reply.Ok? then 1 else 0) + Accepted(c, o.world, acts[1..], id)
  }

  /** An accepted approval changes the review store. */
  lemma AcceptedChanges(c: Completers, w: World, d: Directory, now: nat, f: Faults, id: Uuid, stageId: Uuid, u: User)
    requires ApproveStage(c, w, d, now, f, id, stageId, u).reply.Ok?
    ensures ApproveStage(c, w, d, now, f, id, stageId, u).world != w
  {
    ApproveWrites(c, w, d, now, f, id, stageId, u);
    var rs := ReviewsOf(w.reviews, stageId);
    assert ReviewsOf(ApproveStage(c, w, d, now, f, id, stageId, u).world.reviews, stageId)
        == rs + [Review(u.id, DecidedApprove)] != rs;
  }

  lemma CleanStep(c: Completers, w: World, act: Action, id: Uuid)
    requires Inv(w) && id in w.approvals && Exact(w.approvals[id], w.reviews)
    requires Harmless(c, w, act, id)
    ensures var o := Step(c, w, act);
            && Inv(o.world) && id in o.world.approvals
            && Exact(o.world.approvals[id], o.world.reviews)
            && Given(o.world.approvals[id].stages, o.world.reviews)
               == Given(w.approvals[id].stages, w.reviews)
                  + if act.ApproveA? && act.id == id && o.reply.Ok? then 1 else 0
  {
    StepSafe(c, w, act);
    CleanStepCounts(c, w, act, id);
  }

  lemma CleanStepCounts(c: Completers, w: World, act: Action, id: Uuid)
    requires Inv(w) && id in w.approvals && Exact(w.approvals[id], w.reviews)
    requires Harmless(c, w, act, id)
    ensures var o := Step(c, w, act);
            && id in o.world.approvals
            && Exact(o.world.approvals[id], o.world.reviews)
            && Given(o.world.approvals[id].stages, o.world.reviews)
               == Given(w.approvals[id].stages, w.reviews)
                  + if act.ApproveA? && act.id == id && o.reply.Ok? then 1 else 0
  {
    var a := w.approvals[id];
    if act.id == id && !act.SubmitA? && Step(c, w, act).world == w {
      if act.ApproveA? && Step(c, w, act).reply.Ok? {
        AcceptedChanges(c, w, act.dir, act.now, act.faults, id, act.stageId, act.user);
      }
    } else if act.id == id && act.ApproveA? {
      assert UniqueIds(a.stages) by { assert Sound(a, w.reviews, CallsOf(w, id)); }
      CleanApprove(c, w, act.dir, act.now, id, act.stageId, act.user);
    } else {
      Untouched(c, w, act, id);
      SameBooks(a, w.reviews, Step(c, w, act).world.reviews);
    }
  }

  lemma SameBooks(a: Approval, reviews: map<Uuid, seq<Review>>, after: map<Uuid, seq<Review>>)
    requires forall i :: 0 <= i < |a.stages| ==> ReviewsOf(after, a.stages[i].id) == ReviewsOf(reviews, a.stages[i].id)
    ensures Given(a.stages, after) == Given(a.stages, reviews)
    ensures Exact(a, reviews) ==> Exact(a, after)
  {
    assert Counts(a.stages, after) == Counts(a.stages, reviews);
    if Exact(a, reviews) {
      forall i | 0 <= i < |a.stages| ensures StageExact(a.stages[i], ReviewsOf(after, a.stages[i].id)) {
        assert StageExact(a.stages[i], ReviewsOf(reviews, a.stages[i].id));
      }
    }
  }

  lemma {:induction false} CleanRun(c: Completers, w: World, acts: seq<Action>, id: Uuid)
    requires Inv(w) && id in w.approvals && Exact(w.approvals[id], w.reviews) && Clean(c, w, acts, id)
    ensures var x := Run(c, w, acts);
            && id in x.approvals
            && Exact(x.approvals[id], x.reviews)
            && Given(x.approvals[id].stages, x.reviews)
               == Given(w.approvals[id].stages, w.reviews) + Accepted(c, w, acts, id)
    decreases |acts|
  {
    if acts != [] {
      CleanStep(c, w, acts[0], id);
      CleanRun(c, Step(c, w, acts[0]).world, acts[1..], id);
    }
  }

  /** A submission starts with exact books and nothing given. */
  lemma SubmittedIsExact(w: World, d: Directory, p: Policies, f: Faults, id: Uuid, mint: nat -> Uuid, spec: Spec)
    requires Inv(w) && Submit(w, d, p, f, id, mint, spec).reply.Ok?
    ensures var o := Submit(w, d, p, f, id, mint, spec);
            && id in o.world.approvals && o.world.approvals[id] == o.reply.value
            && Inv(o.world)
            && Exact(o.reply.value, o.world.reviews)
            && o.reply.value.status == Pending
            && Given(o.reply.value.stages, o.world.reviews) == 0
  {
    SubmitSafe(w, d, p, f, id, mint, spec);
    Planning.PlannedStagesAreFresh(d, p, spec);
    FreshIsExact(Planning.Plan(d, p, spec).value, mint, spec, w.reviews);
  }

  lemma FreshIsExact(planned: seq<Stage>, mint: nat -> Uuid, spec: Spec, reviews: map<Uuid, seq<Review>>)
    requires planned != [] && forall s :: s in planned ==> Planning.FreshStage(s)
    requires forall i :: 0 <= i < |planned| ==> ReviewsOf(reviews, WithIds(planned, mint)[i].id) == []
    ensures Exact(Approval(spec, Pending, WithIds(planned, mint)), reviews)
    ensures Given(WithIds(planned, mint), reviews) == 0
  {
    var stages := WithIds(planned, mint);
    forall i | 0 <= i < |stages|
      ensures stages[i].status == Pending && CountApproved(ReviewsOf(reviews, stages[i].id)) == 0
    {
      assert planned[i] in planned;
    }
    AllZero(Counts(stages, reviews));
    assert stages[0].status != Approved;
  }

  lemma {:induction false} AllZero(xs: seq<nat>)
    requires forall i :: 0 <= i < |xs| ==> xs[i] == 0
    ensures Sum(xs) == 0
  {
    if xs != [] { AllZero(xs[1..]); }
  }

  /** After a submission, and as long as nothing fails, rejects or cancels it, the approval becomes Approved on exactly
      the call that brings the accepted approvals to the sum of the quotas, and is Pending before. */
  lemma ApprovedExactlyAtQuota(c: Completers, before: seq<Action>, submit: Action, after: seq<Action>)
    requires submit.SubmitA? && Step(c, Run(c, EMPTY, before), submit).reply.Ok?
    requires Clean(c, Step(c, Run(c, EMPTY, before), submit).world, after, submit.id)
    ensures var o := Step(c, Run(c, EMPTY, before), submit);
            var x := Run(c, o.world, after);
            var accepted := Accepted(c, o.world, after, submit.id);
            && submit.id in x.approvals
            && accepted <= Required(o.reply.value.stages)
            && x.approvals[submit.id].status ==
               if accepted == Required(o.reply.value.stages) then Approved else Pending
  {
    var w := Run(c, EMPTY, before);
    RunSafe(c, EMPTY, before);
    SubmittedIsExact(w, submit.dir, submit.policies, submit.faults, submit.id, submit.mint, submit.spec);
    var o := Step(c, w, submit);
    CleanRun(c, o.world, after, submit.id);
    RunAt(c, o.world, after, submit.id);
    var x := Run(c, o.world, after);
    ExactStatus(x.approvals[submit.id], x.reviews);
    RequiredKept(o.reply.value, x.approvals[submit.id]);
  }

  // ---- Progress

  /** Some pending stage has every lower-order stage approved. */
  ghost predicate Open(stages: seq<Stage>) {
    exists i :: 0 <= i < |stages| && stages[i].status == Pending && LowerApproved(stages, stages[i].order)
  }

  /** Among the stages not yet approved there is one of lowest order. */
  lemma {:induction false} LowestOpen(stages: seq<Stage>, n: nat) returns (i: nat)
    requires n <= |stages| && exists k :: 0 <= k < n && stages[k].status != Approved
    ensures i < n && stages[i].status != Approved
    ensures forall k :: 0 <= k < n && stages[k].status != Approved ==> stages[i].order <= stages[k].order
  {
    if exists k :: 0 <= k < n - 1 && stages[k].status != Approved {
      i := LowestOpen(stages, n - 1);
      if stages[n - 1].status != Approved && stages[n - 1].order < stages[i].order {
        i := n - 1;
      }
    } else {
      i := n - 1;
    }
  }

  /** An approval is stuck exactly when every lowest-order stage that is not approved is rejected,
      which includes the case that there is none left. */
  lemma OpenIff(a: Approval, reviews: map<Uuid, seq<Review>>, calls: seq<Callback>)
    requires Sound(a, reviews, calls)
    ensures Open(a.stages) <==>
            exists i :: 0 <= i < |a.stages| && a.stages[i].status == Pending
                        && forall k :: 0 <= k < |a.stages| && a.stages[k].status == Rejected ==>
                             a.stages[i].order <= a.stages[k].order
  {
    forall k | 0 <= k < |a.stages| ensures a.stages[k].status != Cancelled {
      assert StageSound(a.stages[k], ReviewsOf(reviews, a.stages[k].id));
    }
    if i :| 0 <= i < |a.stages| && a.stages[i].status == Pending
            && forall k :: 0 <= k < |a.stages| && a.stages[k].status == Rejected ==> a.stages[i].order <= a.stages[k].order
    {
      var low := LowestOpen(a.stages, |a.stages|);
      if a.stages[low].status == Pending {
        assert LowerApproved(a.stages, a.stages[low].order);
      } else {
        assert LowerApproved(a.stages, a.stages[i].order);
      }
    }
  }

  /** Without failures, rejection or cancellation a pending approval can always move on. */
  lemma ExactIsOpen(a: Approval, reviews: map<Uuid, seq<Review>>)
    requires Exact(a, reviews) && a.status == Pending
    ensures Open(a.stages)
  {
    var i := LowestOpen(a.stages, |a.stages|);
    assert StageExact(a.stages[i], ReviewsOf(reviews, a.stages[i].id));
    assert LowerApproved(a.stages, a.stages[i].order);
  }

  /** An instance owner other than the submitter may review any stage that is pending and next. */
  lemma OwnerAuthorized(d: Directory, a: Approval, i: nat, u: User)
    requires UniqueIds(a.stages) && i < |a.stages|
    requires a.stages[i].status == Pending && LowerApproved(a.stages, a.stages[i].order)
    requires u.role == Owner && u.id != a.spec.submittedBy
    ensures Authorize(d, a, a.stages[i].id, u) == Ok(i)
  {
  }

  lemma OwnerAccepted(c: Completers, w: World, d: Directory, now: nat, id: Uuid, i: nat, u: User)
    requires Inv(w) && id in w.approvals && i < |w.approvals[id].stages|
    requires var a := w.approvals[id];
             && a.status == Pending && a.spec.entityType in c
             && a.stages[i].status == Pending && LowerApproved(a.stages, a.stages[i].order)
             && u.role == Owner && u.id != a.spec.submittedBy
             && !HasReviewed(ReviewsOf(w.reviews, a.stages[i].id), u.id)
    ensures ApproveStage(c, w, d, now, NO_FAULTS, id, w.approvals[id].stages[i].id, u).reply.Ok?
  {
    assert Sound(w.approvals[id], w.reviews, CallsOf(w, id));
    OwnerAuthorized(d, w.approvals[id], i, u);
  }

  /** When an approval is not open, no review of it by anyone changes anything. */
  lemma NotOpenRefused(c: Completers, w: World, act: Action)
    requires act.id in w.approvals && !Open(w.approvals[act.id].stages)
    requires act.ApproveA? || act.RejectA?
    ensures Step(c, w, act).world == w && Step(c, w, act).reply.Err?
  {
  }

  /** In any reachable state an owner who is neither the submitter nor a reviewer of any of its stages can advance a
      pending approval with a completer exactly when it is open. */
  lemma AdvanceIffOpen(c: Completers, w: World, d: Directory, now: nat, id: Uuid, u: User)
    requires Inv(w) && id in w.approvals && w.approvals[id].status == Pending && w.approvals[id].spec.entityType in c
    requires u.role == Owner && u.id != w.approvals[id].spec.submittedBy
    requires forall i :: 0 <= i < |w.approvals[id].stages| ==>
               !HasReviewed(ReviewsOf(w.reviews, w.approvals[id].stages[i].id), u.id)
    ensures Open(w.approvals[id].stages) <==>
            exists stageId :: ApproveStage(c, w, d, now, NO_FAULTS, id, stageId, u).reply.Ok?
  {
    var a := w.approvals[id];
    if Open(a.stages) {
      var i :| 0 <= i < |a.stages| && a.stages[i].status == Pending && LowerApproved(a.stages, a.stages[i].order);
      OwnerAccepted(c, w, d, now, id, i, u);
    } else {
      forall stageId ensures ApproveStage(c, w, d, now, NO_FAULTS, id, stageId, u).reply.Err? {
        NotOpenRefused(c, w, ApproveA(d, now, NO_FAULTS, id, stageId, u));
      }
    }
  }

  /** And any owner who is not the submitter can reject it exactly when it is open. */
  lemma RejectableIffOpen(c: Completers, w: World, d: Directory, now: nat, id: Uuid, u: User, comment: string)
    requires Inv(w) && id in w.approvals && w.approvals[id].status == Pending && w.approvals[id].spec.entityType in c
    requires u.role == Owner && u.id != w.approvals[id].spec.submittedBy && comment != ""
    ensures Open(w.approvals[id].stages) <==>
            exists stageId :: RejectStage(c, w, d, now, NO_FAULTS, id, stageId, u, comment).reply.Ok?
  {
    var a := w.approvals[id];
    if Open(a.stages) {
      var i :| 0 <= i < |a.stages| && a.stages[i].status == Pending && LowerApproved(a.stages, a.stages[i].order);
      assert Sound(a, w.reviews, CallsOf(w, id));
      OwnerAuthorized(d, a, i, u);
      assert RejectStage(c, w, d, now, NO_FAULTS, id, a.stages[i].id, u, comment).reply.Ok?;
    } else {
      forall stageId ensures RejectStage(c, w, d, now, NO_FAULTS, id, stageId, u, comment).reply.Err? {
        NotOpenRefused(c, w, RejectA(d, now, NO_FAULTS, id, stageId, u, comment));
      }
    }
  }

  /** A pending approval that is not open never changes again unless it is cancelled. */
  lemma {:induction false} StuckForGood(c: Completers, w: World, acts: seq<Action>, id: Uuid)
    requires Inv(w) && id in w.approvals && w.approvals[id].status == Pending && !Open(w.approvals[id].stages)
    requires forall k :: 0 <= k < |acts| ==> !(acts[k].CancelA? && acts[k].id == id)
    ensures var x := Run(c, w, acts); id in x.approvals && x.approvals[id] == w.approvals[id]
    decreases |acts|
  {
    if acts != [] {
      var act := acts[0];
      var x := Step(c, w, act).world;
      StepSafe(c, w, act);
      if act.id == id && !act.SubmitA? {
        NotOpenRefused(c, w, act);
      } else {
        Untouched(c, w, act, id);
      }
      assert forall k :: 0 <= k < |acts[1..]| ==> acts[1..][k] == acts[k + 1];
      StuckForGood(c, x, acts[1..], id);
    }
  }

  lemma RunCons(c: Completers, w: World, act: Action, rest: seq<Action>)
    ensures Run(c, w, [act] + rest) == Run(c, Step(c, w, act).world, rest)
  {
  }

  // ---- How many owners it takes

  /** The members of the pool who have not reviewed the stage. */
  function Free(reviews: map<Uuid, seq<Review>>, stageId: Uuid, pool: set<Uuid>): set<Uuid> {
    set u | u in pool && !HasReviewed(ReviewsOf(reviews, stageId), u)
  }

  /** The approvals a stage has, and those the pool can still give it. */
  function Potential(s: Stage, reviews: map<Uuid, seq<Review>>, pool: set<Uuid>): nat {
    CountApproved(ReviewsOf(reviews, s.id)) + |Free(reviews, s.id, pool)|
  }

  ghost predicate Suffices(stages: seq<Stage>, reviews: map<Uuid, seq<Review>>, pool: set<Uuid>) {
    forall i :: 0 <= i < |stages| ==> Effective(stages[i].minApprovers) <= Potential(stages[i], reviews, pool)
  }

  /** A clean approval with a completer, and a pool of owners without its submitter. */
  ghost predicate Staffed(c: Completers, w: World, id: Uuid, pool: set<Uuid>) {
    && Inv(w) && id in w.approvals && Exact(w.approvals[id], w.reviews)
    && w.approvals[id].spec.entityType in c && w.approvals[id].spec.submittedBy !in pool
  }

  /** A failure-free approval of one of its stages by an owner of the pool. */
  ghost predicate PoolCall(act: Action, id: Uuid, pool: set<Uuid>) {
    act.ApproveA? && act.id == id && act.faults == NO_FAULTS && act.user.role == Owner && act.user.id in pool
  }

  ghost predicate ByPool(acts: seq<Action>, id: Uuid, pool: set<Uuid>) {
    forall k :: 0 <= k < |acts| ==> PoolCall(acts[k], id, pool)
  }

  lemma FreeAfterReview(reviews: map<Uuid, seq<Review>>, s: Stage, u: Uuid, pool: set<Uuid>)
    requires u in pool && !HasReviewed(ReviewsOf(reviews, s.id), u)
    ensures var after := reviews[s.id := ReviewsOf(reviews, s.id) + [Review(u, DecidedApprove)]];
            Potential(s, after, pool) == Potential(s, reviews, pool)
  {
    var rs := ReviewsOf(reviews, s.id);
    var r := Review(u, DecidedApprove);
    var after := reviews[s.id := rs + [r]];
    CountAppend(rs, r);
    forall v ensures HasReviewed(rs + [r], v) <==> HasReviewed(rs, v) || v == u {
      assert (rs + [r])[|rs|] == r;
      if HasReviewed(rs, v) {
        var j :| 0 <= j < |rs| && rs[j].reviewer == v;
        assert (rs + [r])[j].reviewer == v;
      }
    }
    assert Free(after, s.id, pool) == Free(reviews, s.id, pool) - {u};
  }

  /** What a pool gives a stage in approvals it loses in free members. */
  lemma PotentialKept(c: Completers, w: World, act: Action, id: Uuid, pool: set<Uuid>, i: nat)
    requires Inv(w) && id in w.approvals && PoolCall(act, id, pool) && i < |w.approvals[id].stages|
    ensures Potential(w.approvals[id].stages[i], Step(c, w, act).world.reviews, pool)
            == Potential(w.approvals[id].stages[i], w.reviews, pool)
  {
    if Step(c, w, act).world != w {
      ApproveWrites(c, w, act.dir, act.now, act.faults, id, act.stageId, act.user);
      ReviewKeepsPotential(w.reviews, w.approvals[id].stages[i], act.stageId, act.user.id, pool);
    }
  }

  lemma ReviewKeepsPotential(reviews: map<Uuid, seq<Review>>, s: Stage, stageId: Uuid, u: Uuid, pool: set<Uuid>)
    requires u in pool && !HasReviewed(ReviewsOf(reviews, stageId), u)
    ensures var after := reviews[stageId := ReviewsOf(reviews, stageId) + [Review(u, DecidedApprove)]];
            Potential(s, after, pool) == Potential(s, reviews, pool)
  {
    var after := reviews[stageId := ReviewsOf(reviews, stageId) + [Review(u, DecidedApprove)]];
    if s.id == stageId {
      FreeAfterReview(reviews, s, u, pool);
    } else {
      assert Free(after, s.id, pool) == Free(reviews, s.id, pool);
    }
  }

  lemma SufficesKept(c: Completers, w: World, act: Action, id: Uuid, pool: set<Uuid>)
    requires Inv(w) && id in w.approvals && PoolCall(act, id, pool)
    ensures var x := Step(c, w, act).world;
            id in x.approvals
            && (Suffices(x.approvals[id].stages, x.reviews, pool) <==> Suffices(w.approvals[id].stages, w.reviews, pool))
  {
    StepAt(c, w, act, id);
    var x := Step(c, w, act).world;
    forall i | 0 <= i < |w.approvals[id].stages|
      ensures Potential(w.approvals[id].stages[i], x.reviews, pool) == Potential(w.approvals[id].stages[i], w.reviews, pool)
    {
      PotentialKept(c, w, act, id, pool, i);
    }
    SameSuffices(w.approvals[id], x.approvals[id], w.reviews, x.reviews, pool);
  }

  lemma SameSuffices(a: Approval, b: Approval, before: map<Uuid, seq<Review>>, after: map<Uuid, seq<Review>>, pool: set<Uuid>)
    requires ApprovalEvolves(a, b)
    requires forall i :: 0 <= i < |a.stages| ==> Potential(a.stages[i], after, pool) == Potential(a.stages[i], before, pool)
    ensures Suffices(b.stages, after, pool) <==> Suffices(a.stages, before, pool)
  {
    forall i | 0 <= i < |a.stages|
      ensures Potential(b.stages[i], after, pool) == Potential(a.stages[i], before, pool)
      ensures b.stages[i].minApprovers == a.stages[i].minApprovers
    {
      assert StageEvolves(a.stages[i], b.stages[i]);
    }
  }

  lemma SpecAndQuotaKept(c: Completers, w: World, act: Action, id: Uuid)
    requires Inv(w) && id in w.approvals
    ensures var x := Step(c, w, act).world;
            && id in x.approvals && x.approvals[id].spec == w.approvals[id].spec
            && Required(x.approvals[id].stages) == Required(w.approvals[id].stages)
  {
    StepAt(c, w, act, id);
    RequiredKept(w.approvals[id], Step(c, w, act).world.approvals[id]);
  }

  lemma PoolStep(c: Completers, w: World, act: Action, id: Uuid, pool: set<Uuid>)
    requires Staffed(c, w, id, pool) && PoolCall(act, id, pool)
    ensures var x := Step(c, w, act).world;
            && Staffed(c, x, id, pool)
            && (Suffices(x.approvals[id].stages, x.reviews, pool) <==> Suffices(w.approvals[id].stages, w.reviews, pool))
            && Required(x.approvals[id].stages) == Required(w.approvals[id].stages)
            && Given(x.approvals[id].stages, x.reviews)
               == Given(w.approvals[id].stages, w.reviews) + if Step(c, w, act).reply.Ok? then 1 else 0
  {
    CleanStep(c, w, act, id);
    SpecAndQuotaKept(c, w, act, id);
    SufficesKept(c, w, act, id, pool);
  }

  /** The next call of a pool that suffices: some open stage has a free member. */
  lemma NextCall(c: Completers, w: World, d: Directory, now: nat, id: Uuid, pool: set<Uuid>) returns (act: Action)
    requires Staffed(c, w, id, pool) && Suffices(w.approvals[id].stages, w.reviews, pool)
    requires w.approvals[id].status == Pending
    ensures PoolCall(act, id, pool) && Step(c, w, act).reply.Ok?
  {
    var a := w.approvals[id];
    ExactIsOpen(a, w.reviews);
    var i :| 0 <= i < |a.stages| && a.stages[i].status == Pending && LowerApproved(a.stages, a.stages[i].order);
    assert StageExact(a.stages[i], ReviewsOf(w.reviews, a.stages[i].id));
    assert |Free(w.reviews, a.stages[i].id, pool)| > 0;
    var u :| u in Free(w.reviews, a.stages[i].id, pool);
    act := ApproveA(d, now, NO_FAULTS, id, a.stages[i].id, User(u, Owner));
    OwnerAccepted(c, w, d, now, id, i, User(u, Owner));
  }

  ghost function Missing(w: World, id: Uuid): int
    requires id in w.approvals
  {
    Required(w.approvals[id].stages) - Given(w.approvals[id].stages, w.reviews)
  }

  ghost predicate Finished(w: World, id: Uuid) {
    id in w.approvals && w.approvals[id].status == Approved
  }

  lemma FinishedIff(w: World, id: Uuid)
    requires id in w.approvals && Exact(w.approvals[id], w.reviews)
    ensures Missing(w, id) >= 0
    ensures Finished(w, id) <==> Missing(w, id) == 0
    ensures !Finished(w, id) ==> w.approvals[id].status == Pending
  {
    ExactStatus(w.approvals[id], w.reviews);
  }

  /** Its effect: one approval fewer missing, and the pool still suffices. */
  lemma NextStep(c: Completers, w: World, d: Directory, now: nat, id: Uuid, pool: set<Uuid>) returns (act: Action)
    requires Staffed(c, w, id, pool) && Suffices(w.approvals[id].stages, w.reviews, pool)
    requires w.approvals[id].status == Pending
    ensures PoolCall(act, id, pool)
    ensures var x := Step(c, w, act).world;
            Staffed(c, x, id, pool) && Suffices(x.approvals[id].stages, x.reviews, pool) && Missing(x, id) == Missing(w, id) - 1
  {
    act := NextCall(c, w, d, now, id, pool);
    PoolStep(c, w, act, id, pool);
  }

  lemma FinishesAfter(c: Completers, w: World, act: Action, rest: seq<Action>, id: Uuid, pool: set<Uuid>)
    requires PoolCall(act, id, pool) && ByPool(rest, id, pool) && Finished(Run(c, Step(c, w, act).world, rest), id)
    ensures ByPool([act] + rest, id, pool) && Finished(Run(c, w, [act] + rest), id)
  {
    RunCons(c, w, act, rest);
  }

  /** A pool that suffices finishes the approval, with one accepted call for each approval missing. */
  lemma {:induction false} OwnersFinish(
    c: Completers, w: World, d: Directory, now: nat, id: Uuid, pool: set<Uuid>) returns (acts: seq<Action>)
    requires Staffed(c, w, id, pool) && Suffices(w.approvals[id].stages, w.reviews, pool)
    ensures ByPool(acts, id, pool) && |acts| == Missing(w, id) && Finished(Run(c, w, acts), id)
    decreases Missing(w, id)
  {
    FinishedIff(w, id);
    if Finished(w, id) {
      acts := [];
    } else {
      var act := NextStep(c, w, d, now, id, pool);
      var rest := OwnersFinish(c, Step(c, w, act).world, d, now, id, pool);
      acts := [act] + rest;
      FinishesAfter(c, w, act, rest, id, pool);
    }
  }

  lemma CompleteSuffices(a: Approval, reviews: map<Uuid, seq<Review>>, pool: set<Uuid>)
    requires Exact(a, reviews) && a.status == Approved
    ensures Suffices(a.stages, reviews, pool)
  {
    forall i | 0 <= i < |a.stages| ensures Effective(a.stages[i].minApprovers) <= Potential(a.stages[i], reviews, pool) {
      assert StageExact(a.stages[i], ReviewsOf(reviews, a.stages[i].id));
    }
  }

  lemma {:induction false} FinishedPoolSufficed(c: Completers, w: World, acts: seq<Action>, id: Uuid, pool: set<Uuid>)
    requires Staffed(c, w, id, pool) && ByPool(acts, id, pool) && Finished(Run(c, w, acts), id)
    ensures Suffices(w.approvals[id].stages, w.reviews, pool)
    decreases |acts|
  {
    if acts == [] {
      CompleteSuffices(w.approvals[id], w.reviews, pool);
    } else {
      assert PoolCall(acts[0], id, pool);
      assert ByPool(acts[1..], id, pool) by {
        assert forall k :: 0 <= k < |acts[1..]| ==> acts[1..][k] == acts[k + 1];
      }
      PoolStep(c, w, acts[0], id, pool);
      FinishedPoolSufficed(c, Step(c, w, acts[0]).world, acts[1..], id, pool);
    }
  }

  /** Owners from a pool can finish a clean approval on their own exactly when each stage has as many approvals and free
      members of the pool together as its quota asks. */
  lemma PoolFinishesIff(c: Completers, w: World, d: Directory, now: nat, id: Uuid, pool: set<Uuid>)
    requires Staffed(c, w, id, pool)
    ensures Suffices(w.approvals[id].stages, w.reviews, pool) <==>
            exists acts :: ByPool(acts, id, pool) && Finished(Run(c, w, acts), id)
  {
    if Suffices(w.approvals[id].stages, w.reviews, pool) {
      var acts := OwnersFinish(c, w, d, now, id, pool);
    }
    if acts :| ByPool(acts, id, pool) && Finished(Run(c, w, acts), id) {
      FinishedPoolSufficed(c, w, acts, id, pool);
    }
  }

  /** So a pool that has reviewed nothing yet and is as large as the largest quota suffices. */
  lemma LargestQuotaSuffices(stages: seq<Stage>, reviews: map<Uuid, seq<Review>>, pool: set<Uuid>)
    requires forall i :: 0 <= i < |stages| ==> Effective(stages[i].minApprovers) <= |pool|
    requires forall i, u :: 0 <= i < |stages| && u in pool ==> !HasReviewed(ReviewsOf(reviews, stages[i].id), u)
    ensures Suffices(stages, reviews, pool)
  {
    forall i | 0 <= i < |stages| ensures Free(reviews, stages[i].id, pool) == pool {}
  }
}
