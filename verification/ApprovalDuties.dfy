/** Who may approve what, from the policy to the recorded review, and why the order of the stage list does not matter. */
module ApprovalDuties {
  import opened Basics
  import opened ApprovalModel
  import opened Traversal
  import opened ApprovalSafety
  import Planning

  // ---- Separation of duties

  /** The user's answer to a stage that requires a team: an owner, a project admin, or a member of the team. */
  ghost predicate Qualified(d: Directory, project: Uuid, team: Uuid, u: User) {
    Privileged(d, project, u) || d.isMember(team, u.id) == Answer(true)
  }

  /** The call is an approval of stage stageId of approval id by that reviewer, who is qualified for the stage's team at
      the time of the call. */
  ghost predicate QualifiedCall(act: Action, id: Uuid, stageId: Uuid, reviewer: Uuid, project: Uuid, team: Uuid) {
    && act.ApproveA? && act.id == id && act.stageId == stageId && act.user.id == reviewer
    && Qualified(act.dir, project, team, act.user)
  }

  lemma StepQualified(c: Completers, w: World, act: Action, id: Uuid, j: nat)
    requires Inv(w) && id in w.approvals && j < |w.approvals[id].stages| && w.approvals[id].stages[j].team.Some?
    requires ReviewsOf(Step(c, w, act).world.reviews, w.approvals[id].stages[j].id)
             != ReviewsOf(w.reviews, w.approvals[id].stages[j].id)
    ensures act.ApproveA? || act.RejectA?
    ensures var a := w.approvals[id];
            var s := a.stages[j];
            && ReviewsOf(Step(c, w, act).world.reviews, s.id)
               == ReviewsOf(w.reviews, s.id) + [Review(act.user.id, if act.ApproveA? then DecidedApprove else DecidedReject)]
            && (act.ApproveA? ==> QualifiedCall(act, id, s.id, act.user.id, a.spec.projectId, s.team.value))
  {
    var a := w.approvals[id];
    WhoReviews(c, w, act, a.stages[j].id);
    OneOwner(w, id, act.id, j, Authorize(act.dir, w.approvals[act.id], a.stages[j].id, act.user).value);
    TeamChecked(act.dir, a, j, act.user);
  }

  lemma TeamChecked(d: Directory, a: Approval, j: nat, u: User)
    requires j < |a.stages| && UniqueIds(a.stages) && a.stages[j].team.Some?
    requires Authorize(d, a, a.stages[j].id, u).Ok?
    ensures Qualified(d, a.spec.projectId, a.stages[j].team.value, u)
  {
  }

  /** In every run every approving review it adds to a stage with a team comes from an approval of that stage by a reviewer
      who was, at the time of the call, an owner, a project admin or a member of the team. */
  lemma {:induction false} ApproversQualified(c: Completers, w: World, acts: seq<Action>, id: Uuid, j: nat, m: nat)
    requires Inv(w) && id in w.approvals && j < |w.approvals[id].stages| && w.approvals[id].stages[j].team.Some?
    requires var stageId := w.approvals[id].stages[j].id;
             var rs := ReviewsOf(Run(c, w, acts).reviews, stageId);
             |ReviewsOf(w.reviews, stageId)| <= m < |rs| && rs[m].decision == DecidedApprove
    ensures var a := w.approvals[id];
            var s := a.stages[j];
            var reviewer := ReviewsOf(Run(c, w, acts).reviews, s.id)[m].reviewer;
            exists k :: 0 <= k < |acts| && QualifiedCall(acts[k], id, s.id, reviewer, a.spec.projectId, s.team.value)
    decreases |acts|
  {
    var a := w.approvals[id];
    var s := a.stages[j];
    var x := Step(c, w, acts[0]).world;
    StageKept(c, w, acts[0], id, j);
    if m < |ReviewsOf(x.reviews, s.id)| {
      StepQualified(c, w, acts[0], id, j);
      ReviewStays(c, x, acts[1..], s.id, m);
      assert QualifiedCall(acts[0], id, s.id, acts[0].user.id, a.spec.projectId, s.team.value);
    } else {
      ApproversQualified(c, x, acts[1..], id, j, m);
      var reviewer := ReviewsOf(Run(c, w, acts).reviews, s.id)[m].reviewer;
      var k :| 0 <= k < |acts[1..]| && QualifiedCall(acts[1..][k], id, s.id, reviewer, a.spec.projectId, s.team.value);
      assert acts[k + 1] == acts[1..][k];
    }
  }

  lemma ReviewStays(c: Completers, w: World, acts: seq<Action>, stageId: Uuid, m: nat)
    requires Inv(w) && m < |ReviewsOf(w.reviews, stageId)|
    ensures var rs := ReviewsOf(Run(c, w, acts).reviews, stageId);
            m < |rs| && rs[m] == ReviewsOf(w.reviews, stageId)[m]
  {
    RunSafe(c, w, acts);
    assert ReviewsOf(w.reviews, stageId) <= ReviewsOf(Run(c, w, acts).reviews, stageId);
  }

  lemma StageKept(c: Completers, w: World, act: Action, id: Uuid, j: nat)
    requires Inv(w) && id in w.approvals && j < |w.approvals[id].stages|
    ensures var x := Step(c, w, act).world;
            && Inv(x) && id in x.approvals && j < |x.approvals[id].stages|
            && x.approvals[id].spec == w.approvals[id].spec
            && x.approvals[id].stages[j].id == w.approvals[id].stages[j].id
            && x.approvals[id].stages[j].team == w.approvals[id].stages[j].team
  {
    StepSafe(c, w, act);
    var x := Step(c, w, act).world;
    assert ApprovalEvolves(w.approvals[id], x.approvals[id]);
    assert StageEvolves(w.approvals[id].stages[j], x.approvals[id].stages[j]);
  }

  /** A project team that IsMember puts the user in is among the teams GetUserTeamsInProject lists. */
  ghost predicate MembershipAgrees(d: Directory, project: Uuid, user: Uuid) {
    d.projectTeams(project).Answer? ==>
      forall team :: team in d.projectTeams(project).value && d.isMember(team, user) == Answer(true) ==>
        d.userTeams(project, user).Answer? && team in d.userTeams(project, user).value
  }

  /** In none of their own approvals of approval id is the user an owner or a project admin, nor a member of the team
      unless already one at the submission. */
  ghost predicate StaysOut(acts: seq<Action>, id: Uuid, user: Uuid, submitted: Directory, project: Uuid, team: Uuid) {
    forall k :: 0 <= k < |acts| && acts[k].ApproveA? && acts[k].id == id && acts[k].user.id == user ==>
      && !Privileged(acts[k].dir, project, acts[k].user)
      && (acts[k].dir.isMember(team, user) == Answer(true) ==> submitted.isMember(team, user) == Answer(true))
  }

  /** The submission of an approval whose stage j the policy reserves for another team, and which got such a team. */
  ghost predicate ReservedSubmission(c: Completers, w: World, submit: Action, ts: seq<Template>, j: nat) {
    && submit.SubmitA? && Step(c, w, submit).reply.Ok?
    && Planning.Selects(submit.policies, submit.spec, ts)
    && j < |ts| && ts[j].teamScope == "other_team"
    && |Step(c, w, submit).reply.value.stages| == |ts| && Step(c, w, submit).reply.value.stages[j].team.Some?
  }

  /** A stage the policy reserves for another team is approved, in any run and whatever the lookups answer, only by people
      who are owners, project admins or members of that team when they approve. The submitter is not a member when
      submitting, and so is never among them, even where the project allows self-approval, unless they have become a
      member, an admin or an owner by the time of an approval of their own. */
  lemma SeparationOfDuties(c: Completers, w: World, submit: Action, acts: seq<Action>, ts: seq<Template>, j: nat)
    requires Inv(w) && ReservedSubmission(c, w, submit, ts, j)
    requires MembershipAgrees(submit.dir, submit.spec.projectId, submit.spec.submittedBy)
    ensures var a := Step(c, w, submit).reply.value;
            var s := a.stages[j];
            var rs := ReviewsOf(Run(c, Step(c, w, submit).world, acts).reviews, s.id);
            var project, submitter := submit.spec.projectId, submit.spec.submittedBy;
            && (forall u :: u in Approvers(rs) ==>
                  exists k :: 0 <= k < |acts| && QualifiedCall(acts[k], submit.id, s.id, u, project, s.team.value))
            && submit.dir.isMember(s.team.value, submitter) != Answer(true)
            && (StaysOut(acts, submit.id, submitter, submit.dir, project, s.team.value) ==> submitter !in Approvers(rs))
  {
    var o := Step(c, w, submit);
    var a := o.reply.value;
    SubmitSafe(w, submit.dir, submit.policies, submit.faults, submit.id, submit.mint, submit.spec);
    assert ReviewsOf(o.world.reviews, a.stages[j].id) == [];
    OtherTeamStage(w, submit, ts, j);
    var rs := ReviewsOf(Run(c, o.world, acts).reviews, a.stages[j].id);
    forall u | u in Approvers(rs)
      ensures exists k :: 0 <= k < |acts|
                          && QualifiedCall(acts[k], submit.id, a.stages[j].id, u, a.spec.projectId, a.stages[j].team.value)
    {
      var r :| r in rs && r.decision == DecidedApprove && r.reviewer == u;
      var m :| 0 <= m < |rs| && rs[m] == r;
      ApproversQualified(c, o.world, acts, submit.id, j, m);
    }
  }

  /** The team planned for an other_team stage is a team of the project and none of the submitter's. */
  lemma OtherTeamStage(w: World, submit: Action, ts: seq<Template>, j: nat)
    requires submit.SubmitA?
    requires Planning.Selects(submit.policies, submit.spec, ts)
    requires j < |ts| && ts[j].teamScope == "other_team"
    requires var o := Submit(w, submit.dir, submit.policies, submit.faults, submit.id, submit.mint, submit.spec);
             o.reply.Ok? && |o.reply.value.stages| == |ts| && o.reply.value.stages[j].team.Some?
    ensures var a := Submit(w, submit.dir, submit.policies, submit.faults, submit.id, submit.mint, submit.spec).reply.value;
            var mine := submit.dir.userTeams(submit.spec.projectId, submit.spec.submittedBy);
            var all := submit.dir.projectTeams(submit.spec.projectId);
            && a.spec == submit.spec && mine.Answer? && all.Answer?
            && a.stages[j].team.value in all.value && a.stages[j].team.value !in mine.value
  {
    Planning.PolicyIsObeyed(submit.dir, submit.policies, submit.spec, ts, j);
    var mine := submit.dir.userTeams(submit.spec.projectId, submit.spec.submittedBy);
    var all := submit.dir.projectTeams(submit.spec.projectId);
    Planning.OtherTeamScope(submit.dir, ts[j].order, submit.spec.projectId, submit.spec.submittedBy, mine.value, all.value);
  }

  // ---- The order of the stage slice

  ghost predicate SameStages(ss: seq<Stage>, ts: seq<Stage>) {
    multiset(ss) == multiset(ts)
  }

  lemma SameElements(ss: seq<Stage>, ts: seq<Stage>)
    requires SameStages(ss, ts)
    ensures forall s :: s in ss <==> s in ts
  {
    assert forall s :: s in ss <==> s in multiset(ss);
    assert forall s :: s in ts <==> s in multiset(ts);
  }

  lemma SameVerdicts(ss: seq<Stage>, ts: seq<Stage>, order: int, stageId: Uuid)
    requires SameStages(ss, ts)
    ensures LowerApproved(ss, order) <==> LowerApproved(ts, order)
    ensures AllApproved(ss, stageId) <==> AllApproved(ts, stageId)
  {
    SameElements(ss, ts);
    ByElement(ss, order, stageId);
    ByElement(ts, order, stageId);
  }

  lemma ByElement(ss: seq<Stage>, order: int, stageId: Uuid)
    ensures LowerApproved(ss, order) <==> forall s :: s in ss && s.order < order ==> s.status == Approved
    ensures AllApproved(ss, stageId) <==> forall s :: s in ss ==> s.id == stageId || s.status == Approved
  {
  }

  lemma SameFound(ss: seq<Stage>, ts: seq<Stage>, stageId: Uuid)
    requires SameStages(ss, ts) && UniqueIds(ss)
    ensures FindStage(ss, stageId).Some? <==> FindStage(ts, stageId).Some?
    ensures FindStage(ss, stageId).Some? ==> ss[FindStage(ss, stageId).value] == ts[FindStage(ts, stageId).value]
  {
    SameElements(ss, ts);
    var i, j := FindStage(ss, stageId), FindStage(ts, stageId);
    if i.Some? {
      assert ss[i.value] in ts;
      var k :| 0 <= k < |ts| && ts[k] == ss[i.value];
    }
    if j.Some? {
      assert ts[j.value] in ss;
      var k :| 0 <= k < |ss| && ss[k] == ts[j.value];
    }
  }

  /** The verdict on a reviewer is the same for every order of the stage slice, and is about the same stage. */
  lemma SameAuthorization(d: Directory, a: Approval, b: Approval, stageId: Uuid, u: User)
    requires a.spec == b.spec && SameStages(a.stages, b.stages) && UniqueIds(a.stages)
    ensures var r, q := Authorize(d, a, stageId, u), Authorize(d, b, stageId, u);
            || (r.Err? && q == r)
            || (r.Ok? && q.Ok? && a.stages[r.value] == b.stages[q.value])
  {
    SameFound(a.stages, b.stages, stageId);
    var i := FindStage(a.stages, stageId);
    if i.Some? {
      SameVerdicts(a.stages, b.stages, a.stages[i.value].order, stageId);
    }
  }

  ghost predicate SameApproval(a: Approval, b: Approval) {
    a.spec == b.spec && a.status == b.status && SameStages(a.stages, b.stages)
  }

  /** Two states that differ only in the order of one approval's stages. */
  ghost predicate SameUpToOrder(v: World, w: World, id: Uuid) {
    && v.reviews == w.reviews && v.calls == w.calls
    && id in v.approvals && id in w.approvals
    && SameApproval(v.approvals[id], w.approvals[id])
    && v.approvals == w.approvals[id := v.approvals[id]]
  }

  ghost predicate SameReply(r: Reply, q: Reply) {
    (r.Err? && q == r) || (r.Ok? && q.Ok? && SameApproval(r.value, q.value))
  }

  lemma SameClose(v: World, w: World, f: Faults, id: Uuid, status: Status, call: Callback)
    requires SameUpToOrder(v, w, id)
    ensures var o, p := Close(v, f, id, status, call), Close(w, f, id, status, call);
            SameUpToOrder(o.world, p.world, id) && SameReply(o.reply, p.reply)
  {
  }

  lemma SamePut(v: World, w: World, id: Uuid, i: nat, j: nat, s: Stage)
    requires SameUpToOrder(v, w, id)
    requires i < |v.approvals[id].stages| && j < |w.approvals[id].stages|
    requires v.approvals[id].stages[i] == w.approvals[id].stages[j]
    ensures SameUpToOrder(PutStage(v, id, i, s), PutStage(w, id, j, s), id)
  {
  }

  lemma SameCountAndSettle(v: World, w: World, now: nat, f: Faults, id: Uuid, i: nat, j: nat, u: User)
    requires SameUpToOrder(v, w, id)
    requires i < |v.approvals[id].stages| && j < |w.approvals[id].stages|
    requires v.approvals[id].stages[i] == w.approvals[id].stages[j]
    ensures var o, p := CountAndSettle(v, now, f, id, i, u), CountAndSettle(w, now, f, id, j, u);
            SameUpToOrder(o.world, p.world, id) && SameReply(o.reply, p.reply)
  {
    var s := v.approvals[id].stages[i];
    var s' := Reviewed(s, Approved, u.id, now);
    SamePut(v, w, id, i, j, s');
    var v', w' := PutStage(v, id, i, s'), PutStage(w, id, j, s');
    SameVerdicts(v'.approvals[id].stages, w'.approvals[id].stages, 0, s.id);
    SameClose(v', w', f, id, Approved, OnApproved);
  }

  lemma SameAdmit(c: Completers, v: World, w: World, d: Directory, f: Faults, id: Uuid, stageId: Uuid, u: User)
    requires SameUpToOrder(v, w, id) && UniqueIds(v.approvals[id].stages)
    ensures var r, q := Admit(c, v, d, f, id, stageId, u), Admit(c, w, d, f, id, stageId, u);
            || (r.Err? && q == r)
            || (r.Ok? && q.Ok? && v.approvals[id].stages[r.value] == w.approvals[id].stages[q.value])
  {
    SameReviewable(c, v, w, f, id);
    SameAuthorization(d, v.approvals[id], w.approvals[id], stageId, u);
  }

  lemma SameApprove(c: Completers, v: World, w: World, d: Directory, now: nat, f: Faults, id: Uuid, stageId: Uuid, u: User)
    requires SameUpToOrder(v, w, id) && UniqueIds(v.approvals[id].stages)
    ensures var o, p := ApproveStage(c, v, d, now, f, id, stageId, u), ApproveStage(c, w, d, now, f, id, stageId, u);
            SameUpToOrder(o.world, p.world, id) && SameReply(o.reply, p.reply)
  {
    SameAdmit(c, v, w, d, f, id, stageId, u);
    var r, q := Admit(c, v, d, f, id, stageId, u), Admit(c, w, d, f, id, stageId, u);
    if r.Ok? {
      var review := Review(u.id, DecidedApprove);
      SameAddReview(v, w, id, stageId, review);
      SameCountAndSettle(AddReview(v, stageId, review), AddReview(w, stageId, review), now, f, id, r.value, q.value, u);
    }
  }

  lemma SameAddReview(v: World, w: World, id: Uuid, stageId: Uuid, r: Review)
    requires SameUpToOrder(v, w, id)
    ensures SameUpToOrder(AddReview(v, stageId, r), AddReview(w, stageId, r), id)
  {
  }

  /** A rejection that passes every check is its two writes. */
  lemma RejectUnfolded(c: Completers, w: World, d: Directory, now: nat, f: Faults, id: Uuid, stageId: Uuid, u: User,
                       comment: string)
    ensures var r := Reviewable(c, w, f, id);
            RejectStage(c, w, d, now, f, id, stageId, u, comment) ==
            if comment == "" then Outcome(w, Err(CommentRequired))
            else if r.Err? then Outcome(w, r)
            else if Authorize(d, w.approvals[id], stageId, u).Err? then
              Outcome(w, Err(Authorize(d, w.approvals[id], stageId, u).error))
            else
              RejectAndClose(RecordRejection(w, f, stageId, u), now, f, id,
                             Authorize(d, w.approvals[id], stageId, u).value, u, comment)
  {
  }

  lemma SameReviewable(c: Completers, v: World, w: World, f: Faults, id: Uuid)
    requires SameUpToOrder(v, w, id)
    ensures Reviewable(c, v, f, id).Err? ==> Reviewable(c, w, f, id) == Reviewable(c, v, f, id)
    ensures Reviewable(c, v, f, id).Ok? ==> Reviewable(c, w, f, id).Ok?
  {
  }

  lemma SameReject(c: Completers, v: World, w: World, d: Directory, now: nat, f: Faults, id: Uuid, stageId: Uuid, u: User,
                   comment: string)
    requires SameUpToOrder(v, w, id) && UniqueIds(v.approvals[id].stages)
    ensures var o, p := RejectStage(c, v, d, now, f, id, stageId, u, comment),
                        RejectStage(c, w, d, now, f, id, stageId, u, comment);
            SameUpToOrder(o.world, p.world, id) && SameReply(o.reply, p.reply)
  {
    RejectUnfolded(c, v, d, now, f, id, stageId, u, comment);
    RejectUnfolded(c, w, d, now, f, id, stageId, u, comment);
    SameReviewable(c, v, w, f, id);
    SameAuthorization(d, v.approvals[id], w.approvals[id], stageId, u);
    var r, q := Authorize(d, v.approvals[id], stageId, u), Authorize(d, w.approvals[id], stageId, u);
    if r.Ok? {
      SameRecord(v, w, f, id, stageId, u);
      SameRejectAndClose(RecordRejection(v, f, stageId, u), RecordRejection(w, f, stageId, u),
                         now, f, id, r.value, q.value, u, comment);
    }
  }

  lemma SameRecord(v: World, w: World, f: Faults, id: Uuid, stageId: Uuid, u: User)
    requires SameUpToOrder(v, w, id)
    ensures SameUpToOrder(RecordRejection(v, f, stageId, u), RecordRejection(w, f, stageId, u), id)
  {
  }

  lemma SameRejectAndClose(v: World, w: World, now: nat, f: Faults, id: Uuid, i: nat, j: nat, u: User, comment: string)
    requires SameUpToOrder(v, w, id)
    requires i < |v.approvals[id].stages| && j < |w.approvals[id].stages|
    requires v.approvals[id].stages[i] == w.approvals[id].stages[j]
    ensures var o, p := RejectAndClose(v, now, f, id, i, u, comment), RejectAndClose(w, now, f, id, j, u, comment);
            SameUpToOrder(o.world, p.world, id) && SameReply(o.reply, p.reply)
  {
    var s := Reviewed(v.approvals[id].stages[i], Rejected, u.id, now).(comment := comment);
    SamePut(v, w, id, i, j, s);
    SameClose(PutStage(v, id, i, s), PutStage(w, id, j, s), f, id, Rejected, OnRejected);
  }

  /** Permuting the stage slice changes nothing about a review call: same reply, same writes, same completer calls. */
  lemma SliceOrderIrrelevant(c: Completers, v: World, w: World, act: Action)
    requires SameUpToOrder(v, w, act.id) && UniqueIds(v.approvals[act.id].stages)
    requires act.ApproveA? || act.RejectA?
    ensures var o, p := Step(c, v, act), Step(c, w, act);
            SameUpToOrder(o.world, p.world, act.id) && SameReply(o.reply, p.reply)
  {
    match act
    case ApproveA(d, now, f, id, stageId, u) => SameApprove(c, v, w, d, now, f, id, stageId, u);
    case RejectA(d, now, f, id, stageId, u, comment) => SameReject(c, v, w, d, now, f, id, stageId, u, comment);
  }
}
