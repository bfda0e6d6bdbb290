/** What each engine call does to the two stores and to the completer, as a function of everything it can meet. */
module Traversal {
  import opened Basics
  import opened ApprovalModel
  import Planning

  /** The approval store, the stage review store (by stage), and the completer calls made so far (by approval). */
  datatype World = World(
    approvals: map<Uuid, Approval>,
    reviews: map<Uuid, seq<Review>>,
    calls: map<Uuid, seq<Callback>>)

  const EMPTY := World(map[], map[], map[])

  type Reply = Result<Approval, Error>

  datatype Outcome = Outcome(world: World, reply: Reply)

  function ReviewsOf(reviews: map<Uuid, seq<Review>>, stageId: Uuid): seq<Review> {
    if stageId in reviews then reviews[stageId] else []
  }

  function CallsOf(w: World, id: Uuid): seq<Callback> {
    if id in w.calls then w.calls[id] else []
  }

  // ---- Reading an approval

  function FindFrom(stages: seq<Stage>, id: Uuid, from: nat): (r: Option<nat>)
    requires from <= |stages|
    ensures r.Some? ==> from <= r.value < |stages| && stages[r.value].id == id
                        && forall j :: from <= j < r.value ==> stages[j].id != id
    ensures r.None? ==> forall j :: from <= j < |stages| ==> stages[j].id != id
    decreases |stages| - from
  {
    if from == |stages| then None
    else if stages[from].id == id then Some(from)
    else FindFrom(stages, id, from + 1)
  }

  /** The first stage with the given id. */
  function FindStage(stages: seq<Stage>, id: Uuid): (r: Option<nat>)
    ensures r.Some? ==> r.value < |stages| && stages[r.value].id == id
                        && forall j :: 0 <= j < r.value ==> stages[j].id != id
    ensures r.None? ==> forall j :: 0 <= j < |stages| ==> stages[j].id != id
  {
    FindFrom(stages, id, 0)
  }

  predicate LowerApproved(stages: seq<Stage>, order: int) {
    forall j :: 0 <= j < |stages| && stages[j].order < order ==> stages[j].status == Approved
  }

  predicate AllApproved(stages: seq<Stage>, justApproved: Uuid) {
    forall j :: 0 <= j < |stages| ==> stages[j].id == justApproved || stages[j].status == Approved
  }

  predicate HasReviewed(rs: seq<Review>, user: Uuid) {
    exists j :: 0 <= j < |rs| && rs[j].reviewer == user
  }

  /** CountByStageAndDecision(stage, "approved"). */
  function CountApproved(rs: seq<Review>): nat {
    if rs == [] then 0
    else CountApproved(rs[..|rs| - 1]) + if rs[|rs| - 1].decision == DecidedApprove then 1 else 0
  }

  predicate Privileged(d: Directory, project: Uuid, u: User) {
    u.role == Owner || d.isAdmin(project, u.id) == Answer(true)
  }

  /** Which stage the reviewer may act on, or why not. */
  function Authorize(d: Directory, a: Approval, stageId: Uuid, u: User): (r: Result<nat, Error>)
    ensures r.Ok? ==> r.value < |a.stages| && a.stages[r.value].id == stageId
  {
    match FindStage(a.stages, stageId)
    case None => Err(StageNotFound)
    case Some(i) =>
      var s := a.stages[i];
      if s.status != Pending then Err(StageNotPending)
      else if a.spec.submittedBy == u.id && d.selfApproval(a.spec.projectId) != Answer(true) then Err(SelfReview)
      else if !LowerApproved(a.stages, s.order) then Err(EarlierStagesOpen)
      else if Privileged(d, a.spec.projectId, u) then Ok(i)
      else
        match d.hasPermission(a.spec.projectId, u.id, s.permission)
        case Unavailable => Err(PermissionLookupFailed)
        case Answer(allowed) =>
          if !allowed then Err(PermissionDenied)
          else if s.team == None then Ok(i)
          else
            match d.isMember(s.team.value, u.id)
            case Unavailable => Err(MembershipLookupFailed)
            case Answer(member) => if member then Ok(i) else Err(NotTeamMember)
  }

  // ---- Single store writes

  function AddReview(w: World, stageId: Uuid, r: Review): World {
    w.(reviews := w.reviews[stageId := ReviewsOf(w.reviews, stageId) + [r]])
  }

  /** UpdateStage: overwrite one stage row of a stored approval. */
  function PutStage(w: World, id: Uuid, i: nat, s: Stage): World
    requires id in w.approvals && i < |w.approvals[id].stages|
  {
    var a := w.approvals[id];
    w.(approvals := w.approvals[id := a.(stages := a.stages[i := s])])
  }

  function PutStatus(w: World, id: Uuid, status: Status): World
    requires id in w.approvals
  {
    w.(approvals := w.approvals[id := w.approvals[id].(status := status)])
  }

  function Called(w: World, id: Uuid, call: Callback): World {
    w.(calls := w.calls[id := CallsOf(w, id) + [call]])
  }

  /** The closing re-fetch of every call. */
  function Refetch(w: World, f: Faults, id: Uuid): (o: Outcome)
    ensures o.world == w
  {
    Outcome(w, if f.refetch || id !in w.approvals then Err(StoreFailed) else Ok(w.approvals[id]))
  }

  /** Save the final status, tell the completer, re-fetch. */
  function Close(w: World, f: Faults, id: Uuid, status: Status, call: Callback): (o: Outcome)
    requires id in w.approvals
    ensures o.world.reviews == w.reviews
  {
    if f.save then Outcome(w, Err(StoreFailed))
    else
      var closed := Called(PutStatus(w, id, status), id, call);
      if f.callback then Outcome(closed, Err(CallbackFailed)) else Refetch(closed, f, id)
  }

  // ---- Engine calls

  /** The approval a review call works on: it must be readable, pending and completable. */
  function Reviewable(c: Completers, w: World, f: Faults, id: Uuid): (r: Reply)
    ensures r.Ok? ==> id in w.approvals && r.value == w.approvals[id] && r.value.status == Pending
                      && r.value.spec.entityType in c
  {
    if f.get || id !in w.approvals then Err(StoreFailed)
    else
      var a := w.approvals[id];
      if a.status != Pending then Err(NotPending)
      else if a.spec.entityType !in c then Err(NoCompleter)
      else Ok(a)
  }

  function Reviewed(s: Stage, status: Status, reviewer: Uuid, now: nat): Stage {
    s.(status := status, reviewedBy := Some(reviewer), reviewedAt := Some(now))
  }

  /** Everything ApproveStage does up to recording the review: the stage it is about, or why it stops before. */
  function Admit(c: Completers, w: World, d: Directory, f: Faults, id: Uuid, stageId: Uuid, u: User): Result<nat, Error> {
    match Reviewable(c, w, f, id)
    case Err(e) => Err(e)
    case Ok(a) =>
      match Authorize(d, a, stageId, u)
      case Err(e) => Err(e)
      case Ok(i) =>
        if f.list then Err(StoreFailed)
        else if HasReviewed(ReviewsOf(w.reviews, stageId), u.id) then Err(AlreadyReviewed)
        else if f.record then Err(StoreFailed)
        else Ok(i)
  }

  /** Who is admitted, and what is then known. */
  lemma AdmitIff(c: Completers, w: World, d: Directory, f: Faults, id: Uuid, stageId: Uuid, u: User)
    ensures Admit(c, w, d, f, id, stageId, u).Ok? <==>
              && !f.get && !f.list && !f.record
              && id in w.approvals && w.approvals[id].status == Pending && w.approvals[id].spec.entityType in c
              && Authorize(d, w.approvals[id], stageId, u).Ok?
              && !HasReviewed(ReviewsOf(w.reviews, stageId), u.id)
    ensures Admit(c, w, d, f, id, stageId, u).Ok? ==>
              var a, i := w.approvals[id], Admit(c, w, d, f, id, stageId, u).value;
              && Authorize(d, a, stageId, u) == Ok(i)
              && a.stages[i].id == stageId && a.stages[i].status == Pending && LowerApproved(a.stages, a.stages[i].order)
  {
  }

  function ApproveStage(c: Completers, w: World, d: Directory, now: nat, f: Faults, id: Uuid, stageId: Uuid, u: User)
    : Outcome
  {
    match Admit(c, w, d, f, id, stageId, u)
    case Err(e) => Outcome(w, Err(e))
    case Ok(i) => CountAndSettle(AddReview(w, stageId, Review(u.id, DecidedApprove)), now, f, id, i, u)
  }

  /** The second half of ApproveStage: the review is on record, the stage may now have its quorum. */
  function CountAndSettle(w: World, now: nat, f: Faults, id: Uuid, i: nat, u: User): (o: Outcome)
    requires id in w.approvals && i < |w.approvals[id].stages|
    ensures o.world.reviews == w.reviews
  {
    var s := w.approvals[id].stages[i];
    if f.count then Outcome(w, Err(StoreFailed))
    else if CountApproved(ReviewsOf(w.reviews, s.id)) < Effective(s.minApprovers) then Refetch(w, f, id)
    else if f.saveStage then Outcome(w, Err(StoreFailed))
    else
      var settled := PutStage(w, id, i, Reviewed(s, Approved, u.id, now));
      if AllApproved(settled.approvals[id].stages, s.id) then Close(settled, f, id, Approved, OnApproved)
      else Refetch(settled, f, id)
  }

  function RejectStage(
    c: Completers, w: World, d: Directory, now: nat, f: Faults, id: Uuid, stageId: Uuid, u: User, comment: string)
    : Outcome
  {
    if comment == "" then Outcome(w, Err(CommentRequired))
    else
      match Reviewable(c, w, f, id)
      case Err(e) => Outcome(w, Err(e))
      case Ok(a) =>
        match Authorize(d, a, stageId, u)
        case Err(e) => Outcome(w, Err(e))
        case Ok(i) =>
          RejectAndClose(RecordRejection(w, f, stageId, u), now, f, id, i, u, comment)
  }

  /** The rejecting review is an audit record only: failing to write it does not block the rejection. */
  function RecordRejection(w: World, f: Faults, stageId: Uuid, u: User): (x: World)
    ensures x.approvals == w.approvals && x.calls == w.calls
  {
    if f.record then w else AddReview(w, stageId, Review(u.id, DecidedReject))
  }

  /** The second half of RejectStage: the stage, then the whole approval. */
  function RejectAndClose(w: World, now: nat, f: Faults, id: Uuid, i: nat, u: User, comment: string): (o: Outcome)
    requires id in w.approvals && i < |w.approvals[id].stages|
    ensures o.world.reviews == w.reviews
  {
    if f.saveStage then Outcome(w, Err(StoreFailed))
    else
      var s := Reviewed(w.approvals[id].stages[i], Rejected, u.id, now).(comment := comment);
      Close(PutStage(w, id, i, s), f, id, Rejected, OnRejected)
  }

  predicate MayCancel(c: Completer, d: Directory, a: Approval, u: User) {
    || a.spec.submittedBy == u.id
    || Privileged(d, a.spec.projectId, u)
    || (c.canCancel.Some? && c.canCancel.value(a, u))
  }

  function Cancel(c: Completers, w: World, d: Directory, f: Faults, id: Uuid, u: User): Outcome {
    if f.get || id !in w.approvals then Outcome(w, Err(StoreFailed))
    else
      var a := w.approvals[id];
      if a.status != Pending && a.status != Approved then Outcome(w, Err(NotCancellable))
      else if a.spec.entityType !in c then Outcome(w, Err(NoCompleter))
      else if !MayCancel(c[a.spec.entityType], d, a, u) then Outcome(w, Err(CancelDenied))
      else Close(w, f, id, Cancelled, OnCancelled)
  }

  /** The store gives each stage row its id. */
  function WithIds(stages: seq<Stage>, mint: nat -> Uuid): (r: seq<Stage>)
    ensures |r| == |stages|
    ensures forall i :: 0 <= i < |r| ==> r[i] == stages[i].(id := mint(i))
  {
    seq(|stages|, i requires 0 <= i < |stages| => stages[i].(id := mint(i)))
  }

  /** A primary key of the new rows is already in use, so the store refuses them. */
  predicate KeysTaken(approvals: map<Uuid, Approval>, id: Uuid, n: nat, mint: nat -> Uuid) {
    || id in approvals
    || (exists i, j :: 0 <= i < j < n && mint(i) == mint(j))
    || (exists other :: other in approvals
                        && exists i :: 0 <= i < n && FindStage(approvals[other].stages, mint(i)).Some?)
  }

  function Submit(w: World, d: Directory, p: Policies, f: Faults, id: Uuid, mint: nat -> Uuid, spec: Spec): Outcome {
    match Planning.Plan(d, p, spec)
    case Err(e) => Outcome(w, Err(PlanFailed(e)))
    case Ok(stages) =>
      if f.create || KeysTaken(w.approvals, id, |stages|, mint) then Outcome(w, Err(StoreFailed))
      else
        var a := Approval(spec, Pending, WithIds(stages, mint));
        Outcome(w.(approvals := w.approvals[id := a]), Ok(a))
  }

  // ---- Runs

  datatype Action =
    | SubmitA(dir: Directory, policies: Policies, faults: Faults, id: Uuid, mint: nat -> Uuid, spec: Spec)
    | ApproveA(dir: Directory, now: nat, faults: Faults, id: Uuid, stageId: Uuid, user: User)
    | RejectA(dir: Directory, now: nat, faults: Faults, id: Uuid, stageId: Uuid, user: User, comment: string)
    | CancelA(dir: Directory, faults: Faults, id: Uuid, user: User)

  function Step(c: Completers, w: World, act: Action): Outcome {
    match act
    case SubmitA(d, p, f, id, mint, spec) => Submit(w, d, p, f, id, mint, spec)
    case ApproveA(d, now, f, id, stageId, u) => ApproveStage(c, w, d, now, f, id, stageId, u)
    case RejectA(d, now, f, id, stageId, u, comment) => RejectStage(c, w, d, now, f, id, stageId, u, comment)
    case CancelA(d, f, id, u) => Cancel(c, w, d, f, id, u)
  }

  /** The stores after a run of engine calls, each one an atomic step. */
  function Run(c: Completers, w: World, acts: seq<Action>): World
    decreases |acts|
  {
    if acts == [] then w else Run(c, Step(c, w, acts[0]).world, acts[1..])
  }
}
