/** The engine as the source runs it: records fetched from the stores, stages changed in place through the record's own
    slice, and written back. Each call is proved to do exactly what Traversal says. */
module ApprovalEngine {
  import opened Basics
  import opened ApprovalModel
  import T = Traversal
  import Planning

  /** An approval in memory. A pointer to one of its stages is an index into stages. */
  class ApprovalRecord {
    const id: Uuid
    const spec: Spec
    var status: Status
    const stages: array<Stage>

    constructor (id: Uuid, a: Approval)
      ensures this.id == id && Value() == a && fresh(stages)
    {
      this.id, spec, status := id, a.spec, a.status;
      var slice := new Stage[|a.stages|](i requires 0 <= i < |a.stages| => a.stages[i]);
      stages := slice;
      new;
      assert stages[..] == a.stages;
    }

    function Value(): Approval
      reads this, stages
    {
      Approval(spec, status, stages[..])
    }
  }

  /** ApprovalStore: the approvals table with its stages. */
  class ApprovalStore {
    var rows: map<Uuid, Approval>

    constructor ()
      ensures rows == map[]
    {
      rows := map[];
    }

    method GetByID(id: Uuid, fails: bool) returns (r: Option<ApprovalRecord>)
      ensures r.None? <==> fails || id !in rows
      ensures r.Some? ==> fresh(r.value) && fresh(r.value.stages) && r.value.id == id && r.value.Value() == rows[id]
    {
      if fails || id !in rows {
        return None;
      }
      var a := new ApprovalRecord(id, rows[id]);
      return Some(a);
    }

    /** Insert a new approval; the store assigns the stage ids and refuses a key already in use. */
    method Create(id: Uuid, mint: nat -> Uuid, a: ApprovalRecord, fails: bool) returns (ok: bool)
      requires a.id == id
      modifies this, a.stages
      ensures ok <==> !fails && !T.KeysTaken(old(rows), id, a.stages.Length, mint)
      ensures !ok ==> rows == old(rows)
      ensures ok ==> a.Value() == old(a.Value()).(stages := T.WithIds(old(a.stages[..]), mint))
                     && rows == old(rows)[id := a.Value()]
    {
      if fails || T.KeysTaken(rows, id, a.stages.Length, mint) {
        return false;
      }
      for i := 0 to a.stages.Length
        modifies a.stages
        invariant forall j :: 0 <= j < i ==> a.stages[j] == old(a.stages[j]).(id := mint(j))
        invariant forall j :: i <= j < a.stages.Length ==> a.stages[j] == old(a.stages[j])
      {
        a.stages[i] := a.stages[i].(id := mint(i));
      }
      assert a.stages[..] == T.WithIds(old(a.stages[..]), mint);
      rows := rows[id := a.Value()];
      return true;
    }

    method Update(a: ApprovalRecord, fails: bool) returns (ok: bool)
      modifies this
      ensures ok == !fails
      ensures rows == if ok then old(rows)[a.id := a.Value()] else old(rows)
    {
      if !fails {
        rows := rows[a.id := a.Value()];
      }
      return !fails;
    }

    /** Overwrite the stage row with the id of s, wherever it is in the stored approval. */
    method UpdateStage(id: Uuid, s: Stage, fails: bool) returns (ok: bool)
      requires id in rows && T.FindStage(rows[id].stages, s.id).Some?
      modifies this
      ensures ok == !fails
      ensures rows == if ok then old(rows)[id := old(rows)[id].(stages :=
                        old(rows)[id].stages[T.FindStage(old(rows)[id].stages, s.id).value := s])]
                      else old(rows)
    {
      if !fails {
        var a := rows[id];
        rows := rows[id := a.(stages := a.stages[T.FindStage(a.stages, s.id).value := s])];
      }
      return !fails;
    }
  }

  /** StageReviewStore: the reviews table, by stage. */
  class ReviewStore {
    var rows: map<Uuid, seq<Review>>

    constructor ()
      ensures rows == map[]
    {
      rows := map[];
    }

    method Create(stageId: Uuid, r: Review, fails: bool) returns (ok: bool)
      modifies this
      ensures ok == !fails
      ensures rows == if ok then old(rows)[stageId := T.ReviewsOf(old(rows), stageId) + [r]] else old(rows)
    {
      if !fails {
        rows := rows[stageId := T.ReviewsOf(rows, stageId) + [r]];
      }
      return !fails;
    }

    method ListByStageID(stageId: Uuid, fails: bool) returns (r: Option<seq<Review>>)
      ensures r == if fails then None else Some(T.ReviewsOf(rows, stageId))
    {
      return if fails then None else Some(T.ReviewsOf(rows, stageId));
    }

    method CountApproved(stageId: Uuid, fails: bool) returns (r: Option<nat>)
      ensures r == if fails then None else Some(T.CountApproved(T.ReviewsOf(rows, stageId)))
    {
      return if fails then None else Some(T.CountApproved(T.ReviewsOf(rows, stageId)));
    }
  }

  class Engine {
    const approvals: ApprovalStore
    const reviews: ReviewStore
    const completers: Completers
    /** Every call made to a completer, by approval. */
    ghost var calls: map<Uuid, seq<Callback>>

    constructor (completers: Completers)
      ensures this.completers == completers && fresh(approvals) && fresh(reviews)
      ensures State() == T.EMPTY
    {
      this.completers := completers;
      approvals := new ApprovalStore();
      reviews := new ReviewStore();
      calls := map[];
    }

    ghost function State(): T.World
      reads this, approvals, reviews
    {
      T.World(approvals.rows, reviews.rows, calls)
    }

    /** A call to the completer: it is made, and it may answer with an error. */
    method Notify(id: Uuid, call: Callback, fails: bool) returns (ok: bool)
      modifies this`calls
      ensures ok == !fails
      ensures State() == T.Called(old(State()), id, call)
    {
      calls := T.Called(State(), id, call).calls;
      return !fails;
    }

    method Refetch(f: Faults, id: Uuid) returns (r: T.Reply)
      ensures r == T.Refetch(State(), f, id).reply
    {
      var a := approvals.GetByID(id, f.refetch);
      if a.None? {
        return Err(StoreFailed);
      }
      return Ok(a.value.Value());
    }

    static method FindStage(a: ApprovalRecord, stageId: Uuid) returns (r: Option<nat>)
      ensures r == T.FindStage(a.stages[..], stageId)
    {
      for i := 0 to a.stages.Length
        invariant T.FindStage(a.stages[..], stageId) == T.FindFrom(a.stages[..], stageId, i)
      {
        if a.stages[i].id == stageId {
          return Some(i);
        }
      }
      return None;
    }

    static method AllStagesApproved(a: ApprovalRecord, justApproved: Uuid) returns (all: bool)
      ensures all == T.AllApproved(a.stages[..], justApproved)
    {
      for i := 0 to a.stages.Length
        invariant forall j :: 0 <= j < i ==> a.stages[j].id == justApproved || a.stages[j].status == Approved
      {
        if a.stages[i].id == justApproved {
          continue;
        }
        if a.stages[i].status != Approved {
          assert !T.AllApproved(a.stages[..], justApproved) by {
            assert a.stages[..][i] == a.stages[i];
          }
          return false;
        }
      }
      return true;
    }

    static method AuthorizeStageReview(d: Directory, a: ApprovalRecord, stageId: Uuid, u: User)
      returns (r: Result<nat, Error>)
      ensures r == T.Authorize(d, a.Value(), stageId, u)
    {
      var found := FindStage(a, stageId);
      if found.None? {
        return Err(StageNotFound);
      }
      var stage := a.stages[found.value];
      if stage.status != Pending {
        return Err(StageNotPending);
      }
      if a.spec.submittedBy == u.id {
        var allowed := d.selfApproval(a.spec.projectId) == Answer(true);
        if !allowed {
          return Err(SelfReview);
        }
      }
      for i := 0 to a.stages.Length
        invariant forall j :: 0 <= j < i && a.stages[j].order < stage.order ==> a.stages[j].status == Approved
      {
        if a.stages[i].order < stage.order && a.stages[i].status != Approved {
          assert !T.LowerApproved(a.stages[..], stage.order) by {
            assert a.stages[..][i] == a.stages[i];
          }
          return Err(EarlierStagesOpen);
        }
      }
      assert T.LowerApproved(a.stages[..], stage.order);
      if u.role == Owner || d.isAdmin(a.spec.projectId, u.id) == Answer(true) {
        return Ok(found.value);
      }
      match d.hasPermission(a.spec.projectId, u.id, stage.permission) {
        case Unavailable => return Err(PermissionLookupFailed);
        case Answer(allowed) =>
          if !allowed {
            return Err(PermissionDenied);
          }
      }
      if stage.team.Some? {
        match d.isMember(stage.team.value, u.id) {
          case Unavailable => return Err(MembershipLookupFailed);
          case Answer(member) =>
            if !member {
              return Err(NotTeamMember);
            }
        }
      }
      return Ok(found.value);
    }

    /** The duplicate-reviewer check over the listed reviews. */
    static method AlreadyReviewedBy(existing: seq<Review>, u: User) returns (found: bool)
      ensures found == T.HasReviewed(existing, u.id)
    {
      for i := 0 to |existing|
        invariant forall j :: 0 <= j < i ==> existing[j].reviewer != u.id
      {
        if existing[i].reviewer == u.id {
          return true;
        }
      }
      return false;
    }

    /** Fetch the approval a review call is about, or say why it cannot be reviewed. */
    method Reviewable(f: Faults, id: Uuid) returns (r: Result<ApprovalRecord, Error>)
      ensures match T.Reviewable(completers, State(), f, id)
              case Err(e) => r == Err(e)
              case Ok(a) => r.Ok? && fresh(r.value) && fresh(r.value.stages) && r.value.id == id && r.value.Value() == a
    {
      var fetched := approvals.GetByID(id, f.get);
      if fetched.None? {
        return Err(StoreFailed);
      }
      var approval := fetched.value;
      if approval.status != Pending {
        return Err(NotPending);
      }
      if approval.spec.entityType !in completers {
        return Err(NoCompleter);
      }
      return Ok(approval);
    }

    method ApproveStage(d: Directory, now: nat, f: Faults, id: Uuid, stageId: Uuid, u: User) returns (r: T.Reply)
      modifies approvals, reviews, this`calls
      ensures T.Outcome(State(), r) == T.ApproveStage(completers, old(State()), d, now, f, id, stageId, u)
    {
      var reviewable := Reviewable(f, id);
      if reviewable.Err? {
        return Err(reviewable.error);
      }
      var approval := reviewable.value;
      var authorized := AuthorizeStageReview(d, approval, stageId, u);
      if authorized.Err? {
        return Err(authorized.error);
      }
      var existing := reviews.ListByStageID(stageId, f.list);
      if existing.None? {
        return Err(StoreFailed);
      }
      var duplicate := AlreadyReviewedBy(existing.value, u);
      if duplicate {
        return Err(AlreadyReviewed);
      }
      var recorded := reviews.Create(stageId, Review(u.id, DecidedApprove), f.record);
      if !recorded {
        return Err(StoreFailed);
      }
      assert State() == T.AddReview(old(State()), stageId, Review(u.id, DecidedApprove));
      r := CountAndSettle(approval, now, f, authorized.value, u);
    }

    /** ApproveStage once the review is on record. */
    method CountAndSettle(approval: ApprovalRecord, now: nat, f: Faults, i: nat, u: User) returns (r: T.Reply)
      requires approval.id in approvals.rows && approvals.rows[approval.id] == approval.Value()
      requires approval.status == Pending && i < approval.stages.Length
      requires T.FindStage(approval.stages[..], approval.stages[i].id) == Some(i)
      modifies approvals, approval, approval.stages, this`calls
      ensures T.Outcome(State(), r) == T.CountAndSettle(old(State()), now, f, approval.id, i, u)
    {
      ghost var before := State();
      ghost var slice := approval.stages[..];
      var stageId := approval.stages[i].id;
      var count := reviews.CountApproved(stageId, f.count);
      if count.None? {
        return Err(StoreFailed);
      }
      if count.value < Effective(approval.stages[i].minApprovers) {
        r := Refetch(f, approval.id);
        return;
      }
      approval.stages[i] := T.Reviewed(approval.stages[i], Approved, u.id, now);
      assert approval.stages[..] == slice[i := T.Reviewed(slice[i], Approved, u.id, now)];
      var saved := approvals.UpdateStage(approval.id, approval.stages[i], f.saveStage);
      if !saved {
        return Err(StoreFailed);
      }
      assert State() == T.PutStage(before, approval.id, i, approval.stages[i]);
      var all := AllStagesApproved(approval, stageId);
      if all {
        r := Close(approval, f, Approved, OnApproved);
      } else {
        r := Refetch(f, approval.id);
      }
    }

    /** Set the final status in memory, save it, tell the completer, re-fetch. */
    method Close(approval: ApprovalRecord, f: Faults, status: Status, call: Callback) returns (r: T.Reply)
      requires approval.id in approvals.rows && approvals.rows[approval.id] == approval.Value()
      modifies approvals, approval, this`calls
      ensures T.Outcome(State(), r) == T.Close(old(State()), f, approval.id, status, call)
    {
      ghost var before := State();
      approval.status := status;
      var saved := approvals.Update(approval, f.save);
      if !saved {
        return Err(StoreFailed);
      }
      assert State() == T.PutStatus(before, approval.id, status);
      var told := Notify(approval.id, call, f.callback);
      if !told {
        return Err(CallbackFailed);
      }
      r := Refetch(f, approval.id);
    }

    method RejectStage(d: Directory, now: nat, f: Faults, id: Uuid, stageId: Uuid, u: User, comment: string)
      returns (r: T.Reply)
      modifies approvals, reviews, this`calls
      ensures T.Outcome(State(), r) == T.RejectStage(completers, old(State()), d, now, f, id, stageId, u, comment)
    {
      if comment == "" {
        return Err(CommentRequired);
      }
      var reviewable := Reviewable(f, id);
      if reviewable.Err? {
        return Err(reviewable.error);
      }
      var approval := reviewable.value;
      var authorized := AuthorizeStageReview(d, approval, stageId, u);
      if authorized.Err? {
        return Err(authorized.error);
      }
      var _ := reviews.Create(stageId, Review(u.id, DecidedReject), f.record);
      assert State() == T.RecordRejection(old(State()), f, stageId, u);
      r := RejectAndClose(approval, now, f, authorized.value, u, comment);
    }

    /** RejectStage once the reviewer is authorized. */
    method RejectAndClose(approval: ApprovalRecord, now: nat, f: Faults, i: nat, u: User, comment: string)
      returns (r: T.Reply)
      requires approval.id in approvals.rows && approvals.rows[approval.id] == approval.Value()
      requires i < approval.stages.Length && T.FindStage(approval.stages[..], approval.stages[i].id) == Some(i)
      modifies approvals, approval, approval.stages, this`calls
      ensures T.Outcome(State(), r) == T.RejectAndClose(old(State()), now, f, approval.id, i, u, comment)
    {
      ghost var before := State();
      ghost var slice := approval.stages[..];
      ghost var s := T.Reviewed(slice[i], Rejected, u.id, now).(comment := comment);
      approval.stages[i] := T.Reviewed(approval.stages[i], Rejected, u.id, now);
      approval.stages[i] := approval.stages[i].(comment := comment);
      assert approval.stages[..] == slice[i := s];
      var saved := approvals.UpdateStage(approval.id, approval.stages[i], f.saveStage);
      if !saved {
        return Err(StoreFailed);
      }
      assert State() == T.PutStage(before, approval.id, i, s);
      r := Close(approval, f, Rejected, OnRejected);
    }

    method Cancel(d: Directory, f: Faults, id: Uuid, u: User) returns (r: T.Reply)
      modifies approvals, this`calls
      ensures T.Outcome(State(), r) == T.Cancel(completers, old(State()), d, f, id, u)
    {
      var fetched := approvals.GetByID(id, f.get);
      if fetched.None? {
        return Err(StoreFailed);
      }
      var approval := fetched.value;
      if approval.status != Pending && approval.status != Approved {
        return Err(NotCancellable);
      }
      if approval.spec.entityType !in completers {
        return Err(NoCompleter);
      }
      var isSubmitter := approval.spec.submittedBy == u.id;
      var isOwner := u.role == Owner;
      var isProjectAdmin := false;
      if !isOwner {
        isProjectAdmin := d.isAdmin(approval.spec.projectId, u.id) == Answer(true);
      }
      var permitted := isSubmitter || isOwner || isProjectAdmin;
      if !permitted {
        var extra := completers[approval.spec.entityType].canCancel;
        if extra.Some? {
          permitted := extra.value(approval.Value(), u);
        }
      }
      if !permitted {
        return Err(CancelDenied);
      }
      r := Close(approval, f, Cancelled, OnCancelled);
    }

    method Submit(d: Directory, p: Policies, f: Faults, id: Uuid, mint: nat -> Uuid, spec: Spec) returns (r: T.Reply)
      modifies approvals
      ensures T.Outcome(State(), r) == T.Submit(old(State()), d, p, f, id, mint, spec)
    {
      var stages := Planning.PlanStages(d, p, spec);
      if stages.Err? {
        return Err(PlanFailed(stages.error));
      }
      var a := new ApprovalRecord(id, Approval(spec, Pending, stages.value));
      assert a.stages[..] == stages.value;
      var created := approvals.Create(id, mint, a, f.create);
      if !created {
        return Err(StoreFailed);
      }
      return Ok(a.Value());
    }
  }
}
