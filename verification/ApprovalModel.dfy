/** The records of the approval engine, the lookups it asks, and what a call to it can meet. */
module ApprovalModel {
  import opened Basics

  datatype Status = Pending | Approved | Rejected | Cancelled

  datatype EntityType = Route | ClientAttachment | Certificate | OtherEntity(name: string)

  datatype Role = Owner | OtherRole

  datatype User = User(id: Uuid, role: Role)

  datatype Stage = Stage(
    id: Uuid,
    order: int,
    permission: string,
    team: Option<Uuid>,
    minApprovers: int,
    status: Status,
    reviewedBy: Option<Uuid>,
    reviewedAt: Option<nat>,
    comment: string)

  /** What the caller of Submit supplies; the engine never changes it. */
  datatype Spec = Spec(
    projectId: Uuid,
    entityType: EntityType,
    entityId: Uuid,
    action: string,
    submittedBy: Uuid,
    configSnapshot: string,
    previousConfig: string,
    aiReview: string,
    changeDescription: string)

  /** A row of the approval store. Its id is the key it is stored under. */
  datatype Approval = Approval(spec: Spec, status: Status, stages: seq<Stage>)

  datatype Decision = DecidedApprove | DecidedReject

  datatype Review = Review(reviewer: Uuid, decision: Decision)

  datatype Callback = OnApproved | OnRejected | OnCancelled

  /** The registered completer of an entity type; canCancel is its optional CancelAuthorizer half. */
  datatype Completer = Completer(canCancel: Option<(Approval, User) -> bool>)

  type Completers = map<EntityType, Completer>

  /** Everything TeamLookup and ProjectLookup answer, failures included. */
  datatype Directory = Directory(
    selfApproval: Uuid -> Lookup<bool>,
    isAdmin: (Uuid, Uuid) -> Lookup<bool>,
    hasPermission: (Uuid, Uuid, string) -> Lookup<bool>,
    isMember: (Uuid, Uuid) -> Lookup<bool>,
    userTeams: (Uuid, Uuid) -> Lookup<seq<Uuid>>,
    projectTeams: Uuid -> Lookup<seq<Uuid>>)

  /** One stage of a stored policy, as decoded from its JSON. */
  datatype Template = Template(order: int, permission: string, teamScope: string, minApprovers: int)

  /** A stored policy; its stages are None when they are not valid JSON. */
  datatype Policy = Policy(stages: Option<seq<Template>>)

  datatype PolicyLookup = Found(policy: Policy) | NotFound | LookupFailed

  /** PolicyStore.GetByProjectAndEntity; None asks for the project default. */
  type Policies = (Uuid, EntityType, Option<string>) -> PolicyLookup

  /** Which store and completer calls of one engine call fail. A call that fails has no effect. */
  datatype Faults = Faults(
    get: bool,
    list: bool,
    record: bool,
    count: bool,
    saveStage: bool,
    save: bool,
    create: bool,
    callback: bool,
    refetch: bool)

  const NO_FAULTS := Faults(false, false, false, false, false, false, false, false, false)

  datatype PlanError =
    | PolicyLookupFailed
    | PolicyCorrupt
    | TeamLookupFailed(order: int)
    | NoSubmitterTeam(order: int)
    | UnknownScope(order: int)
    | NoAttachmentPolicy
    | EmptyAttachmentPolicy

  datatype Error =
    | PlanFailed(plan: PlanError)
    | StoreFailed
    | CallbackFailed
    | NotPending
    | NotCancellable
    | NoCompleter
    | StageNotFound
    | StageNotPending
    | SelfReview
    | EarlierStagesOpen
    | PermissionLookupFailed
    | PermissionDenied
    | MembershipLookupFailed
    | NotTeamMember
    | AlreadyReviewed
    | CommentRequired
    | CancelDenied

  /** EffectiveMinApprovers: the least number that is at least one and at least n. */
  function Effective(n: int): (r: nat)
    ensures r >= 1 && r >= n
    ensures r == 1 || r == n
  {
    if n <= 0 then 1 else n
  }
}
