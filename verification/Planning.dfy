/** Stage planning: the policy lookup chain, team scopes and the fallback gate. */
module Planning {
  import opened Basics
  import opened ApprovalModel

  /** The first team of the project that is not one of the submitter's. */
  function FirstOutside(all: seq<Uuid>, mine: set<Uuid>): (r: Option<Uuid>)
    ensures r.None? <==> forall t :: t in all ==> t in mine
    ensures r.Some? ==> exists k :: 0 <= k < |all| && all[k] == r.value && r.value !in mine
                                    && forall j :: 0 <= j < k ==> all[j] in mine
  {
    if all == [] then None
    else if all[0] !in mine then Some(all[0])
    else
      var r := FirstOutside(all[1..], mine);
      assert r.Some? ==> exists k :: 1 <= k < |all| && all[k] == r.value && r.value !in mine
                                     && forall j :: 0 <= j < k ==> all[j] in mine by {
        if r.Some? {
          var k :| 0 <= k < |all[1..]| && all[1..][k] == r.value && r.value !in mine
                   && forall j :: 0 <= j < k ==> all[1..][j] in mine;
          assert all[k + 1] == r.value;
          assert forall j :: 0 <= j < k + 1 ==> all[j] in mine by {
            assert forall j :: 1 <= j < k + 1 ==> all[j] == all[1..][j - 1];
          }
        }
      }
      r
  }

  function TeamSet(teams: seq<Uuid>): set<Uuid> {
    set t | t in teams
  }

  function ResolveTeamScope(d: Directory, scope: string, order: int, project: Uuid, submitter: Uuid)
    : Result<Option<Uuid>, PlanError>
  {
    if scope == "any" || scope == "" then Ok(None)
    else if scope == "submitter_team" then
      match d.userTeams(project, submitter)
      case Unavailable => Err(TeamLookupFailed(order))
      case Answer(mine) => if mine == [] then Err(NoSubmitterTeam(order)) else Ok(Some(mine[0]))
    else if scope == "other_team" then
      match d.userTeams(project, submitter)
      case Unavailable => Err(TeamLookupFailed(order))
      case Answer(mine) =>
        match d.projectTeams(project)
        case Unavailable => Err(TeamLookupFailed(order))
        case Answer(all) => Ok(FirstOutside(all, TeamSet(mine)))
    else Err(UnknownScope(order))
  }

  function StageFor(t: Template, team: Option<Uuid>): Stage {
    Stage(0, t.order, t.permission, team, Effective(t.minApprovers), Pending, None, None, "")
  }

  function PlanTemplates(d: Directory, ts: seq<Template>, project: Uuid, submitter: Uuid)
    : Result<seq<Stage>, PlanError>
  {
    if ts == [] then Ok([])
    else
      match ResolveTeamScope(d, ts[0].teamScope, ts[0].order, project, submitter)
      case Err(e) => Err(e)
      case Ok(team) =>
        match PlanTemplates(d, ts[1..], project, submitter)
        case Err(e) => Err(e)
        case Ok(rest) => Ok([StageFor(ts[0], team)] + rest)
  }

  /** A single stage that needs one holder of the given permission. */
  function DefaultStage(permission: string): Stage {
    Stage(0, 1, permission, None, 1, Pending, None, None, "")
  }

  /** No templates: a client attachment is refused, anything else gets a one-stage gate. */
  function Fallback(entity: EntityType, policyExists: bool): Result<seq<Stage>, PlanError> {
    if entity == ClientAttachment then
      Err(if policyExists then EmptyAttachmentPolicy else NoAttachmentPolicy)
    else if entity == Certificate then Ok([DefaultStage("certificate.approve")])
    else Ok([DefaultStage("route.approve")])
  }

  /** The action's policy, else the project default. */
  function Governing(p: Policies, project: Uuid, entity: EntityType, action: string): PolicyLookup {
    var specific := p(project, entity, Some(action));
    if specific == NotFound then p(project, entity, None) else specific
  }

  function Plan(d: Directory, p: Policies, spec: Spec): Result<seq<Stage>, PlanError> {
    match Governing(p, spec.projectId, spec.entityType, spec.action)
    case LookupFailed => Err(PolicyLookupFailed)
    case NotFound => Fallback(spec.entityType, false)
    case Found(policy) =>
      match policy.stages
      case None => Err(PolicyCorrupt)
      case Some(ts) =>
        match PlanTemplates(d, ts, spec.projectId, spec.submittedBy)
        case Err(e) => Err(e)
        case Ok(stages) => if stages == [] then Fallback(spec.entityType, true) else Ok(stages)
  }

  // ---- The planner as the source runs it

  method FindOutside(all: seq<Uuid>, mine: seq<Uuid>) returns (r: Option<Uuid>)
    ensures r == FirstOutside(all, TeamSet(mine))
  {
    var submitterTeams: map<Uuid, bool> := map[];
    for i := 0 to |mine|
      invariant submitterTeams.Keys == TeamSet(mine[..i])
    {
      submitterTeams := submitterTeams[mine[i] := true];
      assert mine[..i + 1] == mine[..i] + [mine[i]];
    }
    assert mine[..|mine|] == mine;
    for i := 0 to |all|
      invariant FirstOutside(all, TeamSet(mine)) == FirstOutside(all[i..], TeamSet(mine))
    {
      if all[i] !in submitterTeams {
        return Some(all[i]);
      }
    }
    return None;
  }

  method ResolveScope(d: Directory, scope: string, order: int, project: Uuid, submitter: Uuid)
    returns (r: Result<Option<Uuid>, PlanError>)
    ensures r == ResolveTeamScope(d, scope, order, project, submitter)
  {
    if scope == "any" || scope == "" {
      return Ok(None);
    } else if scope == "submitter_team" {
      match d.userTeams(project, submitter) {
        case Unavailable => return Err(TeamLookupFailed(order));
        case Answer(mine) =>
          if |mine| == 0 {
            return Err(NoSubmitterTeam(order));
          }
          return Ok(Some(mine[0]));
      }
    } else if scope == "other_team" {
      match d.userTeams(project, submitter) {
        case Unavailable => return Err(TeamLookupFailed(order));
        case Answer(mine) =>
          match d.projectTeams(project) {
            case Unavailable => return Err(TeamLookupFailed(order));
            case Answer(all) =>
              var team := FindOutside(all, mine);
              return Ok(team);
          }
      }
    }
    return Err(UnknownScope(order));
  }

  method PlanStages(d: Directory, p: Policies, spec: Spec) returns (r: Result<seq<Stage>, PlanError>)
    ensures r == Plan(d, p, spec)
  {
    var policy := p(spec.projectId, spec.entityType, Some(spec.action));
    if policy == NotFound {
      policy := p(spec.projectId, spec.entityType, None);
    }
    if policy == LookupFailed {
      return Err(PolicyLookupFailed);
    }
    var templates: seq<Template> := [];
    if policy.Found? {
      if policy.policy.stages.None? {
        return Err(PolicyCorrupt);
      }
      templates := policy.policy.stages.value;
    }
    var stages: seq<Stage> := [];
    ghost var whole := PlanTemplates(d, templates, spec.projectId, spec.submittedBy);
    assert templates[0..] == templates;
    assert whole.Ok? ==> [] + whole.value == whole.value;
    for i := 0 to |templates|
      invariant |stages| == i
      invariant match PlanTemplates(d, templates[i..], spec.projectId, spec.submittedBy)
                case Err(e) => whole == Err(e)
                case Ok(rest) => whole == Ok(stages + rest)
    {
      var t := templates[i];
      assert templates[i..][1..] == templates[i + 1..];
      var team := ResolveScope(d, t.teamScope, t.order, spec.projectId, spec.submittedBy);
      if team.Err? {
        return Err(team.error);
      }
      ghost var planned := PlanTemplates(d, templates[i + 1..], spec.projectId, spec.submittedBy);
      if planned.Ok? {
        assert stages + ([StageFor(t, team.value)] + planned.value)
            == stages + [StageFor(t, team.value)] + planned.value;
      }
      stages := stages + [StageFor(t, team.value)];
    }
    assert whole == Ok(stages + []);
    assert stages + [] == stages;
    if |stages| == 0 {
      return Fallback(spec.entityType, policy.Found?);
    }
    return Ok(stages);
  }

  // ---- What planning promises

  /** A planned list is the pointwise image of the templates, in their order. */
  lemma {:induction false} TemplatesPointwise(d: Directory, ts: seq<Template>, project: Uuid, submitter: Uuid)
    ensures var r := PlanTemplates(d, ts, project, submitter);
            && (r.Ok? <==> forall k :: 0 <= k < |ts| ==>
                 ResolveTeamScope(d, ts[k].teamScope, ts[k].order, project, submitter).Ok?)
            && (r.Ok? ==>
                  && |r.value| == |ts|
                  && forall k :: 0 <= k < |ts| ==>
                       && var scope := ResolveTeamScope(d, ts[k].teamScope, ts[k].order, project, submitter);
                          scope.Ok? && r.value[k] == StageFor(ts[k], scope.value))
  {
    if ts == [] {
    } else {
      TemplatesPointwise(d, ts[1..], project, submitter);
      assert forall k :: 1 <= k < |ts| ==> ts[k] == ts[1..][k - 1];
      assert forall k :: 0 <= k < |ts[1..]| ==> ts[1..][k] == ts[k + 1];
    }
  }

  /** A list that cannot be planned is refused for the first template whose scope does not resolve. */
  lemma {:induction false} FirstUnresolved(d: Directory, ts: seq<Template>, project: Uuid, submitter: Uuid)
    requires PlanTemplates(d, ts, project, submitter).Err?
    ensures exists k :: && 0 <= k < |ts|
                        && Err(PlanTemplates(d, ts, project, submitter).error)
                           == ResolveTeamScope(d, ts[k].teamScope, ts[k].order, project, submitter)
                        && forall j :: 0 <= j < k ==>
                             ResolveTeamScope(d, ts[j].teamScope, ts[j].order, project, submitter).Ok?
  {
    if ResolveTeamScope(d, ts[0].teamScope, ts[0].order, project, submitter).Ok? {
      var rest := ts[1..];
      FirstUnresolved(d, rest, project, submitter);
      var k :| && 0 <= k < |rest|
               && Err(PlanTemplates(d, rest, project, submitter).error)
                  == ResolveTeamScope(d, rest[k].teamScope, rest[k].order, project, submitter)
               && forall j :: 0 <= j < k ==>
                    ResolveTeamScope(d, rest[j].teamScope, rest[j].order, project, submitter).Ok?;
      assert ts[k + 1] == rest[k];
      forall j | 0 <= j < k + 1
        ensures ResolveTeamScope(d, ts[j].teamScope, ts[j].order, project, submitter).Ok?
      {
        if j > 0 { assert ts[j] == rest[j - 1]; }
      }
    }
  }

  /** A stage nobody has reviewed yet and somebody must. */
  predicate FreshStage(s: Stage) {
    s.status == Pending && s.minApprovers >= 1 && s.reviewedBy == None && s.reviewedAt == None && s.comment == ""
  }

  /** Whatever was planned is a non-empty list of unreviewed stages, so no submission starts without a gate. */
  lemma PlannedStagesAreFresh(d: Directory, p: Policies, spec: Spec)
    requires Plan(d, p, spec).Ok?
    ensures Plan(d, p, spec).value != []
    ensures forall s :: s in Plan(d, p, spec).value ==> FreshStage(s)
  {
    var g := Governing(p, spec.projectId, spec.entityType, spec.action);
    if g.Found? {
      TemplatesPointwise(d, g.policy.stages.value, spec.projectId, spec.submittedBy);
    }
  }

  /** The templates the lookup chain selects: the action's policy, else the default, else none. */
  ghost predicate Selects(p: Policies, spec: Spec, ts: seq<Template>) {
    var specific := p(spec.projectId, spec.entityType, Some(spec.action));
    var default := p(spec.projectId, spec.entityType, None);
    || specific == Found(Policy(Some(ts)))
    || (specific == NotFound && default == Found(Policy(Some(ts))))
    || (specific == NotFound && default == NotFound && ts == [])
  }

  /** The selected templates are obeyed exactly: same order, same length, no stage weakened. */
  lemma PolicyIsObeyed(d: Directory, p: Policies, spec: Spec, ts: seq<Template>, k: nat)
    requires Selects(p, spec, ts) && k < |ts|
    requires Plan(d, p, spec).Ok?
    ensures var stages := Plan(d, p, spec).value;
            && |stages| == |ts|
            && stages[k].order == ts[k].order
            && stages[k].permission == ts[k].permission
            && stages[k].minApprovers == Effective(ts[k].minApprovers)
            && Ok(stages[k].team) == ResolveTeamScope(d, ts[k].teamScope, ts[k].order, spec.projectId, spec.submittedBy)
  {
    TemplatesPointwise(d, ts, spec.projectId, spec.submittedBy);
  }

  /** Planning succeeds exactly when the chain selects readable templates, every team scope resolves,
      and a client attachment is not left without a stage. */
  lemma PlanSucceedsIff(d: Directory, p: Policies, spec: Spec)
    ensures Plan(d, p, spec).Ok? <==>
            exists ts: seq<Template> :: && Selects(p, spec, ts)
                         && (forall k :: 0 <= k < |ts| ==>
                               ResolveTeamScope(d, ts[k].teamScope, ts[k].order, spec.projectId, spec.submittedBy).Ok?)
                         && (ts == [] ==> spec.entityType != ClientAttachment)
  {
    var g := Governing(p, spec.projectId, spec.entityType, spec.action);
    if g.Found? && g.policy.stages.Some? {
      var ts := g.policy.stages.value;
      TemplatesPointwise(d, ts, spec.projectId, spec.submittedBy);
      assert g == Found(Policy(Some(ts)));
      assert Selects(p, spec, ts);
      assert forall us: seq<Template> :: Selects(p, spec, us) ==> us == ts;
    } else if g == NotFound {
      assert Selects(p, spec, []);
      assert forall us: seq<Template> :: Selects(p, spec, us) ==> us == [];
    } else {
      assert forall us: seq<Template> :: !Selects(p, spec, us);
    }
  }

  /** The selected templates are refused for the first one whose team scope does not resolve. */
  lemma RefusedForFirst(d: Directory, p: Policies, spec: Spec, ts: seq<Template>, k: nat)
    requires Selects(p, spec, ts) && k < |ts|
    requires ResolveTeamScope(d, ts[k].teamScope, ts[k].order, spec.projectId, spec.submittedBy).Err?
    requires forall j :: 0 <= j < k ==>
               ResolveTeamScope(d, ts[j].teamScope, ts[j].order, spec.projectId, spec.submittedBy).Ok?
    ensures Plan(d, p, spec)
            == Err(ResolveTeamScope(d, ts[k].teamScope, ts[k].order, spec.projectId, spec.submittedBy).error)
  {
    TemplatesPointwise(d, ts, spec.projectId, spec.submittedBy);
    FirstUnresolved(d, ts, spec.projectId, spec.submittedBy);
  }

  /** Without a stage in any policy the gate is one approver with the entity's own approve permission, and a client
      attachment has no gate to fall back to. */
  lemma FallbackGate(d: Directory, p: Policies, spec: Spec)
    requires Selects(p, spec, [])
    ensures Plan(d, p, spec).Ok? <==> spec.entityType != ClientAttachment
    ensures Plan(d, p, spec).Err? ==>
              Plan(d, p, spec).error == if p(spec.projectId, spec.entityType, Some(spec.action)) == NotFound
                                           && p(spec.projectId, spec.entityType, None) == NotFound
                                        then NoAttachmentPolicy else EmptyAttachmentPolicy
    ensures Plan(d, p, spec).Ok? ==>
              var stages := Plan(d, p, spec).value;
              && |stages| == 1 && FreshStage(stages[0]) && stages[0].order == 1
              && stages[0].minApprovers == 1 && stages[0].team == None
              && stages[0].permission == if spec.entityType == Certificate then "certificate.approve" else "route.approve"
  {
  }

  /** other_team leaves a stage unrestricted only when there is no other team; otherwise it names the
      first listed team the submitter is not in. */
  lemma OtherTeamScope(d: Directory, order: int, project: Uuid, submitter: Uuid, mine: seq<Uuid>, all: seq<Uuid>)
    requires d.userTeams(project, submitter) == Answer(mine)
    requires d.projectTeams(project) == Answer(all)
    ensures var r := ResolveTeamScope(d, "other_team", order, project, submitter);
            && r.Ok?
            && (r.value == None <==> forall t :: t in all ==> t in mine)
            && (r.value.Some? ==>
                  exists k :: && 0 <= k < |all| && all[k] == r.value.value && all[k] !in mine
                              && forall j :: 0 <= j < k ==> all[j] in mine)
  {
  }

  /** A policy lookup that fails, or a policy that is not valid JSON, is reported as such and never as a missing policy. */
  lemma LookupFailuresSurface(d: Directory, p: Policies, spec: Spec)
    ensures var specific := p(spec.projectId, spec.entityType, Some(spec.action));
            var default := p(spec.projectId, spec.entityType, None);
            && (Plan(d, p, spec) == Err(PolicyLookupFailed) <==>
                  specific == LookupFailed || (specific == NotFound && default == LookupFailed))
            && (Plan(d, p, spec) == Err(PolicyCorrupt) <==>
                  specific == Found(Policy(None)) || (specific == NotFound && default == Found(Policy(None))))
  {
    var g := Governing(p, spec.projectId, spec.entityType, spec.action);
    if g.Found? && g.policy.stages.Some? {
      var ts := g.policy.stages.value;
      if PlanTemplates(d, ts, spec.projectId, spec.submittedBy).Err? {
        FirstUnresolved(d, ts, spec.projectId, spec.submittedBy);
      }
    }
  }

  /** A stage is left open to every team only by an explicit open scope or by other_team without another team;
      submitter_team names the submitter's first team and fails without one; no other scope is accepted. */
  lemma ScopeNeverWidens(d: Directory, scope: string, order: int, project: Uuid, submitter: Uuid)
    ensures var r := ResolveTeamScope(d, scope, order, project, submitter);
            && (r == Ok(None) <==>
                  || scope in {"any", ""}
                  || (scope == "other_team" && d.userTeams(project, submitter).Answer? && d.projectTeams(project).Answer?
                      && forall t :: t in d.projectTeams(project).value ==> t in d.userTeams(project, submitter).value))
            && (scope == "submitter_team" ==>
                  var mine := d.userTeams(project, submitter);
                  && (r.Ok? <==> mine.Answer? && mine.value != [])
                  && (r.Ok? ==> r.value == Some(mine.value[0])))
            && (r.Ok? ==> scope in {"any", "", "submitter_team", "other_team"})
  {
  }

  /** A scope fails exactly when a team lookup it needs fails, submitter_team finds no team, or the scope is unknown; the
      error names the stage. */
  lemma ScopeErrors(d: Directory, scope: string, order: int, project: Uuid, submitter: Uuid)
    ensures var r := ResolveTeamScope(d, scope, order, project, submitter);
            var mine, all := d.userTeams(project, submitter), d.projectTeams(project);
            && (r == Err(TeamLookupFailed(order)) <==>
                  || (scope in {"submitter_team", "other_team"} && mine.Unavailable?)
                  || (scope == "other_team" && all.Unavailable?))
            && (r == Err(NoSubmitterTeam(order)) <==> scope == "submitter_team" && mine == Answer([]))
            && (r == Err(UnknownScope(order)) <==> scope !in {"any", "", "submitter_team", "other_team"})
            && (r.Err? ==> r.error in {TeamLookupFailed(order), NoSubmitterTeam(order), UnknownScope(order)})
  {
  }
}
