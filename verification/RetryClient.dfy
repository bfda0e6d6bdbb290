/** The retry loop and its create-or-update clients as the source runs them, on an API server others write to. */
module RetryClient {
  import opened Basics
  import O = Optimistic

  /** The object the caller wants stored; the loop stamps version and uid on it in place. */
  class DesiredObject {
    const content: O.Content
    var version: nat
    var uid: nat

    constructor (content: O.Content)
      ensures this.content == content && version == 0 && uid == 0
    {
      this.content, version, uid := content, 0, 0;
    }

    function Value(): O.Desired
      reads this
    {
      O.Desired(content, version, uid)
    }
  }

  class ApiServer {
    var stored: Option<O.Stored>
    var next: nat
    ghost var history: seq<O.Change>

    constructor (stored: Option<O.Stored>, next: nat)
      ensures State() == O.Server(stored, next, [])
    {
      this.stored, this.next, history := stored, next, [];
    }

    ghost function State(): O.Server
      reads this
    {
      O.Server(stored, next, history)
    }

    method Get(fault: bool) returns (r: Result<O.Stored, O.Failure>)
      ensures r == if fault then Err(O.OtherFailure)
                   else if stored.None? then Err(O.NotFound)
                   else Ok(stored.value)
    {
      if fault {
        return Err(O.OtherFailure);
      }
      return if stored.None? then Err(O.NotFound) else Ok(stored.value);
    }

    method Accept(ghost author: O.Author, after: Option<O.Stored>)
      modifies this
      ensures State() == O.Accept(old(State()), author, after)
    {
      history := history + [O.Change(author, stored, after)];
      stored, next := after, next + 1;
    }

    method Create(ghost author: O.Author, content: O.Content, fate: O.Fate) returns (failure: Option<O.Failure>)
      modifies this
      ensures var accepted := O.ServerCreate(old(State()), author, content);
              && State() == (if accepted.Ok? && O.Applied(fate) then accepted.value else old(State()))
              && failure == if fate.Fails? then Some(O.OtherFailure)
                            else if accepted.Err? then Some(accepted.error)
                            else None
    {
      if stored.None? && O.Applied(fate) {
        Accept(author, Some(O.Stored(next, next, content)));
        return if fate.Fails? then Some(O.OtherFailure) else None;
      }
      return if fate.Fails? then Some(O.OtherFailure) else Some(O.AlreadyExists);
    }

    method Update(ghost author: O.Author, d: DesiredObject, fate: O.Fate) returns (failure: Option<O.Failure>)
      modifies this
      ensures var accepted := O.ServerUpdate(old(State()), author, d.Value());
              && State() == (if accepted.Ok? && O.Applied(fate) then accepted.value else old(State()))
              && failure == if fate.Fails? then Some(O.OtherFailure)
                            else if accepted.Err? then Some(accepted.error)
                            else None
    {
      if fate.Fails? && !fate.applied {
        return Some(O.OtherFailure);
      }
      if stored.None? {
        return if fate.Fails? then Some(O.OtherFailure) else Some(O.NotFound);
      }
      if stored.value.version != d.version || stored.value.uid != d.uid {
        return if fate.Fails? then Some(O.OtherFailure) else Some(O.Conflict);
      }
      Accept(author, Some(O.Stored(next, d.uid, d.content)));
      return if fate.Fails? then Some(O.OtherFailure) else None;
    }

    /** Everything others do to the object before the next request arrives. */
    method OthersAct(ops: seq<O.OutsideOp>)
      modifies this
      ensures State() == O.OutsideAll(old(State()), ops)
    {
      for i := 0 to |ops|
        invariant O.OutsideAll(old(State()), ops) == O.OutsideAll(State(), ops[i..])
      {
        assert ops[i..][0] == ops[i] && ops[i..][1..] == ops[i + 1..];
        match ops[i] {
          case Rewrite(content) =>
            if stored.Some? {
              Accept(O.Outsider, Some(O.Stored(next, stored.value.uid, content)));
            }
          case Delete =>
            if stored.Some? {
              Accept(O.Outsider, None);
            }
          case Recreate(content) =>
            if stored.None? {
              Accept(O.Outsider, Some(O.Stored(next, next, content)));
            }
        }
      }
    }
  }

  ghost predicate Reports(failure: Option<O.Failure>, me: O.Writer) {
    match failure
    case None => me.pc == O.Succeeded
    case Some(e) => me.pc == O.Failed(e) || (e == O.OtherFailure && me.pc == O.Lost)
  }

  /** Read, stamp, update; again on a conflict, at most bound times. */
  method UpdateWithRetry(server: ApiServer, ghost w: nat, desired: DesiredObject, bound: nat, meet: nat -> O.Meeting,
                         ghost call: O.Writer)
    returns (failure: Option<O.Failure>)
    requires bound > 0
    requires call.desired == desired.Value() && call.pc == O.Reading && call.begun == 0 && call.bound == bound
    modifies server, desired
    ensures var m := O.Retry(old(server.State()), w, call, meet);
            server.State() == m.server && desired.Value() == m.me.desired && Reports(failure, m.me)
  {
    ghost var me := call;
    var attempt := 0;
    while true
      invariant attempt < bound
      invariant me.pc == O.Reading && me.begun == attempt && me.bound == bound && me.desired == desired.Value()
      invariant O.Retry(old(server.State()), w, call, meet) == O.Retry(server.State(), w, me, meet)
      decreases bound - attempt
    {
      server.OthersAct(meet(attempt).before);
      var existing := server.Get(meet(attempt).readFault);
      ghost var read := O.ReadMove(server.State(), me, meet(attempt).readFault);
      if existing.Err? {
        return Some(existing.error);
      }
      desired.version := existing.value.version;
      desired.uid := existing.value.uid;
      server.OthersAct(meet(attempt).between);
      ghost var wrote := O.WriteMove(server.State(), w, read, meet(attempt).writeFate);
      failure := server.Update(O.Call(w), desired, meet(attempt).writeFate);
      assert server.State() == wrote.server;
      attempt := attempt + 1;
      me := wrote.me;
      if failure != Some(O.Conflict) || attempt == bound {
        return;
      }
    }
  }

  /** apply and CreateOrUpdateTLSSecret: create, and update with retry if the object exists. */
  method Apply(server: ApiServer, ghost w: nat, desired: DesiredObject, bound: nat, createFate: O.Fate, meet: nat -> O.Meeting)
    returns (failure: Option<O.Failure>)
    requires bound > 0
    modifies server, desired
    ensures var m := O.Apply(old(server.State()), w, old(desired.Value()), bound, createFate, meet);
            server.State() == m.server && desired.Value() == m.me.desired && Reports(failure, m.me)
  {
    ghost var call := O.NewCall(server.State(), desired.Value(), bound, true);
    ghost var created := O.CreateMove(server.State(), w, call, createFate);
    failure := server.Create(O.Call(w), desired.content, createFate);
    if failure != Some(O.AlreadyExists) {
      return;
    }
    failure := UpdateWithRetry(server, w, desired, bound, meet, created.me);
  }
}
