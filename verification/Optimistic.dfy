/** One object on an API server that refuses stale updates, and any number of calls that apply to it. */
module Optimistic {
  import opened Basics

  type Content = string

  datatype Stored = Stored(version: nat, uid: nat, content: Content)

  /** Who changed the object: one of the modelled calls, or anybody else. */
  datatype Author = Call(w: nat) | Outsider

  /** One accepted change, with the object before and after it. */
  datatype Change = Change(author: Author, before: Option<Stored>, after: Option<Stored>)

  /** The object, the next resource version, and every change accepted so far. */
  datatype Server = Server(stored: Option<Stored>, next: nat, history: seq<Change>)

  datatype Failure = NotFound | AlreadyExists | Conflict | OtherFailure

  /** How a request that changes the object ends: answered, or failing for another reason than the object's state; the
      server may then have carried it out all the same, and only the answer is lost. */
  datatype Fate = Answered | Fails(applied: bool)

  predicate Applied(fate: Fate) {
    fate.Answered? || fate.applied
  }

  /** Where a call is: about to create, about to read, about to write what it read, or returned. A lost call has returned
      an error although the server carried out its last request; its caller cannot tell it from a failed one. */
  datatype Pc = Creating | Reading | Writing | Succeeded | Failed(why: Failure) | Lost

  /** The caller's object. Its version and uid are stamped in place by each attempt. */
  datatype Desired = Desired(content: Content, version: nat, uid: nat)

  /** An attempt that met a conflict: the lengths of the server's history when it read and when its write was refused. */
  datatype Refusal = Refusal(read: nat, write: nat)

  /** A call in progress: begun counts its attempts; start and mark are the lengths of the server's history when the call
      began and when it last read; refused holds every attempt that met a conflict. */
  datatype Writer = Writer(
    desired: Desired,
    bound: nat,
    pc: Pc,
    begun: nat,
    start: nat,
    mark: nat,
    refused: seq<Refusal>)

  datatype Moved = Moved(server: Server, me: Writer)

  predicate Returned(me: Writer) {
    me.pc.Succeeded? || me.pc.Failed? || me.pc.Lost?
  }

  // ---- The server

  function Accept(s: Server, author: Author, after: Option<Stored>): Server {
    Server(after, s.next + 1, s.history + [Change(author, s.stored, after)])
  }

  /** Create refuses an object that exists; a new object gets a new uid. */
  function ServerCreate(s: Server, author: Author, content: Content): Result<Server, Failure> {
    if s.stored.Some? then Err(AlreadyExists) else Ok(Accept(s, author, Some(Stored(s.next, s.next, content))))
  }

  /** Update refuses a version or uid that is not the stored one. */
  function ServerUpdate(s: Server, author: Author, d: Desired): Result<Server, Failure> {
    if s.stored.None? then Err(NotFound)
    else if s.stored.value.version != d.version || s.stored.value.uid != d.uid then Err(Conflict)
    else Ok(Accept(s, author, Some(Stored(s.next, d.uid, d.content))))
  }

  /** What anybody else may do to the object: write any content, delete it, create it anew. */
  datatype OutsideOp = Rewrite(content: Content) | Delete | Recreate(content: Content)

  function Outside(s: Server, op: OutsideOp): Server {
    match op
    case Rewrite(content) =>
      if s.stored.None? then s else Accept(s, Outsider, Some(Stored(s.next, s.stored.value.uid, content)))
    case Delete => if s.stored.None? then s else Accept(s, Outsider, None)
    case Recreate(content) => var r := ServerCreate(s, Outsider, content); if r.Ok? then r.value else s
  }

  // ---- The moves of a call; fault is a failure of the read, fate how the create or the write ends

  /** A request the server accepts. */
  function Land(s: Server, after: Server, me: Writer, fate: Fate): Moved {
    match fate
    case Answered => Moved(after, me.(pc := Succeeded))
    case Fails(applied) => if applied then Moved(after, me.(pc := Lost)) else Moved(s, me.(pc := Failed(OtherFailure)))
  }

  function CreateMove(s: Server, w: nat, me: Writer, fate: Fate): Moved {
    if me.pc != Creating then Moved(s, me)
    else
      match ServerCreate(s, Call(w), me.desired.content)
      case Ok(after) => Land(s, after, me, fate)
      case Err(_) => Moved(s, me.(pc := if fate.Fails? then Failed(OtherFailure) else Reading))
  }

  function ReadMove(s: Server, me: Writer, fault: bool): Writer {
    if me.pc != Reading then me
    else if fault then me.(begun := me.begun + 1, pc := Failed(OtherFailure))
    else if s.stored.None? then me.(begun := me.begun + 1, pc := Failed(NotFound))
    else
      me.(begun := me.begun + 1, pc := Writing, mark := |s.history|,
          desired := me.desired.(version := s.stored.value.version, uid := s.stored.value.uid))
  }

  function WriteMove(s: Server, w: nat, me: Writer, fate: Fate): Moved {
    if me.pc != Writing then Moved(s, me)
    else
      match ServerUpdate(s, Call(w), me.desired)
      case Ok(after) => Land(s, after, me, fate)
      case Err(e) =>
        if fate.Fails? then Moved(s, me.(pc := Failed(OtherFailure)))
        else if e == NotFound then Moved(s, me.(pc := Failed(NotFound)))
        else
          Moved(s, me.(refused := me.refused + [Refusal(me.mark, |s.history|)],
                       pc := if me.begun < me.bound then Reading else Failed(Conflict)))
  }

  /** A call that begins with Create is apply or CreateOrUpdateTLSSecret; otherwise it is the bare retry. */
  function NewCall(s: Server, desired: Desired, bound: nat, creates: bool): Writer {
    Writer(desired, bound, if creates then Creating else Reading, 0, |s.history|, |s.history|, [])
  }

  // ---- Any interleaving of any number of calls and of outsiders

  datatype System = System(server: Server, calls: map<nat, Writer>)

  datatype Event =
    | Begin(w: nat, desired: Desired, bound: nat, creates: bool)
    | CreateE(w: nat, fate: Fate)
    | ReadE(w: nat, fault: bool)
    | WriteE(w: nat, fate: Fate)
    | OutsideE(op: OutsideOp)

  function Put(x: System, w: nat, m: Moved): System {
    System(m.server, x.calls[w := m.me])
  }

  function Step(x: System, e: Event): System {
    match e
    case Begin(w, desired, bound, creates) =>
      if w in x.calls || bound == 0 then x
      else x.(calls := x.calls[w := NewCall(x.server, desired, bound, creates)])
    case CreateE(w, fate) => if w in x.calls then Put(x, w, CreateMove(x.server, w, x.calls[w], fate)) else x
    case ReadE(w, fault) => if w in x.calls then Put(x, w, Moved(x.server, ReadMove(x.server, x.calls[w], fault))) else x
    case WriteE(w, fate) => if w in x.calls then Put(x, w, WriteMove(x.server, w, x.calls[w], fate)) else x
    case OutsideE(op) => x.(server := Outside(x.server, op))
  }

  function Run(x: System, events: seq<Event>): System
    decreases |events|
  {
    if events == [] then x else Run(Step(x, events[0]), events[1..])
  }

  /** A system before any modelled call: some object or none, nothing recorded. */
  ghost predicate Initial(x: System) {
    && x.calls == map[]
    && x.server.history == []
    && (x.server.stored.Some? ==> x.server.stored.value.version < x.server.next)
  }

  // ---- One call on its own, against given outsiders

  /** What attempt k meets: changes by others before its read and before its write, and failures of its requests. */
  datatype Meeting = Meeting(before: seq<OutsideOp>, readFault: bool, between: seq<OutsideOp>, writeFate: Fate)

  function OutsideAll(s: Server, ops: seq<OutsideOp>): Server
    decreases |ops|
  {
    if ops == [] then s else OutsideAll(Outside(s, ops[0]), ops[1..])
  }

  /** The retry loop from its current attempt on. */
  function Retry(s: Server, w: nat, me: Writer, meet: nat -> Meeting): Moved
    decreases me.bound - me.begun
  {
    if me.pc != Reading || me.begun >= me.bound then Moved(s, me)
    else
      var m := meet(me.begun);
      var s1 := OutsideAll(s, m.before);
      var read := ReadMove(s1, me, m.readFault);
      if read.pc != Writing then Moved(s1, read)
      else
        var wrote := WriteMove(OutsideAll(s1, m.between), w, read, m.writeFate);
        Retry(wrote.server, w, wrote.me, meet)
  }

  /** Create, and if the object exists the retry loop. */
  function Apply(s: Server, w: nat, desired: Desired, bound: nat, createFate: Fate, meet: nat -> Meeting): Moved {
    var created := CreateMove(s, w, NewCall(s, desired, bound, true), createFate);
    Retry(created.server, w, created.me, meet)
  }
}
