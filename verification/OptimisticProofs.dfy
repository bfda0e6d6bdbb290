/** What concurrent read-modify-write with retry guarantees, however the calls and outsiders interleave. */
module OptimisticProofs {
  import opened Basics
  import opened Optimistic

  /** The object after the first k changes, started from first. */
  function ObjectAt(first: Option<Stored>, history: seq<Change>, k: nat): Option<Stored>
    requires k <= |history|
  {
    if k == 0 then first else history[k - 1].after
  }

  /** Each change starts from the result of the previous one, and every state of the object has a version of its own. */
  ghost predicate ServerSound(first: Option<Stored>, s: Server) {
    && s.stored == ObjectAt(first, s.history, |s.history|)
    && (forall k :: 0 <= k < |s.history| ==> Linked(first, s.history, k))
    && (forall k :: 0 <= k <= |s.history| ==> VersionBelow(ObjectAt(first, s.history, k), s.next))
    && (forall j, k :: 0 <= j < k <= |s.history| ==> Older(ObjectAt(first, s.history, j), ObjectAt(first, s.history, k)))
  }

  /** Change k was made to what change k - 1 had left. */
  predicate Linked(first: Option<Stored>, history: seq<Change>, k: nat)
    requires k < |history|
  {
    history[k].before == ObjectAt(first, history, k)
  }

  predicate VersionBelow(a: Option<Stored>, next: nat) {
    a.Some? ==> a.value.version < next
  }

  predicate Older(a: Option<Stored>, b: Option<Stored>) {
    a.Some? && b.Some? ==> a.value.version < b.value.version
  }

  ghost predicate NotBy(history: seq<Change>, w: nat) {
    forall k :: 0 <= k < |history| ==> history[k].author != Call(w)
  }

  /** The one change a successful call made: the last step of its last attempt, on exactly the object it had read. */
  ghost predicate InstalledOnce(history: seq<Change>, w: nat, me: Writer, i: nat) {
    && i < |history|
    && history[i].author == Call(w)
    && (forall k :: 0 <= k < |history| && history[k].author == Call(w) ==> k == i)
    && history[i].after.Some? && history[i].after.value.content == me.desired.content
    && (me.begun == 0 ==> history[i].before == None)
    && (me.begun > 0 ==>
          && i == me.mark
          && history[i].before.Some?
          && history[i].before.value.version == me.desired.version
          && history[i].before.value.uid == me.desired.uid
          && history[i].after.value.uid == me.desired.uid)
  }

  /** Every conflict has its own foreign change: to the object its attempt had read, after that read and before its write,
      and so before the next attempt's read. */
  ghost predicate Blames(history: seq<Change>, w: nat, me: Writer) {
    && (forall k :: 0 <= k < |me.refused| ==>
          && me.start + k <= me.refused[k].read < me.refused[k].write <= |history|
          && history[me.refused[k].read].author != Call(w)
          && history[me.refused[k].read].before.Some?)
    && (forall j, k :: 0 <= j < k < |me.refused| ==> me.refused[j].write <= me.refused[k].read)
  }

  /** The refused write found the object, under another version than the attempt had read. */
  ghost predicate FoundOther(first: Option<Stored>, history: seq<Change>, r: Refusal) {
    && r.read < r.write <= |history|
    && ObjectAt(first, history, r.read).Some? && ObjectAt(first, history, r.write).Some?
    && ObjectAt(first, history, r.read).value.version != ObjectAt(first, history, r.write).value.version
  }

  ghost predicate CallSound(first: Option<Stored>, history: seq<Change>, w: nat, me: Writer) {
    && me.start <= |history| && me.begun <= me.bound && me.bound > 0
    && Blames(history, w, me)
    && (forall k :: 0 <= k < |me.refused| ==> FoundOther(first, history, me.refused[k]))
    && (match me.pc
        case Creating => me.begun == 0 && me.refused == [] && NotBy(history, w)
        case Reading => me.begun == |me.refused| < me.bound && NotBy(history, w)
        case Writing =>
          && me.begun == |me.refused| + 1 && NotBy(history, w)
          && me.start + |me.refused| <= me.mark <= |history|
          && (forall k :: 0 <= k < |me.refused| ==> me.refused[k].write <= me.mark)
          && ObjectAt(first, history, me.mark).Some?
          && ObjectAt(first, history, me.mark).value.version == me.desired.version
          && ObjectAt(first, history, me.mark).value.uid == me.desired.uid
        case Succeeded => exists i: nat :: InstalledOnce(history, w, me, i)
        case Lost => exists i: nat :: InstalledOnce(history, w, me, i)
        case Failed(why) => NotBy(history, w) && (why == Conflict ==> |me.refused| == me.bound))
  }

  /** Number of accepted changes made by modelled calls. */
  function Installs(history: seq<Change>): nat {
    if history == [] then 0
    else Installs(history[..|history| - 1]) + if history[|history| - 1].author.Call? then 1 else 0
  }

  /** The call has changed the object. */
  predicate Landed(me: Writer) {
    me.pc == Succeeded || me.pc == Lost
  }

  function Winners(calls: map<nat, Writer>): set<nat> {
    set w | w in calls && Landed(calls[w])
  }

  ghost predicate Inv(first: Option<Stored>, x: System) {
    && ServerSound(first, x.server)
    && (forall w :: w in x.calls ==> CallSound(first, x.server.history, w, x.calls[w]))
    && (forall k :: 0 <= k < |x.server.history| && x.server.history[k].author.Call? ==> x.server.history[k].author.w in x.calls)
    && Installs(x.server.history) == |Winners(x.calls)|
  }

  // ---- The server

  /** An update is accepted exactly on the stored version and uid; it stores the whole desired content, under the same uid
      and a new version, and records the change. */
  lemma UpdateIff(s: Server, author: Author, d: Desired)
    ensures var r := ServerUpdate(s, author, d);
            && (r.Ok? <==> s.stored.Some? && s.stored.value.version == d.version && s.stored.value.uid == d.uid)
            && (r == Err(NotFound) <==> s.stored.None?)
            && (r.Err? && s.stored.Some? ==> r.error == Conflict)
            && (r.Ok? ==> r.value.stored == Some(Stored(s.next, d.uid, d.content)) && r.value.next > s.next
                          && r.value.history == s.history + [Change(author, s.stored, r.value.stored)])
  {
  }

  /** A create is accepted exactly when there is no object. */
  lemma CreateIff(s: Server, author: Author, content: Content)
    ensures var r := ServerCreate(s, author, content);
            && (r.Ok? <==> s.stored.None?)
            && (r.Err? ==> r.error == AlreadyExists)
            && (r.Ok? ==> r.value.stored.Some? && r.value.stored.value.content == content
                          && r.value.stored.value.version == s.next && r.value.next > s.next
                          && r.value.history == s.history + [Change(author, None, r.value.stored)])
  {
  }

  // ---- One accepted change

  lemma AcceptSound(first: Option<Stored>, s: Server, author: Author, after: Option<Stored>)
    requires ServerSound(first, s) && (after.Some? ==> after.value.version == s.next)
    ensures ServerSound(first, Accept(s, author, after))
  {
    var t := Accept(s, author, after);
    forall k | 0 <= k <= |s.history|
      ensures ObjectAt(first, t.history, k) == ObjectAt(first, s.history, k)
      ensures VersionBelow(ObjectAt(first, t.history, k), t.next)
      ensures Older(ObjectAt(first, t.history, k), after)
    {
      assert VersionBelow(ObjectAt(first, s.history, k), s.next);
    }
    forall k | 0 <= k < |t.history| ensures Linked(first, t.history, k) {
      if k < |s.history| {
        assert Linked(first, s.history, k);
      }
    }
    assert ObjectAt(first, t.history, |t.history|) == after;
    forall j, k | 0 <= j < k <= |t.history| ensures Older(ObjectAt(first, t.history, j), ObjectAt(first, t.history, k)) {
      if k <= |s.history| {
        assert Older(ObjectAt(first, s.history, j), ObjectAt(first, s.history, k));
      }
    }
  }

  lemma InstallsAppend(history: seq<Change>, c: Change)
    ensures Installs(history + [c]) == Installs(history) + if c.author.Call? then 1 else 0
  {
  }

  /** A change by somebody else keeps a call's books. */
  lemma OthersChange(first: Option<Stored>, history: seq<Change>, w: nat, me: Writer, c: Change)
    requires CallSound(first, history, w, me) && c.author != Call(w)
    ensures CallSound(first, history + [c], w, me)
  {
    var after := history + [c];
    if Landed(me) {
      var i: nat :| InstalledOnce(history, w, me, i);
      assert InstalledOnce(after, w, me, i);
    }
    assert Blames(after, w, me);
    if me.pc == Writing {
      assert ObjectAt(first, after, me.mark) == ObjectAt(first, history, me.mark);
    }
  }

  /** A call that read at its mark finds the same version only if nothing changed since. */
  lemma SameVersionSameState(first: Option<Stored>, s: Server, w: nat, me: Writer)
    requires ServerSound(first, s) && CallSound(first, s.history, w, me) && me.pc == Writing
    ensures s.stored.Some? && s.stored.value.version == me.desired.version && s.stored.value.uid == me.desired.uid
            <==> me.mark == |s.history|
  {
  }

  lemma CreateSound(first: Option<Stored>, s: Server, w: nat, me: Writer, fate: Fate)
    requires ServerSound(first, s) && CallSound(first, s.history, w, me)
    ensures var m := CreateMove(s, w, me, fate);
            ServerSound(first, m.server) && CallSound(first, m.server.history, w, m.me)
  {
    var m := CreateMove(s, w, me, fate);
    if m.server != s {
      AcceptSound(first, s, Call(w), m.server.stored);
      assert InstalledOnce(m.server.history, w, m.me, |s.history|);
    }
  }

  lemma ReadSound(first: Option<Stored>, s: Server, w: nat, me: Writer, fault: bool)
    requires ServerSound(first, s) && CallSound(first, s.history, w, me)
    ensures CallSound(first, s.history, w, ReadMove(s, me, fault))
  {
    var n := ReadMove(s, me, fault);
    if n != me {
      assert Blames(s.history, w, n);
      StartBound(s.history, w, me);
    }
  }

  lemma StartBound(history: seq<Change>, w: nat, me: Writer)
    requires Blames(history, w, me) && me.start <= |history|
    ensures me.start + |me.refused| <= |history|
  {
    if me.refused != [] {
      assert me.start + (|me.refused| - 1) <= me.refused[|me.refused| - 1].read;
    }
  }

  /** The accepted write of an attempt. */
  lemma WinSound(first: Option<Stored>, s: Server, w: nat, me: Writer)
    requires ServerSound(first, s) && CallSound(first, s.history, w, me) && me.pc == Writing && me.mark == |s.history|
    ensures var t := Accept(s, Call(w), Some(Stored(s.next, me.desired.uid, me.desired.content)));
            ServerSound(first, t) && CallSound(first, t.history, w, me.(pc := Succeeded))
            && CallSound(first, t.history, w, me.(pc := Lost))
  {
    var t := Accept(s, Call(w), Some(Stored(s.next, me.desired.uid, me.desired.content)));
    AcceptSound(first, s, Call(w), t.stored);
    assert s.stored == ObjectAt(first, s.history, me.mark);
    assert InstalledOnce(t.history, w, me.(pc := Succeeded), |s.history|);
    assert InstalledOnce(t.history, w, me.(pc := Lost), |s.history|);
  }

  /** The refused write of an attempt blames the first change after its read. */
  lemma ConflictSound(first: Option<Stored>, history: seq<Change>, w: nat, me: Writer)
    requires CallSound(first, history, w, me) && me.pc == Writing && me.mark < |history|
    requires Linked(first, history, me.mark) && FoundOther(first, history, Refusal(me.mark, |history|))
    ensures CallSound(first, history, w, me.(refused := me.refused + [Refusal(me.mark, |history|)],
                                             pc := if me.begun < me.bound then Reading else Failed(Conflict)))
  {
  }

  lemma WriteSound(first: Option<Stored>, s: Server, w: nat, me: Writer, fate: Fate)
    requires ServerSound(first, s) && CallSound(first, s.history, w, me)
    ensures var m := WriteMove(s, w, me, fate);
            ServerSound(first, m.server) && CallSound(first, m.server.history, w, m.me)
  {
    if me.pc == Writing {
      SameVersionSameState(first, s, w, me);
      if me.mark == |s.history| {
        WinSound(first, s, w, me);
      } else if s.stored.Some? && fate.Answered? {
        assert Linked(first, s.history, me.mark);
        assert Older(ObjectAt(first, s.history, me.mark), ObjectAt(first, s.history, |s.history|));
        ConflictSound(first, s.history, w, me);
      }
    }
  }

  // ---- Every event keeps the invariant

  /** A move of one call that changes nothing on the server and does not finish it successfully. */
  lemma QuietMoveKeeps(first: Option<Stored>, x: System, w: nat, me: Writer)
    requires Inv(first, x) && w in x.calls
    requires CallSound(first, x.server.history, w, me)
    requires Landed(me) <==> Landed(x.calls[w])
    ensures Inv(first, Put(x, w, Moved(x.server, me)))
  {
    assert Winners(x.calls[w := me]) == Winners(x.calls);
  }

  /** A move of one call that changes the object and succeeds. */
  lemma WinningMoveKeeps(first: Option<Stored>, x: System, w: nat, after: Option<Stored>, me: Writer)
    requires Inv(first, x) && w in x.calls
    requires ServerSound(first, Accept(x.server, Call(w), after))
    requires CallSound(first, Accept(x.server, Call(w), after).history, w, me)
    requires Landed(me) && !Landed(x.calls[w])
    ensures Inv(first, Put(x, w, Moved(Accept(x.server, Call(w), after), me)))
  {
    OneMoreWinner(x, w, after, me);
    CallsStaySound(first, x, w, after);
  }

  lemma OneMoreWinner(x: System, w: nat, after: Option<Stored>, me: Writer)
    requires Installs(x.server.history) == |Winners(x.calls)|
    requires w in x.calls && Landed(me) && !Landed(x.calls[w])
    ensures Installs(Accept(x.server, Call(w), after).history) == |Winners(x.calls[w := me])|
  {
    InstallsAppend(x.server.history, Change(Call(w), x.server.stored, after));
    assert Winners(x.calls[w := me]) == Winners(x.calls) + {w} && w !in Winners(x.calls);
  }

  lemma CallsStaySound(first: Option<Stored>, x: System, w: nat, after: Option<Stored>)
    requires forall v :: v in x.calls ==> CallSound(first, x.server.history, v, x.calls[v])
    ensures forall v :: v in x.calls && v != w ==>
              CallSound(first, Accept(x.server, Call(w), after).history, v, x.calls[v])
  {
    forall v | v in x.calls && v != w
      ensures CallSound(first, Accept(x.server, Call(w), after).history, v, x.calls[v])
    {
      OthersChange(first, x.server.history, v, x.calls[v], Change(Call(w), x.server.stored, after));
    }
  }

  lemma CreateKeeps(first: Option<Stored>, x: System, w: nat, fate: Fate)
    requires Inv(first, x) && w in x.calls
    ensures Inv(first, Put(x, w, CreateMove(x.server, w, x.calls[w], fate)))
  {
    var me := x.calls[w];
    var m := CreateMove(x.server, w, me, fate);
    CreateSound(first, x.server, w, me, fate);
    if m.server == x.server {
      QuietMoveKeeps(first, x, w, m.me);
    } else {
      WinningMoveKeeps(first, x, w, m.server.stored, m.me);
    }
  }

  lemma WriteKeeps(first: Option<Stored>, x: System, w: nat, fate: Fate)
    requires Inv(first, x) && w in x.calls
    ensures Inv(first, Put(x, w, WriteMove(x.server, w, x.calls[w], fate)))
  {
    var me := x.calls[w];
    var m := WriteMove(x.server, w, me, fate);
    WriteSound(first, x.server, w, me, fate);
    if m.server == x.server {
      QuietMoveKeeps(first, x, w, m.me);
    } else {
      WinningMoveKeeps(first, x, w, m.server.stored, m.me);
    }
  }

  lemma OutsideKeeps(first: Option<Stored>, x: System, op: OutsideOp)
    requires Inv(first, x)
    ensures Inv(first, Step(x, OutsideE(op)))
  {
    var y := Step(x, OutsideE(op));
    if y != x {
      var c := Change(Outsider, x.server.stored, y.server.stored);
      assert y.server == Accept(x.server, Outsider, y.server.stored);
      AcceptSound(first, x.server, Outsider, y.server.stored);
      InstallsAppend(x.server.history, c);
      forall w | w in x.calls ensures CallSound(first, y.server.history, w, y.calls[w]) {
        OthersChange(first, x.server.history, w, x.calls[w], c);
      }
    }
  }

  lemma BeginKeeps(first: Option<Stored>, x: System, w: nat, desired: Desired, bound: nat, creates: bool)
    requires Inv(first, x)
    ensures Inv(first, Step(x, Begin(w, desired, bound, creates)))
  {
    var y := Step(x, Begin(w, desired, bound, creates));
    if y != x {
      assert Winners(y.calls) == Winners(x.calls);
      assert NotBy(x.server.history, w);
      assert CallSound(first, y.server.history, w, y.calls[w]);
    }
  }

  lemma StepKeeps(first: Option<Stored>, x: System, e: Event)
    requires Inv(first, x)
    ensures Inv(first, Step(x, e))
  {
    match e
    case Begin(w, desired, bound, creates) => BeginKeeps(first, x, w, desired, bound, creates);
    case OutsideE(op) => OutsideKeeps(first, x, op);
    case CreateE(w, fate) => if w in x.calls { CreateKeeps(first, x, w, fate); }
    case WriteE(w, fate) => if w in x.calls { WriteKeeps(first, x, w, fate); }
    case ReadE(w, fault) =>
      if w in x.calls { ReadKeeps(first, x, w, fault); }
  }

  lemma ReadKeeps(first: Option<Stored>, x: System, w: nat, fault: bool)
    requires Inv(first, x) && w in x.calls
    ensures Inv(first, Put(x, w, Moved(x.server, ReadMove(x.server, x.calls[w], fault))))
  {
    ReadSound(first, x.server, w, x.calls[w], fault);
    QuietMoveKeeps(first, x, w, ReadMove(x.server, x.calls[w], fault));
  }

  lemma {:induction false} RunKeeps(first: Option<Stored>, x: System, events: seq<Event>)
    requires Inv(first, x)
    ensures Inv(first, Run(x, events))
    decreases |events|
  {
    if events != [] {
      StepKeeps(first, x, events[0]);
      RunKeeps(first, Step(x, events[0]), events[1..]);
    }
  }

  lemma InitialInv(x: System)
    requires Initial(x)
    ensures Inv(x.server.stored, x)
  {
  }

  /** What a run guarantees about one call. */
  lemma RunSound(x: System, events: seq<Event>, w: nat)
    requires Initial(x) && w in Run(x, events).calls
    ensures var y := Run(x, events);
            ServerSound(x.server.stored, y.server) && CallSound(x.server.stored, y.server.history, w, y.calls[w])
  {
    InitialInv(x);
    RunKeeps(x.server.stored, x, events);
  }

  // ---- What a reader gets from it, for every interleaving

  /** Linearisation: a call that succeeded, or lost only the answer, made exactly one change, which put its
      own content in place of the very object its last attempt had read, under that object's uid, with no other change in
      between. */
  lemma Linearised(x: System, events: seq<Event>, w: nat)
    requires Initial(x)
    requires var y := Run(x, events); w in y.calls && Landed(y.calls[w])
    ensures var y := Run(x, events);
            exists i: nat :: InstalledOnce(y.server.history, w, y.calls[w], i)
                        && y.server.history[i].before == ObjectAt(x.server.stored, y.server.history, i)
  {
    RunSound(x, events, w);
    var y := Run(x, events);
    var i: nat :| InstalledOnce(y.server.history, w, y.calls[w], i);
    assert Linked(x.server.stored, y.server.history, i);
  }

  /** Clean failure: a call that has not succeeded has changed nothing, unless the answer to its last request was lost, and
      then exactly that; and no call makes more attempts than its bound. */
  lemma CleanFailure(x: System, events: seq<Event>, w: nat)
    requires Initial(x) && w in Run(x, events).calls
    ensures var y := Run(x, events);
            && y.calls[w].begun <= y.calls[w].bound
            && (NotBy(y.server.history, w) <==> !Landed(y.calls[w]))
  {
    RunSound(x, events, w);
    var y := Run(x, events);
    if Landed(y.calls[w]) {
      var i: nat :| InstalledOnce(y.server.history, w, y.calls[w], i);
      assert y.server.history[i].author == Call(w);
    }
  }

  /** A create or a write of call w that the server carried out and whose answer was lost. */
  ghost predicate LosesAnswer(x: System, e: Event, w: nat) {
    && (e == CreateE(w, Fails(true)) || e == WriteE(w, Fails(true)))
    && w in x.calls && !Returned(x.calls[w]) && Step(x, e).server != x.server
  }

  lemma LostStep(x: System, e: Event, w: nat)
    requires w in Step(x, e).calls && Step(x, e).calls[w].pc == Lost
    requires w in x.calls ==> x.calls[w].pc != Lost
    ensures LosesAnswer(x, e, w)
  {
  }

  /** An error return hides a change only by such an event: with no lost answer, an error means that nothing was changed. */
  lemma {:induction false} LostOnlyByAnswer(x: System, events: seq<Event>, w: nat)
    requires w in x.calls ==> x.calls[w].pc != Lost
    requires w in Run(x, events).calls && Run(x, events).calls[w].pc == Lost
    ensures exists k :: 0 <= k < |events| && LosesAnswer(Run(x, events[..k]), events[k], w)
    decreases |events|
  {
    var y := Step(x, events[0]);
    if w in y.calls && y.calls[w].pc == Lost {
      LostStep(x, events[0], w);
      assert events[..0] == [] && Run(x, events[..0]) == x;
    } else {
      LostOnlyByAnswer(y, events[1..], w);
      var k :| 0 <= k < |events[1..]| && LosesAnswer(Run(y, events[1..][..k]), events[1..][k], w);
      RunFrom(x, events, k);
      assert events[k + 1] == events[1..][k];
    }
  }

  /** It happens: one call, one lost answer. */
  lemma LostAnswerExample()
    ensures var x := System(Server(Some(Stored(0, 7, "old")), 1, []), map[]);
            var desired := Desired("new", 0, 0);
            var y := Run(x, [Begin(1, desired, 5, false)] + [ReadE(1, false)] + [WriteE(1, Fails(true))]);
            && 1 in y.calls && y.calls[1].pc == Lost && !NotBy(y.server.history, 1)
            && y.server.stored == Some(Stored(1, 7, "new"))
  {
    var x := System(Server(Some(Stored(0, 7, "old")), 1, []), map[]);
    var begin, read, write := Begin(1, Desired("new", 0, 0), 5, false), ReadE(1, false), WriteE(1, Fails(true));
    RunOne(x, begin);
    RunAppend(x, [begin], [read]);
    RunOne(Step(x, begin), read);
    RunAppend(x, [begin] + [read], [write]);
    RunOne(Step(Step(x, begin), read), write);
    var y := Step(Step(Step(x, begin), read), write);
    assert y.server.history[0].author == Call(1);
  }

  lemma RunFrom(x: System, events: seq<Event>, k: nat)
    requires k < |events|
    ensures Run(x, events[..k + 1]) == Run(Step(x, events[0]), events[1..][..k])
  {
    assert events[..k + 1][1..] == events[1..][..k];
  }

  /** Conservation: as many changes by calls as calls that succeeded or lost only the answer, and the stored
      content is always the whole content of whoever changed the object last, or the initial one. */
  lemma Conserved(x: System, events: seq<Event>)
    requires Initial(x)
    ensures var y := Run(x, events);
            var history := y.server.history;
            && Installs(history) == |Winners(y.calls)|
            && (history == [] ==> y.server.stored == x.server.stored)
            && (history != [] ==> y.server.stored == history[|history| - 1].after)
            && (history != [] && history[|history| - 1].author.Call? ==>
                  var w := history[|history| - 1].author.w;
                  && w in y.calls && Landed(y.calls[w])
                  && y.server.stored.Some? && y.server.stored.value.content == y.calls[w].desired.content)
  {
    InitialInv(x);
    RunKeeps(x.server.stored, x, events);
    var y := Run(x, events);
    var history := y.server.history;
    if history != [] && history[|history| - 1].author.Call? {
      var w := history[|history| - 1].author.w;
      assert CallSound(x.server.stored, history, w, y.calls[w]);
      assert !NotBy(history, w);
      var i: nat :| InstalledOnce(history, w, y.calls[w], i);
      assert i == |history| - 1;
    }
  }

  /** A write is refused exactly because of a foreign change to the object it had read. */
  lemma RefusedWrite(x: System, events: seq<Event>, w: nat)
    requires Initial(x)
    requires var y := Run(x, events);
             w in y.calls && y.calls[w].pc == Writing && y.server.stored.Some?
    ensures var y := Run(x, events);
            var me, history := y.calls[w], y.server.history;
            var z := Step(y, WriteE(w, Answered));
            if me.mark == |history| then z.calls[w].pc == Succeeded
            else
              && z.server == y.server && z.calls[w].refused == me.refused + [Refusal(me.mark, |history|)]
              && me.mark < |history| && history[me.mark].author != Call(w)
              && history[me.mark].before.Some?
              && history[me.mark].before.value.version == me.desired.version
              && history[me.mark].before.value.uid == me.desired.uid
  {
    RunSound(x, events, w);
    var y := Run(x, events);
    SameVersionSameState(x.server.stored, y.server, w, y.calls[w]);
    if y.calls[w].mark < |y.server.history| {
      assert Linked(x.server.stored, y.server.history, y.calls[w].mark);
    }
  }

  /** How a call goes on after a write, in every reachable state. Only a conflict is tried again, and only within the bound;
      a write that finds no object, or fails, ends the call, with nothing changed unless only the answer was lost. */
  lemma WriteReplies(x: System, events: seq<Event>, w: nat, fate: Fate)
    requires Initial(x)
    requires var y := Run(x, events); w in y.calls && y.calls[w].pc == Writing
    ensures var y := Run(x, events);
            var me, z := y.calls[w], Step(y, WriteE(w, fate));
            var current := me.mark == |y.server.history|;
            && w in z.calls
            && z.calls[w].pc == (match fate
                                 case Fails(applied) => if applied && current then Lost else Failed(OtherFailure)
                                 case Answered =>
                                   if current then Succeeded
                                   else if y.server.stored.None? then Failed(NotFound)
                                   else if me.begun < me.bound then Reading
                                   else Failed(Conflict))
            && (z.server != y.server <==> Landed(z.calls[w]))
            && (z.calls[w].refused != me.refused <==> fate.Answered? && !current && y.server.stored.Some?)
            && z.calls[w].desired == me.desired && z.calls[w].begun == me.begun
  {
    RunSound(x, events, w);
    var y := Run(x, events);
    SameVersionSameState(x.server.stored, y.server, w, y.calls[w]);
    assert |Accept(y.server, Call(w), Some(Stored(0, 0, ""))).history| != |y.server.history|;
  }

  /** How a call goes on after a read: it stamps what it read, and nothing else, on the caller's object; a read that finds no
      object, or fails, ends the call. */
  lemma ReadReplies(x: System, w: nat, fault: bool)
    requires w in x.calls && x.calls[w].pc == Reading
    ensures var me, y := x.calls[w], Step(x, ReadE(w, fault));
            && w in y.calls && y.server == x.server && y.calls[w].begun == me.begun + 1
            && y.calls[w].pc == (if fault then Failed(OtherFailure)
                                 else if x.server.stored.None? then Failed(NotFound) else Writing)
            && y.calls[w].desired == (if fault || x.server.stored.None? then me.desired
                                      else Desired(me.desired.content, x.server.stored.value.version, x.server.stored.value.uid))
            && (y.calls[w].pc == Writing ==> y.calls[w].mark == |x.server.history|)
  {
  }

  /** How create-or-update goes on after its create: an existing object is updated, any other failure ends the call. */
  lemma CreateReplies(x: System, w: nat, fate: Fate)
    requires w in x.calls && x.calls[w].pc == Creating
    ensures var me, y := x.calls[w], Step(x, CreateE(w, fate));
            && w in y.calls && y.calls[w].desired == me.desired
            && y.calls[w].pc == (if x.server.stored.Some? then if fate.Fails? then Failed(OtherFailure) else Reading
                                 else if fate.Answered? then Succeeded
                                 else if fate.applied then Lost else Failed(OtherFailure))
            && (Landed(y.calls[w]) ==>
                  y.server.stored.Some? && y.server.stored.value.content == me.desired.content)
            && (!Landed(y.calls[w]) ==> y.server == x.server)
  {
  }

  /** A call begins with what it was given, at its first request, and changes nothing yet. */
  lemma BeginsAsAsked(x: System, w: nat, desired: Desired, bound: nat, creates: bool)
    requires w !in x.calls && bound > 0
    ensures var y := Step(x, Begin(w, desired, bound, creates));
            && w in y.calls && y.server == x.server
            && y.calls[w].desired == desired && y.calls[w].bound == bound && y.calls[w].begun == 0
            && y.calls[w].start == |x.server.history| && y.calls[w].refused == []
            && y.calls[w].pc == if creates then Creating else Reading
  {
  }

  /** A call keeps the content, the bound and the beginning it was given. */
  lemma {:induction false} KeepsItsContent(x: System, events: seq<Event>, w: nat)
    requires w in x.calls
    ensures var y := Run(x, events);
            && w in y.calls && y.calls[w].desired.content == x.calls[w].desired.content
            && y.calls[w].bound == x.calls[w].bound && y.calls[w].start == x.calls[w].start
    decreases |events|
  {
    if events != [] {
      OneEventKeeps(x, events[0], w);
      KeepsItsContent(Step(x, events[0]), events[1..], w);
    }
  }

  lemma OneEventKeeps(x: System, e: Event, w: nat)
    requires w in x.calls
    ensures var y := Step(x, e);
            && w in y.calls && y.calls[w].desired.content == x.calls[w].desired.content
            && y.calls[w].bound == x.calls[w].bound && y.calls[w].start == x.calls[w].start
  {
  }

  /** Foreign changes since the history had length from. */
  function Foreign(history: seq<Change>, from: nat, w: nat): nat
    decreases |history|
  {
    if |history| <= from then 0
    else Foreign(history[..|history| - 1], from, w) + if history[|history| - 1].author == Call(w) then 0 else 1
  }

  lemma {:induction false} AllForeign(history: seq<Change>, from: nat, w: nat)
    requires NotBy(history, w) && from <= |history|
    ensures Foreign(history, from, w) == |history| - from
    decreases |history|
  {
    if |history| > from {
      AllForeign(history[..|history| - 1], from, w);
    }
  }

  /** Bounded interference: the conflicts of a call are paired with distinct foreign changes, each made to the object that
      attempt had read, between its read and its write, and each refused write found the object under another version; so a
      call gives up on conflicts only after at least as many
      foreign changes as its bound. */
  lemma BoundedInterference(x: System, events: seq<Event>, w: nat)
    requires Initial(x) && w in Run(x, events).calls
    ensures var y := Run(x, events);
            var me := y.calls[w];
            && Blames(y.server.history, w, me)
            && (forall k :: 0 <= k < |me.refused| ==> FoundOther(x.server.stored, y.server.history, me.refused[k]))
            && (me.pc == Failed(Conflict) ==>
                  |me.refused| == me.bound && me.bound <= Foreign(y.server.history, me.start, w))
  {
    InitialInv(x);
    RunKeeps(x.server.stored, x, events);
    var y := Run(x, events);
    var me := y.calls[w];
    assert CallSound(x.server.stored, y.server.history, w, me);
    if me.pc == Failed(Conflict) {
      StartBound(y.server.history, w, me);
      AllForeign(y.server.history, me.start, w);
    }
  }

  // ---- When a call succeeds, and that it returns

  predicate Disturbs(e: Event, w: nat) {
    || (e.CreateE? && e.w == w && e.fate.Fails?)
    || (e.ReadE? && e.w == w && e.fault)
    || (e.WriteE? && e.w == w && e.fate.Fails?)
  }

  /** The requests of call w meet no failure of their own, and the object exists at each of them. */
  ghost predicate Undisturbed(x: System, events: seq<Event>, w: nat)
    decreases |events|
  {
    events == [] ||
    (&& !Disturbs(events[0], w)
     && (events[0] in {ReadE(w, false), WriteE(w, Answered)} ==> x.server.stored.Some?)
     && Undisturbed(Step(x, events[0]), events[1..], w))
  }

  predicate OnlyConflict(me: Writer) {
    me.pc != Lost && (me.pc.Failed? ==> me.pc.why == Conflict)
  }

  lemma {:induction false} OnlyConflictsFail(x: System, events: seq<Event>, w: nat)
    requires Undisturbed(x, events, w)
    requires w in x.calls ==> OnlyConflict(x.calls[w])
    ensures var y := Run(x, events); w in y.calls ==> OnlyConflict(y.calls[w])
    decreases |events|
  {
    if events != [] {
      OnlyConflictsFail(Step(x, events[0]), events[1..], w);
    }
  }

  /** A call that finds the object whenever it looks, and during which fewer foreign changes are made than its bound,
      succeeds once it has returned. */
  lemma FewForeignWritesSucceed(x: System, events: seq<Event>, w: nat)
    requires Initial(x) && Undisturbed(x, events, w)
    requires w in Run(x, events).calls && Returned(Run(x, events).calls[w])
    requires Foreign(Run(x, events).server.history, Run(x, events).calls[w].start, w) < Run(x, events).calls[w].bound
    ensures Run(x, events).calls[w].pc == Succeeded
  {
    OnlyConflictsFail(x, events, w);
    BoundedInterference(x, events, w);
  }

  /** The requests call w can still make. */
  function Remaining(me: Writer): int {
    match me.pc
    case Creating => 2 * (me.bound - me.begun) + 1
    case Reading => 2 * (me.bound - me.begun)
    case Writing => 2 * (me.bound - me.begun) + 1
    case _ => 0
  }

  /** The requests call w makes during the events. */
  function Requests(x: System, events: seq<Event>, w: nat): nat
    decreases |events|
  {
    if events == [] then 0
    else
      var y := Step(x, events[0]);
      (if w in x.calls && x.calls[w] != y.calls[w] then 1 else 0) + Requests(y, events[1..], w)
  }

  lemma MoveSpends(s: Server, w: nat, me: Writer, fault: bool, fate: Fate)
    requires me.begun <= me.bound && (me.pc == Reading ==> me.begun < me.bound) && (me.pc == Creating ==> me.begun == 0)
    ensures var n := CreateMove(s, w, me, fate).me; n != me ==> Remaining(n) < Remaining(me)
    ensures var n := ReadMove(s, me, fault); n != me ==> Remaining(n) < Remaining(me)
    ensures var n := WriteMove(s, w, me, fate).me; n != me ==> Remaining(n) < Remaining(me)
  {
  }

  lemma RequestSpends(first: Option<Stored>, x: System, e: Event, w: nat)
    requires Inv(first, x) && w in x.calls
    ensures var y := Step(x, e);
            w in y.calls && (y.calls[w] != x.calls[w] ==> Remaining(y.calls[w]) < Remaining(x.calls[w]))
  {
    var me := x.calls[w];
    assert me.begun <= me.bound && (me.pc == Reading ==> me.begun < me.bound) && (me.pc == Creating ==> me.begun == 0) by {
      assert CallSound(first, x.server.history, w, me);
    }
    match e
    case CreateE(_, fate) => MoveSpends(x.server, w, me, false, fate);
    case ReadE(_, fault) => MoveSpends(x.server, w, me, fault, Answered);
    case WriteE(_, fate) => MoveSpends(x.server, w, me, false, fate);
    case _ =>
  }

  /** Termination: from any reachable state a call makes no more requests than it has left, which is at most two for each
      attempt and one for an initial create. */
  lemma {:induction false} Terminates(first: Option<Stored>, x: System, events: seq<Event>, w: nat)
    requires Inv(first, x) && w in x.calls
    ensures var y := Run(x, events);
            && w in y.calls
            && Requests(x, events, w) + Remaining(y.calls[w]) <= Remaining(x.calls[w]) <= 2 * x.calls[w].bound + 1
            && Remaining(y.calls[w]) >= 0
    decreases |events|
  {
    assert CallSound(first, x.server.history, w, x.calls[w]);
    if events != [] {
      var y := Step(x, events[0]);
      StepKeeps(first, x, events[0]);
      RequestSpends(first, x, events[0], w);
      Terminates(first, y, events[1..], w);
    }
  }

  // ---- The retry loop is one of these interleavings

  lemma {:induction false} RunAppend(x: System, a: seq<Event>, b: seq<Event>)
    ensures Run(x, a + b) == Run(Run(x, a), b)
    decreases |a|
  {
    if a == [] {
      assert a + b == b;
    } else {
      assert (a + b)[1..] == a[1..] + b;
      RunAppend(Step(x, a[0]), a[1..], b);
    }
  }

  /** What outsiders do, as events. */
  function Others(ops: seq<OutsideOp>): seq<Event> {
    if ops == [] then [] else [OutsideE(ops[0])] + Others(ops[1..])
  }

  /** All that can happen in attempts from to until of call w, in order. */
  function Script(w: nat, meet: nat -> Meeting, from: nat, until: nat): seq<Event>
    decreases until - from
  {
    if from >= until then []
    else Attempt(w, meet(from)) + Script(w, meet, from + 1, until)
  }

  function Attempt(w: nat, m: Meeting): seq<Event> {
    Others(m.before) + [ReadE(w, m.readFault)] + (Others(m.between) + [WriteE(w, m.writeFate)])
  }

  lemma {:induction false} OutsidersRun(x: System, ops: seq<OutsideOp>)
    ensures Run(x, Others(ops)) == x.(server := OutsideAll(x.server, ops))
    decreases |ops|
  {
    if ops != [] {
      OutsidersRun(Step(x, OutsideE(ops[0])), ops[1..]);
      assert Others(ops)[1..] == Others(ops[1..]);
    }
  }

  lemma RunOne(x: System, e: Event)
    ensures Run(x, [e]) == Step(x, e)
  {
  }

  /** One round of the loop: its attempt, as far as it gets. */
  lemma OneAttempt(x: System, w: nat, meet: nat -> Meeting) returns (events: seq<Event>, y: System)
    requires w in x.calls && x.calls[w].pc == Reading && x.calls[w].begun < x.calls[w].bound
    ensures y == Run(x, events) && w in y.calls && y.calls == x.calls[w := y.calls[w]]
    ensures y.calls[w].begun == x.calls[w].begun + 1 && y.calls[w].bound == x.calls[w].bound
    ensures events <= Attempt(w, meet(x.calls[w].begun))
    ensures y.calls[w].pc == Reading ==> events == Attempt(w, meet(x.calls[w].begun))
    ensures Retry(x.server, w, x.calls[w], meet) == Retry(y.server, w, y.calls[w], meet)
  {
    var m := meet(x.calls[w].begun);
    var before := Others(m.before);
    OutsidersRun(x, m.before);
    var x1 := Run(x, before);
    var x2 := Step(x1, ReadE(w, m.readFault));
    RunOne(x1, ReadE(w, m.readFault));
    RunAppend(x, before, [ReadE(w, m.readFault)]);
    events, y := before + [ReadE(w, m.readFault)], x2;
    if x2.calls[w].pc == Writing {
      var writing := Others(m.between) + [WriteE(w, m.writeFate)];
      y := WriteAfterOthers(x2, w, m);
      RunAppend(x, events, writing);
      events := events + writing;
    }
  }

  /** Running the retry loop of one call against outsiders is a run of the system, namely its own attempts in order, as far
      as it makes them; so all that holds of every interleaving holds of it. */
  lemma {:induction false} RetryIsARun(x: System, w: nat, meet: nat -> Meeting) returns (events: seq<Event>)
    requires w in x.calls
    ensures Run(x, events) == Put(x, w, Retry(x.server, w, x.calls[w], meet))
    ensures events <= Script(w, meet, x.calls[w].begun, x.calls[w].bound)
    decreases x.calls[w].bound - x.calls[w].begun
  {
    if x.calls[w].pc != Reading || x.calls[w].begun >= x.calls[w].bound {
      events := [];
      assert x.calls[w := x.calls[w]] == x.calls;
    } else {
      var first, y := OneAttempt(x, w, meet);
      SamePut(x, y, w, Retry(y.server, w, y.calls[w], meet));
      if y.calls[w].pc == Reading {
        var rest := RetryIsARun(y, w, meet);
        RunAppend(x, first, rest);
        events := first + rest;
        ScriptStep(w, meet, x.calls[w].begun, x.calls[w].bound, rest);
      } else {
        events := first;
        SamePut(x, y, w, Moved(y.server, y.calls[w]));
      }
    }
  }

  lemma SamePut(x: System, y: System, w: nat, m: Moved)
    requires w in y.calls && y.calls == x.calls[w := y.calls[w]]
    ensures Put(y, w, m) == Put(x, w, m)
    ensures Put(y, w, Moved(y.server, y.calls[w])) == y
  {
  }

  lemma ScriptStep(w: nat, meet: nat -> Meeting, from: nat, until: nat, rest: seq<Event>)
    requires from < until && rest <= Script(w, meet, from + 1, until)
    ensures Attempt(w, meet(from)) + rest <= Script(w, meet, from, until)
  {
  }

  lemma WriteAfterOthers(x: System, w: nat, m: Meeting) returns (y: System)
    requires w in x.calls
    ensures y == Run(x, Others(m.between) + [WriteE(w, m.writeFate)])
    ensures y == Put(x, w, WriteMove(OutsideAll(x.server, m.between), w, x.calls[w], m.writeFate))
  {
    OutsidersRun(x, m.between);
    y := Step(Run(x, Others(m.between)), WriteE(w, m.writeFate));
    RunOne(Run(x, Others(m.between)), WriteE(w, m.writeFate));
    RunAppend(x, Others(m.between), [WriteE(w, m.writeFate)]);
  }

  /** So is create-or-update, from its Create on. */
  lemma ApplyIsARun(x: System, w: nat, desired: Desired, bound: nat, createFate: Fate, meet: nat -> Meeting)
    returns (events: seq<Event>)
    requires w !in x.calls && bound > 0
    ensures Run(x, events) == Put(x, w, Apply(x.server, w, desired, bound, createFate, meet))
    ensures events <= [Begin(w, desired, bound, true)] + [CreateE(w, createFate)] + Script(w, meet, 0, bound)
    ensures |events| >= 2
  {
    var begin, create := Begin(w, desired, bound, true), CreateE(w, createFate);
    var x1 := Step(x, begin);
    var x2 := Step(x1, create);
    RunOne(x, begin);
    RunOne(x1, create);
    RunAppend(x, [begin], [create]);
    var rest := RetryIsARun(x2, w, meet);
    RunAppend(x, [begin] + [create], rest);
    events := [begin] + [create] + rest;
    var last := Apply(x.server, w, desired, bound, createFate, meet).me;
    assert x2.calls[w := last] == x.calls[w := last];
  }

  /** The loop always comes back with a verdict. */
  lemma {:induction false} RetryReturns(s: Server, w: nat, me: Writer, meet: nat -> Meeting)
    requires me.pc == Reading && me.begun < me.bound
    ensures Returned(Retry(s, w, me, meet).me)
    decreases me.bound - me.begun
  {
    var m := meet(me.begun);
    var s1 := OutsideAll(s, m.before);
    var read := ReadMove(s1, me, m.readFault);
    if read.pc == Writing {
      var wrote := WriteMove(OutsideAll(s1, m.between), w, read, m.writeFate);
      if wrote.me.pc == Reading {
        RetryReturns(wrote.server, w, wrote.me, meet);
      }
    }
  }

  ghost predicate OnlyRewrites(ops: seq<OutsideOp>) {
    forall k :: 0 <= k < |ops| ==> ops[k].Rewrite?
  }

  lemma {:induction false} RewritesKeepObject(s: Server, ops: seq<OutsideOp>)
    requires s.stored.Some? && OnlyRewrites(ops)
    ensures OutsideAll(s, ops).stored.Some?
    decreases |ops|
  {
    if ops != [] {
      assert ops[0].Rewrite?;
      assert forall k :: 0 <= k < |ops[1..]| ==> ops[1..][k] == ops[k + 1];
      RewritesKeepObject(Outside(s, ops[0]), ops[1..]);
    }
  }

  /** One quiet attempt within the bound is enough: if nobody writes between its read and its update, the call succeeds
      by then, however often others rewrote the object before. */
  lemma {:induction false} QuietAttemptSucceeds(s: Server, w: nat, me: Writer, meet: nat -> Meeting, k: nat)
    requires me.pc == Reading && me.begun <= k < me.bound && s.stored.Some? && meet(k).between == []
    requires forall j :: me.begun <= j <= k ==>
               !meet(j).readFault && meet(j).writeFate.Answered? && OnlyRewrites(meet(j).before) && OnlyRewrites(meet(j).between)
    ensures Retry(s, w, me, meet).me.pc == Succeeded
    decreases k - me.begun
  {
    var m := meet(me.begun);
    RewritesKeepObject(s, m.before);
    var s1 := OutsideAll(s, m.before);
    var read := ReadMove(s1, me, m.readFault);
    RewritesKeepObject(s1, m.between);
    var wrote := WriteMove(OutsideAll(s1, m.between), w, read, m.writeFate);
    if wrote.me.pc == Reading {
      QuietAttemptSucceeds(wrote.server, w, wrote.me, meet, k);
    }
  }
}
