/** The handlers run without interruption: the service as an object, and what single calls promise. */
module UploaderService {
  import opened Wrappers
  import opened UploaderTables
  import opened UploaderTasks
  import Numbers

  // How many statements a task has left at most
  function Remaining(task: Task): nat {
    var items := if task.call.Act? && task.call.request.BulkUpload? then |task.call.request.items| else 0;
    match task.pc
    case Start => items + 5
    case InsertSession => 1
    case UpdateSession => 1
    case SelectLaunchpad(_) => items + 4
    case InsertLaunchpad(_) => items + 3
    case InsertItem(_, _, done) => if done < items then items - done else 1
    case SelectMax(_, _) => 2
    case InsertRow(_, _, _) => 1
    case UpdateRows(_, _) => 1
    case SelectRow(_, _) => 2
    case UpdateRow(_, _) => 1
    case Done(_) => 0
  }

  lemma AdvanceShortens(t: Tables, task: Task, cuid: string)
    requires !task.pc.Done?
    ensures Remaining(task.(pc := Advance(t, task, cuid).1)) < Remaining(task)
  {}

  // A task run to its answer with nothing in between
  function Finish(t: Tables, task: Task, cuid: string): (Tables, Response)
    decreases Remaining(task)
  {
    match task.pc
    case Done(response) => (t, response)
    case _ =>
      AdvanceShortens(t, task, cuid);
      Finish(Advance(t, task, cuid).0, task.(pc := Advance(t, task, cuid).1), cuid)
  }

  function Handle(t: Tables, call: Call, cuid: string): (Tables, Response) {
    Finish(t, FirstTask(call), cuid)
  }

  class Uploader {
    var sessions: seq<Session>
    var launchpads: seq<Launchpad>
    var rows: seq<Row>

    constructor ()
      ensures Data() == EMPTY
    {
      sessions, launchpads, rows := [], [], [];
    }

    function Data(): Tables
      reads this
    {
      Tables(sessions, launchpads, rows)
    }

    // POST /create-session
    method CreateSession(address: string, cuid: string) returns (r: Response)
      modifies this
      ensures (Data(), r) == Handle(old(Data()), UploaderTasks.CreateSession(address), cuid)
    {
      ghost var call, t0 := UploaderTasks.CreateSession(address), Data();
      hide Finish;
      FinishStep(t0, FirstTask(call), cuid);
      var existing := SessionOf(sessions, address);
      if existing.Some? {
        FinishDone(t0, call, SessionHash(existing.value.hash), cuid);
        return SessionHash(existing.value.hash);
      }
      FinishStep(t0, Task(call, InsertSession), cuid);
      sessions := sessions + [Session(address, cuid, false)];
      FinishDone(Data(), call, SessionHash(cuid), cuid);
      return SessionHash(cuid);
    }

    // POST /verify-session
    method VerifySession(hash: string, signer: string) returns (r: Response)
      modifies this
      ensures forall cuid :: (Data(), r) == Handle(old(Data()), UploaderTasks.VerifySession(hash, signer), cuid)
    {
      ghost var t0 := Data();
      forall cuid { VerifyHandled(t0, hash, signer, cuid); }
      hide Finish, Handle;
      var session := SessionBy(sessions, hash);
      if session.None? {
        return Refused(404);
      }
      if session.value.address != signer {
        return Refused(403);
      }
      sessions := MarkVerified(sessions, hash);
      return Success;
    }

    // POST /inscription/bulk/upload
    method BulkUpload(session: string, launch: string, items: seq<Item>, cuid: string) returns (r: Response)
      modifies this
      ensures (Data(), r) == Handle(old(Data()), Act(session, UploaderTasks.BulkUpload(launch, items)), cuid)
    {
      ghost var call := Act(session, UploaderTasks.BulkUpload(launch, items));
      ghost var t0 := Data();
      hide Finish, InsertIgnore, VerifiedSession, LaunchpadOf;
      FinishStep(t0, FirstTask(call), cuid);
      var found := VerifiedSession(sessions, session);
      if found.None? {
        FinishDone(t0, call, Refused(403), cuid);
        return Refused(403);
      }
      var address := found.value.address;
      FinishStep(t0, Task(call, SelectLaunchpad(address)), cuid);
      var launchpad := LaunchpadOf(launchpads, launch, address);
      var folder: string;
      if launchpad.None? {
        FinishStep(t0, Task(call, InsertLaunchpad(address)), cuid);
        if exists k :: 0 <= k < |launchpads| && launchpads[k].hash == launch {
          FinishDone(t0, call, ServerError, cuid);
          return ServerError;
        }
        folder := cuid;
        launchpads := launchpads + [Launchpad(launch, address, folder)];
      } else {
        folder := launchpad.value.folder;
      }
      for i := 0 to |items|
        invariant Finish(Data(), Task(call, ItemsFrom(address, folder, items, i)), cuid) == Handle(t0, call, cuid)
      {
        FinishStep(Data(), Task(call, InsertItem(address, folder, i)), cuid);
        if |items[i].filename| > MAX_NAME {
          FinishDone(Data(), call, ServerError, cuid);
          return ServerError;
        }
        rows := InsertIgnore(rows, launch, items[i].tokenId, items[i].filename);
      }
      FinishDone(Data(), call, Urls(folder, items), cuid);
      return Urls(folder, items);
    }

    // POST /inscription/bulk/confirm
    method BulkConfirm(session: string, launch: string, tokenIds: seq<int>) returns (r: Response)
      modifies this
      ensures forall cuid ::
        (Data(), r) == Handle(old(Data()), Act(session, UploaderTasks.BulkConfirm(launch, tokenIds)), cuid)
    {
      ghost var t0 := Data();
      forall cuid { BulkConfirmHandled(t0, session, launch, tokenIds, cuid); }
      hide Finish, Handle;
      var found := VerifiedSession(sessions, session);
      if found.None? {
        return Refused(403);
      }
      var launchpad := LaunchpadOf(launchpads, launch, found.value.address);
      if launchpad.None? {
        return Refused(404);
      }
      rows := MarkUploaded(rows, launch, IdSet(tokenIds));
      return Success;
    }

    // POST /inscription/upload
    method Upload(session: string, launch: string, extension: string, cuid: string) returns (r: Response)
      modifies this
      ensures (Data(), r) == Handle(old(Data()), Act(session, UploaderTasks.Upload(launch, extension)), cuid)
    {
      ghost var call := Act(session, UploaderTasks.Upload(launch, extension));
      ghost var t0 := Data();
      hide Finish, InsertIgnore, RowName, MaxNumber, VerifiedSession, LaunchpadOf;
      FinishStep(t0, FirstTask(call), cuid);
      var found := VerifiedSession(sessions, session);
      if found.None? {
        FinishDone(t0, call, Refused(403), cuid);
        return Refused(403);
      }
      var address := found.value.address;
      FinishStep(t0, Task(call, SelectLaunchpad(address)), cuid);
      var launchpad := LaunchpadOf(launchpads, launch, address);
      var folder: string;
      if launchpad.None? {
        FinishStep(t0, Task(call, InsertLaunchpad(address)), cuid);
        if exists k :: 0 <= k < |launchpads| && launchpads[k].hash == launch {
          FinishDone(t0, call, ServerError, cuid);
          return ServerError;
        }
        folder := cuid;
        launchpads := launchpads + [Launchpad(launch, address, folder)];
      } else {
        folder := launchpad.value.folder;
      }
      FinishStep(Data(), Task(call, SelectMax(address, folder)), cuid);
      var number := MaxNumber(rows, launch).GetOr(0) + 1;
      var name := RowName(number, extension);
      FinishStep(Data(), Task(call, InsertRow(address, folder, number)), cuid);
      if |name| > MAX_NAME {
        FinishDone(Data(), call, ServerError, cuid);
        return ServerError;
      }
      rows := InsertIgnore(rows, launch, number, name);
      FinishDone(Data(), call, OneUrl(folder, number, name), cuid);
      return OneUrl(folder, number, name);
    }

    // POST /inscription/confirm
    method Confirm(session: string, launch: string, tokenId: int) returns (r: Response)
      modifies this
      ensures forall cuid ::
        (Data(), r) == Handle(old(Data()), Act(session, UploaderTasks.Confirm(launch, tokenId)), cuid)
    {
      ghost var t0 := Data();
      forall cuid { ConfirmHandled(t0, session, launch, tokenId, cuid); }
      hide Finish, Handle;
      var found := VerifiedSession(sessions, session);
      if found.None? {
        return Refused(403);
      }
      var launchpad := LaunchpadOf(launchpads, launch, found.value.address);
      if launchpad.None? {
        return Refused(404);
      }
      if !HasRow(rows, launch, tokenId) {
        return Refused(404);
      }
      rows := MarkUploaded(rows, launch, {tokenId});
      return Success;
    }
  }

  lemma FinishStep(t: Tables, task: Task, cuid: string)
    requires !task.pc.Done?
    ensures Finish(t, task, cuid) == Finish(Advance(t, task, cuid).0, task.(pc := Advance(t, task, cuid).1), cuid)
  {
    hide Advance;
  }

  lemma FinishDone(t: Tables, call: Call, response: Response, cuid: string)
    ensures Finish(t, Task(call, Done(response)), cuid) == (t, response)
  {}

  lemma {:induction false} FinishIsRun(c: Config, i: nat, cuid: string) returns (events: seq<Event>)
    requires i < |c.tasks| && (!c.tasks[i].pc.Done? ==> IsFresh(c.tables, cuid))
    ensures var (t, r) := Finish(c.tables, c.tasks[i], cuid);
      Run(c, events) == Config(t, c.tasks[i := Task(c.tasks[i].call, Done(r))])
    decreases Remaining(c.tasks[i])
  {
    var task := c.tasks[i];
    if task.pc.Done? {
      events := [];
      assert c.tasks[i := task] == c.tasks;
    } else {
      AdvanceShortens(c.tables, task, cuid);
      StaysFresh(c.tables, task, cuid);
      FinishStep(c.tables, task, cuid);
      hide Advance, Finish;
      var next := Step(c, Move(i, cuid));
      var rest := FinishIsRun(next, i, cuid);
      events := [Move(i, cuid)] + rest;
      assert events[1..] == rest;
    }
  }

  lemma StaysFresh(t: Tables, task: Task, cuid: string)
    requires IsFresh(t, cuid)
    ensures var (t', pc) := Advance(t, task, cuid); !pc.Done? ==> IsFresh(t', cuid)
  {
    hide InsertIgnore, RowName;
  }

  // A handler that runs without interruption is one of the runs of the tasks: from any point, its call can come in,
  // take its statements one after the other and be answered as Handle says, leaving all other tasks as they are.
  lemma HandleIsRun(c: Config, call: Call, cuid: string) returns (events: seq<Event>)
    requires IsFresh(c.tables, cuid)
    ensures var (t, r) := Handle(c.tables, call, cuid);
      Run(c, events) == Config(t, c.tasks + [Task(call, Done(r))])
  {
    hide Finish, Step;
    var arrived := Config(c.tables, c.tasks + [FirstTask(call)]);
    var rest := FinishIsRun(arrived, |c.tasks|, cuid);
    events := [Arrive(call)] + rest;
    assert events[1..] == rest;
    assert Step(c, Arrive(call)) == arrived by { Arrives(c, call); }
  }

  lemma Arrives(c: Config, call: Call)
    ensures Step(c, Arrive(call)) == Config(c.tables, c.tasks + [FirstTask(call)])
  {}

  // ---- single calls ----

  lemma CreateHandled(t: Tables, address: string, cuid: string)
    ensures Handle(t, CreateSession(address), cuid)
         == match SessionOf(t.sessions, address)
            case Some(s) => (t, SessionHash(s.hash))
            case None => (t.(sessions := t.sessions + [Session(address, cuid, false)]), SessionHash(cuid))
  {
    var call := CreateSession(address);
    hide Finish;
    FinishStep(t, FirstTask(call), cuid);
    match SessionOf(t.sessions, address)
    case Some(s) => FinishDone(t, call, SessionHash(s.hash), cuid);
    case None =>
      FinishStep(t, Task(call, InsertSession), cuid);
      FinishDone(t.(sessions := t.sessions + [Session(address, cuid, false)]), call, SessionHash(cuid), cuid);
  }

  function Access(t: Tables, session: string, launch: string): Option<Launchpad> {
    match VerifiedSession(t.sessions, session)
    case None => None
    case Some(s) => LaunchpadOf(t.launchpads, launch, s.address)
  }

  // What both confirms answer to a caller without access
  function Denied(t: Tables, session: string): Response {
    Refused(if VerifiedSession(t.sessions, session).None? then 403 else 404)
  }

  lemma VerifyHandled(t: Tables, hash: string, signer: string, cuid: string)
    ensures Handle(t, VerifySession(hash, signer), cuid)
         == match SessionBy(t.sessions, hash)
            case None => (t, Refused(404))
            case Some(s) => if s.address != signer then (t, Refused(403))
                            else (t.(sessions := MarkVerified(t.sessions, hash)), Success)
  {
    var call := VerifySession(hash, signer);
    hide Finish;
    FinishStep(t, FirstTask(call), cuid);
    match SessionBy(t.sessions, hash)
    case None => FinishDone(t, call, Refused(404), cuid);
    case Some(s) =>
      if s.address != signer {
        FinishDone(t, call, Refused(403), cuid);
      } else {
        FinishStep(t, Task(call, UpdateSession), cuid);
        FinishDone(t.(sessions := MarkVerified(t.sessions, hash)), call, Success, cuid);
      }
  }

  lemma BulkConfirmHandled(t: Tables, session: string, launch: string, tokenIds: seq<int>, cuid: string)
    ensures Handle(t, Act(session, BulkConfirm(launch, tokenIds)), cuid)
         == if Access(t, session, launch).None? then (t, Denied(t, session))
            else (t.(rows := MarkUploaded(t.rows, launch, IdSet(tokenIds))), Success)
  {
    var call := Act(session, BulkConfirm(launch, tokenIds));
    hide Finish;
    FinishStep(t, FirstTask(call), cuid);
    match VerifiedSession(t.sessions, session)
    case None => FinishDone(t, call, Refused(403), cuid);
    case Some(s) =>
      FinishStep(t, Task(call, SelectLaunchpad(s.address)), cuid);
      match LaunchpadOf(t.launchpads, launch, s.address)
      case None => FinishDone(t, call, Refused(404), cuid);
      case Some(l) =>
        FinishStep(t, Task(call, UpdateRows(s.address, l.folder)), cuid);
        FinishDone(t.(rows := MarkUploaded(t.rows, launch, IdSet(tokenIds))), call, Success, cuid);
  }

  lemma ConfirmHandled(t: Tables, session: string, launch: string, tokenId: int, cuid: string)
    ensures Handle(t, Act(session, Confirm(launch, tokenId)), cuid)
         == if Access(t, session, launch).None? then (t, Denied(t, session))
            else if !HasRow(t.rows, launch, tokenId) then (t, Refused(404))
            else (t.(rows := MarkUploaded(t.rows, launch, {tokenId})), Success)
  {
    var call := Act(session, Confirm(launch, tokenId));
    hide Finish, HasRow;
    FinishStep(t, FirstTask(call), cuid);
    match VerifiedSession(t.sessions, session)
    case None => FinishDone(t, call, Refused(403), cuid);
    case Some(s) =>
      FinishStep(t, Task(call, SelectLaunchpad(s.address)), cuid);
      match LaunchpadOf(t.launchpads, launch, s.address)
      case None => FinishDone(t, call, Refused(404), cuid);
      case Some(l) =>
        FinishStep(t, Task(call, SelectRow(s.address, l.folder)), cuid);
        if HasRow(t.rows, launch, tokenId) {
          FinishStep(t, Task(call, UpdateRow(s.address, l.folder)), cuid);
          FinishDone(t.(rows := MarkUploaded(t.rows, launch, {tokenId})), call, Success, cuid);
        } else {
          FinishDone(t, call, Refused(404), cuid);
        }
  }

  // A verified session of the launch's creator
  ghost predicate Owns(t: Tables, session: string, launch: string) {
    exists s, l :: s in t.sessions && s.hash == session && s.verified
      && l in t.launchpads && l.hash == launch && l.creator == s.address
  }

  lemma AccessExactly(t: Tables, session: string, launch: string)
    requires UniqueSessions(t.sessions)
    ensures Access(t, session, launch).Some? <==> Owns(t, session, launch)
    ensures Denied(t, session) == Refused(403) <==> forall s :: s in t.sessions && s.hash == session ==> !s.verified
    ensures Denied(t, session) == Refused(403) || Denied(t, session) == Refused(404)
  {
    var found := VerifiedSession(t.sessions, session);
    if found.Some? {
      OneVerified(t.sessions, session, found.value);
      var l := LaunchpadOf(t.launchpads, launch, found.value.address);
      if l.Some? { assert l.value in t.launchpads && l.value.creator == found.value.address; }
    }
  }

  // The two confirms are for the launch's creator, a single one for an id that is there, and mark what they name and
  // nothing else.
  ghost predicate Marked(t: Tables, t': Tables, launch: string, numbers: seq<int>) {
    && t'.sessions == t.sessions && t'.launchpads == t.launchpads && |t'.rows| == |t.rows|
    && forall k :: 0 <= k < |t.rows| ==>
         t'.rows[k] == if t.rows[k].launch == launch && t.rows[k].number in numbers then t.rows[k].(uploaded := true)
                       else t.rows[k]
  }

  lemma ConfirmIsAnsweredExactly(t: Tables, session: string, launch: string, tokenId: int, cuid: string)
    requires UniqueSessions(t.sessions)
    ensures var (t', r) := Handle(t, Act(session, Confirm(launch, tokenId)), cuid);
      && (r == Success <==> Owns(t, session, launch)
                            && exists row :: row in t.rows && row.launch == launch && row.number == tokenId)
      && (r == Refused(403) <==> forall s :: s in t.sessions && s.hash == session ==> !s.verified)
      && (r == Success || r == Refused(403) || r == Refused(404))
      && (if r == Success then Marked(t, t', launch, [tokenId]) else t' == t)
  {
    ConfirmHandled(t, session, launch, tokenId, cuid);
    AccessExactly(t, session, launch);
    hide Handle, Access, Denied, Owns;
  }

  lemma BulkConfirmIsAnsweredExactly(t: Tables, session: string, launch: string, tokenIds: seq<int>, cuid: string)
    requires UniqueSessions(t.sessions)
    ensures var (t', r) := Handle(t, Act(session, BulkConfirm(launch, tokenIds)), cuid);
      && (r == Success <==> Owns(t, session, launch))
      && (r == Refused(403) <==> forall s :: s in t.sessions && s.hash == session ==> !s.verified)
      && (r == Success || r == Refused(403) || r == Refused(404))
      && (if r == Success then Marked(t, t', launch, tokenIds) else t' == t)
  {
    BulkConfirmHandled(t, session, launch, tokenIds, cuid);
    AccessExactly(t, session, launch);
    hide Handle, Access, Denied, Owns;
  }

  // A session is verified by its own address, and by nothing else.
  lemma VerifyIsAnsweredExactly(t: Tables, hash: string, signer: string, cuid: string)
    requires UniqueSessions(t.sessions)
    ensures var (t', r) := Handle(t, VerifySession(hash, signer), cuid);
      && (r == Success <==> exists s :: s in t.sessions && s.hash == hash && s.address == signer)
      && (r == Refused(404) <==> forall s :: s in t.sessions ==> s.hash != hash)
      && (r == Success || r == Refused(403) || r == Refused(404))
      && t'.launchpads == t.launchpads && t'.rows == t.rows && |t'.sessions| == |t.sessions|
      && forall k :: 0 <= k < |t.sessions| ==>
           t'.sessions[k] == if r == Success && t.sessions[k].hash == hash then t.sessions[k].(verified := true)
                             else t.sessions[k]
  {
    VerifyHandled(t, hash, signer, cuid);
    var found := SessionBy(t.sessions, hash);
    if found.Some? {
      OneVerified(t.sessions, hash, found.value);
    }
    hide Handle;
  }

  // Confirms sent one after the other, whatever they are answered
  function ConfirmEach(t: Tables, session: string, launch: string, tokenIds: seq<int>, cuid: string): Tables
    decreases tokenIds
  {
    if tokenIds == [] then t
    else ConfirmEach(Handle(t, Act(session, Confirm(launch, tokenIds[0])), cuid).0,
                     session, launch, tokenIds[1..], cuid)
  }

  lemma MarkNothing(rows: seq<Row>, launch: string, numbers: set<int>)
    requires forall n :: n in numbers ==> !HasRow(rows, launch, n)
    ensures MarkUploaded(rows, launch, numbers) == rows
  {
    var r := MarkUploaded(rows, launch, numbers);
    forall k | 0 <= k < |rows| ensures r[k] == rows[k] {
      if rows[k].launch == launch && rows[k].number in numbers { assert HasRow(rows, launch, rows[k].number); }
    }
  }

  lemma MarkInTurn(rows: seq<Row>, launch: string, a: set<int>, b: set<int>)
    ensures MarkUploaded(MarkUploaded(rows, launch, a), launch, b) == MarkUploaded(rows, launch, a + b)
  {}

  lemma {:induction false} ConfirmEachMarks(t: Tables, session: string, launch: string, tokenIds: seq<int>,
                                            cuid: string)
    ensures ConfirmEach(t, session, launch, tokenIds, cuid)
         == if Access(t, session, launch).None? then t
            else t.(rows := MarkUploaded(t.rows, launch, IdSet(tokenIds)))
    decreases tokenIds
  {
    hide Handle, HasRow;
    if tokenIds == [] {
      MarkNothing(t.rows, launch, IdSet(tokenIds));
    } else {
      var n, rest := tokenIds[0], tokenIds[1..];
      ConfirmHandled(t, session, launch, n, cuid);
      var t1 := Handle(t, Act(session, Confirm(launch, n)), cuid).0;
      ConfirmEachMarks(t1, session, launch, rest, cuid);
      if !HasRow(t.rows, launch, n) { MarkNothing(t.rows, launch, {n}); }
      MarkInTurn(t.rows, launch, {n}, IdSet(rest));
      assert tokenIds == [n] + rest;
      assert IdSet(tokenIds) == {n} + IdSet(rest);
    }
  }

  // The bulk confirm does to the tables what single confirms of the same ids do, in any order and with any
  // repetition; ids without a row are skipped by both.
  lemma BulkConfirmRefinesConfirm(t: Tables, session: string, launch: string, tokenIds: seq<int>, order: seq<int>,
                                  cuid: string)
    requires forall n :: n in tokenIds <==> n in order
    ensures Handle(t, Act(session, BulkConfirm(launch, tokenIds)), cuid).0
         == ConfirmEach(t, session, launch, order, cuid)
  {
    hide Handle, ConfirmEach;
    BulkConfirmHandled(t, session, launch, tokenIds, cuid);
    ConfirmEachMarks(t, session, launch, order, cuid);
    forall n ensures n in IdSet(tokenIds) <==> n in IdSet(order) {
      assert n in tokenIds <==> n in order;
    }
    assert IdSet(tokenIds) == IdSet(order);
  }

  // ---- /inscription/upload ----

  // The launchpad row a call works with, and the tables with it: the caller's own, or a new one if no row has that hash
  datatype Entered = Entered(tables: Tables, folder: string) | Kept(response: Response)

  function Enter(t: Tables, session: string, launch: string, cuid: string): Entered {
    match VerifiedSession(t.sessions, session)
    case None => Kept(Refused(403))
    case Some(s) =>
      match LaunchpadOf(t.launchpads, launch, s.address)
      case Some(l) => Entered(t, l.folder)
      case None =>
        if exists k :: 0 <= k < |t.launchpads| && t.launchpads[k].hash == launch then Kept(ServerError)
        else Entered(t.(launchpads := t.launchpads + [Launchpad(launch, s.address, cuid)]), cuid)
  }

  lemma UploadHandled(t: Tables, session: string, launch: string, extension: string, cuid: string)
    ensures Handle(t, Act(session, Upload(launch, extension)), cuid)
         == match Enter(t, session, launch, cuid)
            case Kept(response) => (t, response)
            case Entered(t0, folder) =>
              var number := MaxNumber(t.rows, launch).GetOr(0) + 1;
              var name := RowName(number, extension);
              if |name| > MAX_NAME then (t0, ServerError)
              else (t0.(rows := InsertIgnore(t.rows, launch, number, name)), OneUrl(folder, number, name))
  {
    var call := Act(session, Upload(launch, extension));
    hide Finish, InsertIgnore, RowName;
    FinishStep(t, FirstTask(call), cuid);
    match VerifiedSession(t.sessions, session)
    case None => FinishDone(t, call, Refused(403), cuid);
    case Some(s) =>
      FinishStep(t, Task(call, SelectLaunchpad(s.address)), cuid);
      match LaunchpadOf(t.launchpads, launch, s.address)
      case None =>
        FinishStep(t, Task(call, InsertLaunchpad(s.address)), cuid);
        if exists k :: 0 <= k < |t.launchpads| && t.launchpads[k].hash == launch {
          FinishDone(t, call, ServerError, cuid);
        } else {
          var l := Launchpad(launch, s.address, cuid);
          UploadRest(t.(launchpads := t.launchpads + [l]), call, s.address, cuid, cuid);
        }
      case Some(l) => UploadRest(t, call, s.address, l.folder, cuid);
  }

  // Who may work on a launch: its creator, or anyone verified if it is nobody's yet
  ghost predicate MayEnter(t: Tables, session: string, launch: string) {
    exists s :: s in t.sessions && s.hash == session && s.verified
      && forall l :: l in t.launchpads && l.hash == launch ==> l.creator == s.address
  }

  lemma EntersExactly(t: Tables, session: string, launch: string, cuid: string)
    requires UniqueSessions(t.sessions) && UniqueLaunchpads(t.launchpads)
    ensures Enter(t, session, launch, cuid).Entered? <==> MayEnter(t, session, launch)
    ensures (forall s :: s in t.sessions && s.hash == session ==> !s.verified)
       <==> Enter(t, session, launch, cuid) == Kept(Refused(403))
    ensures Enter(t, session, launch, cuid).Kept? ==>
      Enter(t, session, launch, cuid).response in {Refused(403), ServerError}
    ensures Enter(t, session, launch, cuid).Entered? ==>
      var entered := Enter(t, session, launch, cuid);
      && entered.tables.sessions == t.sessions && entered.tables.rows == t.rows
      && (if exists l :: l in t.launchpads && l.hash == launch then
            entered.tables == t && exists l :: l in t.launchpads && l.hash == launch && l.folder == entered.folder
          else
            && entered.folder == cuid
            && exists s :: s in t.sessions && s.hash == session && s.verified
                 && entered.tables.launchpads == t.launchpads + [Launchpad(launch, s.address, cuid)])
  {
    var found := VerifiedSession(t.sessions, session);
    if found.Some? {
      OneVerified(t.sessions, session, found.value);
      var own := LaunchpadOf(t.launchpads, launch, found.value.address);
      if own.Some? {
        OneLaunchpad(t.launchpads, own.value);
      } else if l :| l in t.launchpads && l.hash == launch {
        var k :| 0 <= k < |t.launchpads| && t.launchpads[k] == l;
      } else {
        forall k | 0 <= k < |t.launchpads| ensures t.launchpads[k].hash != launch {
          assert t.launchpads[k] in t.launchpads;
        }
      }
    }
  }

  lemma OneVerified(sessions: seq<Session>, hash: string, s: Session)
    requires UniqueSessions(sessions) && s in sessions && s.hash == hash
    ensures forall other :: other in sessions && other.hash == hash ==> other == s
  {
    var i :| 0 <= i < |sessions| && sessions[i] == s;
    forall other | other in sessions && other.hash == hash ensures other == s {
      var j :| 0 <= j < |sessions| && sessions[j] == other;
    }
  }

  lemma OneLaunchpad(launchpads: seq<Launchpad>, l: Launchpad)
    requires UniqueLaunchpads(launchpads) && l in launchpads
    ensures forall other :: other in launchpads && other.hash == l.hash ==> other == l
  {
    var i :| 0 <= i < |launchpads| && launchpads[i] == l;
    forall other | other in launchpads && other.hash == l.hash ensures other == l {
      var j :| 0 <= j < |launchpads| && launchpads[j] == other;
    }
  }

  // What an upload of either kind does to the launchpads, whatever comes of its names: a launch that is nobody's
  // becomes the caller's, in the new folder; one that is somebody else's is refused, and so is a session that is not
  // verified.
  ghost predicate LaunchIsEntered(t: Tables, t': Tables, session: string, launch: string, cuid: string, r: Response) {
    && t'.sessions == t.sessions
    && (r == Refused(403) <==> forall s :: s in t.sessions && s.hash == session ==> !s.verified)
    && (!MayEnter(t, session, launch) ==> t' == t && (r == Refused(403) || r == ServerError))
    && (MayEnter(t, session, launch) ==>
          if exists l :: l in t.launchpads && l.hash == launch then t'.launchpads == t.launchpads
          else exists s :: s in t.sessions && s.hash == session && s.verified
                 && t'.launchpads == t.launchpads + [Launchpad(launch, s.address, cuid)])
  }

  // When an upload without interruption is answered with a URL: exactly if the session is verified, the launch is the
  // caller's or nobody's, and the name of the new row fits.
  lemma UploadIsAnsweredExactly(t: Tables, session: string, launch: string, extension: string, cuid: string)
    requires UniqueSessions(t.sessions) && UniqueLaunchpads(t.launchpads)
    ensures var (t', r) := Handle(t, Act(session, Upload(launch, extension)), cuid);
      var number := MaxNumber(t.rows, launch).GetOr(0) + 1;
      && LaunchIsEntered(t, t', session, launch, cuid, r)
      && (r.OneUrl? <==> MayEnter(t, session, launch) && |Numbers.IntText(number) + "." + extension| <= 50)
      && (r.OneUrl? ==>
            && r.tokenId == number && r.name == Numbers.IntText(number) + "." + extension
            && exists l :: l in t'.launchpads && l.hash == launch && l.folder == r.folder)
      && (!r.OneUrl? ==> t'.rows == t.rows && (r == Refused(403) || r == ServerError))
  {
    UploadHandled(t, session, launch, extension, cuid);
    EntersExactly(t, session, launch, cuid);
    hide Handle, MayEnter, Enter;
  }

  lemma UploadRest(t: Tables, call: Call, address: string, folder: string, cuid: string)
    requires call.Act? && call.request.Upload?
    ensures var launch := call.request.launch;
      var number := MaxNumber(t.rows, launch).GetOr(0) + 1;
      var name := RowName(number, call.request.extension);
      Finish(t, Task(call, SelectMax(address, folder)), cuid)
      == if |name| > MAX_NAME then (t, ServerError)
         else (t.(rows := InsertIgnore(t.rows, launch, number, name)), OneUrl(folder, number, name))
  {
    hide Finish, InsertIgnore, RowName;
    var launch := call.request.launch;
    var number := MaxNumber(t.rows, launch).GetOr(0) + 1;
    var name := RowName(number, call.request.extension);
    FinishStep(t, Task(call, SelectMax(address, folder)), cuid);
    FinishStep(t, Task(call, InsertRow(address, folder, number)), cuid);
    if |name| > MAX_NAME {
      FinishDone(t, call, ServerError, cuid);
    } else {
      FinishDone(t.(rows := InsertIgnore(t.rows, launch, number, name)), call, OneUrl(folder, number, name), cuid);
    }
  }

  // A single upload that runs without interruption gets an id above every id of the launch, and adds exactly the one
  // row for it, not yet uploaded.
  lemma UploadIdIsAbove(t: Tables, session: string, launch: string, extension: string, cuid: string)
    requires Handle(t, Act(session, Upload(launch, extension)), cuid).1.OneUrl?
    ensures var (t', r) := Handle(t, Act(session, Upload(launch, extension)), cuid);
      && (forall k :: 0 <= k < |t.rows| && t.rows[k].launch == launch ==> t.rows[k].number < r.tokenId)
      && t'.rows == t.rows + [Row(launch, r.tokenId, Numbers.IntText(r.tokenId) + "." + extension, false)]
      && ((forall k :: 0 <= k < |t.rows| ==> t.rows[k].launch != launch) ==> r.tokenId == 1)
  {
    hide Handle;
    UploadHandled(t, session, launch, extension, cuid);
  }

  // ---- the inserts of /inscription/bulk/upload ----

  function InsertAll(rows: seq<Row>, launch: string, items: seq<Item>): seq<Row>
    decreases items
  {
    if items == [] then rows
    else InsertAll(InsertIgnore(rows, launch, items[0].tokenId, items[0].filename), launch, items[1..])
  }

  // Running the items from a place on is inserting them in turn, if no name is too long.
  // How many items are inserted: all, or those before the first whose name does not fit
  function Fitting(items: seq<Item>): (n: nat)
    ensures n <= |items|
    ensures n == |items| <==> forall k :: 0 <= k < |items| ==> |items[k].filename| <= MAX_NAME
    decreases items
  {
    if items == [] || |items[0].filename| > MAX_NAME then 0 else 1 + Fitting(items[1..])
  }

  lemma {:induction false} ItemsInserted(t: Tables, call: Call, address: string, folder: string, done: nat,
                                         cuid: string)
    requires call.Act? && call.request.BulkUpload? && done <= |call.request.items|
    ensures var items := call.request.items;
      var n := Fitting(items[done..]);
      Finish(t, Task(call, ItemsFrom(address, folder, items, done)), cuid)
      == (t.(rows := InsertAll(t.rows, call.request.launch, items[done..done + n])),
          if done + n == |items| then Urls(folder, items) else ServerError)
    decreases |call.request.items| - done
  {
    hide Finish, InsertIgnore;
    var items, launch := call.request.items, call.request.launch;
    if done == |items| {
      FinishDone(t, call, Urls(folder, items), cuid);
      assert items[done..done] == [];
    } else {
      FinishStep(t, Task(call, InsertItem(address, folder, done)), cuid);
      assert items[done..][0] == items[done] && items[done..][1..] == items[done + 1..];
      if |items[done].filename| > MAX_NAME {
        FinishDone(t, call, ServerError, cuid);
        assert items[done..done] == [];
      } else {
        var rows := InsertIgnore(t.rows, launch, items[done].tokenId, items[done].filename);
        var n := Fitting(items[done + 1..]);
        ItemsInserted(t.(rows := rows), call, address, folder, done + 1, cuid);
        assert items[done..done + 1 + n][1..] == items[done + 1..done + 1 + n];
      }
    }
  }

  // A row that was added: for an item whose id had no row and that is the first one with its id
  ghost predicate AddedFor(before: seq<Row>, launch: string, items: seq<Item>, row: Row) {
    exists k ::
      && 0 <= k < |items|
      && row == Row(launch, items[k].tokenId, items[k].filename, false)
      && !HasRow(before, launch, items[k].tokenId)
      && forall i :: 0 <= i < k ==> items[i].tokenId != items[k].tokenId
  }

  // After the inserts every id has a row, old rows are as they were, and a new row carries the name of the first item
  // with its id.
  lemma {:induction false} FirstWriterWins(rows: seq<Row>, launch: string, items: seq<Item>)
    ensures var after := InsertAll(rows, launch, items);
      && rows <= after
      && (forall k :: 0 <= k < |items| ==> HasRow(after, launch, items[k].tokenId))
      && (forall j :: |rows| <= j < |after| ==> AddedFor(rows, launch, items, after[j]))
    decreases items
  {
    if items != [] {
      var one := InsertIgnore(rows, launch, items[0].tokenId, items[0].filename);
      var after := InsertAll(rows, launch, items);
      FirstWriterWins(one, launch, items[1..]);
      assert HasRow(one, launch, items[0].tokenId) by {
        if !HasRow(rows, launch, items[0].tokenId) { assert one[|rows|].number == items[0].tokenId; }
      }
      PrefixHasRow(one, after, launch, items[0].tokenId);
      forall k | 0 <= k < |items| ensures HasRow(after, launch, items[k].tokenId) {
        if k > 0 { assert items[k] == items[1..][k - 1]; }
      }
      forall j | |rows| <= j < |after|
        ensures AddedFor(rows, launch, items, after[j])
      {
        if j < |one| {
          assert after[j] == one[j] == Row(launch, items[0].tokenId, items[0].filename, false);
        } else {
          FirstOfTheRest(rows, one, launch, items, after[j]);
        }
      }
    }
  }

  lemma PrefixHasRow(a: seq<Row>, b: seq<Row>, launch: string, number: int)
    requires a <= b && HasRow(a, launch, number)
    ensures HasRow(b, launch, number)
  {
    var k :| 0 <= k < |a| && a[k].launch == launch && a[k].number == number;
    assert b[k] == a[k];
  }

  lemma FirstOfTheRest(rows: seq<Row>, one: seq<Row>, launch: string, items: seq<Item>, row: Row)
    requires items != [] && rows <= one && HasRow(one, launch, items[0].tokenId)
    requires AddedFor(one, launch, items[1..], row)
    ensures AddedFor(rows, launch, items, row)
  {
    var rest := items[1..];
    var k :|
      && 0 <= k < |rest|
      && row == Row(launch, rest[k].tokenId, rest[k].filename, false)
      && !HasRow(one, launch, rest[k].tokenId)
      && forall i :: 0 <= i < k ==> rest[i].tokenId != rest[k].tokenId;
    assert items[k + 1] == rest[k];
    if HasRow(rows, launch, rest[k].tokenId) { PrefixHasRow(rows, one, launch, rest[k].tokenId); }
    forall i | 0 <= i < k + 1 ensures items[i].tokenId != items[k + 1].tokenId {
      if i > 0 { assert items[i] == rest[i - 1]; }
    }
  }

  lemma {:induction false} InsertPresent(rows: seq<Row>, launch: string, items: seq<Item>)
    requires forall k :: 0 <= k < |items| ==> HasRow(rows, launch, items[k].tokenId)
    ensures InsertAll(rows, launch, items) == rows
    decreases items
  {
    if items != [] {
      assert HasRow(rows, launch, items[0].tokenId);
      InsertPresent(rows, launch, items[1..]);
    }
  }

  // The same call a second time changes nothing: it is answered with the same URLs and leaves the tables as they are.
  lemma BulkUploadIsIdempotent(t: Tables, session: string, launch: string, items: seq<Item>, cuid: string,
                               cuid': string)
    requires Handle(t, Act(session, BulkUpload(launch, items)), cuid).1.Urls?
    ensures var (t1, r1) := Handle(t, Act(session, BulkUpload(launch, items)), cuid);
      && t1.rows == InsertAll(t.rows, launch, items)
      && Handle(t1, Act(session, BulkUpload(launch, items)), cuid') == (t1, r1)
  {
    BulkUploadHandled(t, session, launch, items, cuid);
    var t1 := Handle(t, Act(session, BulkUpload(launch, items)), cuid).0;
    assert items[..|items|] == items;
    EntersAgain(t, session, launch, cuid, cuid', t1.rows);
    hide Handle, InsertAll, HasRow, Enter;
    FirstWriterWins(t.rows, launch, items);
    InsertPresent(t1.rows, launch, items);
    BulkUploadHandled(t1, session, launch, items, cuid');
  }

  // Whoever has got in gets in again, to the same folder.
  lemma EntersAgain(t: Tables, session: string, launch: string, cuid: string, cuid': string, rows: seq<Row>)
    requires Enter(t, session, launch, cuid).Entered?
    ensures var entered := Enter(t, session, launch, cuid);
      var later := entered.tables.(rows := rows);
      Enter(later, session, launch, cuid') == Entered(later, entered.folder)
  {
    var s := VerifiedSession(t.sessions, session).value;
    if LaunchpadOf(t.launchpads, launch, s.address).None? {
      OnlyLaunchpad(t.launchpads, Launchpad(launch, s.address, cuid));
    }
  }

  // The items that fit, in the tables that were entered
  function Inserted(t: Tables, entered: Entered, launch: string, items: seq<Item>): (Tables, Response) {
    match entered
    case Kept(response) => (t, response)
    case Entered(t0, folder) =>
      (t0.(rows := InsertAll(t.rows, launch, items[..Fitting(items)])),
       if Fitting(items) == |items| then Urls(folder, items) else ServerError)
  }

  lemma BulkUploadHandled(t: Tables, session: string, launch: string, items: seq<Item>, cuid: string)
    ensures Handle(t, Act(session, BulkUpload(launch, items)), cuid)
         == Inserted(t, Enter(t, session, launch, cuid), launch, items)
  {
    var call := Act(session, BulkUpload(launch, items));
    hide Finish, InsertAll, Fitting;
    assert items[0..] == items && items[0..Fitting(items)] == items[..Fitting(items)];
    FinishStep(t, FirstTask(call), cuid);
    match VerifiedSession(t.sessions, session)
    case None => FinishDone(t, call, Refused(403), cuid);
    case Some(s) =>
      FinishStep(t, Task(call, SelectLaunchpad(s.address)), cuid);
      match LaunchpadOf(t.launchpads, launch, s.address)
      case None =>
        FinishStep(t, Task(call, InsertLaunchpad(s.address)), cuid);
        if exists k :: 0 <= k < |t.launchpads| && t.launchpads[k].hash == launch {
          FinishDone(t, call, ServerError, cuid);
        } else {
          var l := Launchpad(launch, s.address, cuid);
          ItemsInserted(t.(launchpads := t.launchpads + [l]), call, s.address, cuid, 0, cuid);
        }
      case Some(l) => ItemsInserted(t, call, s.address, l.folder, 0, cuid);
  }

  // When a bulk upload without interruption is answered with its URLs: exactly if the session is verified, the launch
  // is the caller's or nobody's, and all names fit.
  lemma BulkUploadIsAnsweredExactly(t: Tables, session: string, launch: string, items: seq<Item>, cuid: string)
    requires UniqueSessions(t.sessions) && UniqueLaunchpads(t.launchpads)
    ensures var (t', r) := Handle(t, Act(session, BulkUpload(launch, items)), cuid);
      && LaunchIsEntered(t, t', session, launch, cuid, r)
      && (r.Urls? <==> MayEnter(t, session, launch) && forall k :: 0 <= k < |items| ==> |items[k].filename| <= 50)
      && (r.Urls? ==>
            r.items == items && exists l :: l in t'.launchpads && l.hash == launch && l.folder == r.folder)
      && (!r.Urls? ==> r == Refused(403) || r == ServerError)
  {
    BulkUploadHandled(t, session, launch, items, cuid);
    EntersExactly(t, session, launch, cuid);
    hide Handle, MayEnter, Enter, InsertAll;
  }

  lemma {:induction false} OnlyLaunchpad(launchpads: seq<Launchpad>, l: Launchpad)
    requires forall k :: 0 <= k < |launchpads| ==> launchpads[k].hash != l.hash
    ensures LaunchpadOf(launchpads + [l], l.hash, l.creator) == Some(l)
  {
    if launchpads != [] {
      assert (launchpads + [l])[1..] == launchpads[1..] + [l];
      OnlyLaunchpad(launchpads[1..], l);
    }
  }
}
