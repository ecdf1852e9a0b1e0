/** What every run of the uploader keeps, with the handlers interleaved statement by statement. */
module UploaderSafety {
  import opened Wrappers
  import opened UploaderTables
  import opened UploaderTasks

  // ---- the five statements that change a table ----

  lemma VerifiedStays(a: seq<Session>, b: seq<Session>, address: string)
    requires SessionsExtend(a, b) && Verified(a, address)
    ensures Verified(b, address)
  {
    var k :| 0 <= k < |a| && a[k].address == address && a[k].verified;
    assert b[k].address == address && b[k].verified;
  }

  lemma LaunchpadStays(a: seq<Launchpad>, b: seq<Launchpad>, hash: string)
    requires a <= b && HasLaunchpad(a, hash)
    ensures HasLaunchpad(b, hash)
  {
    var k :| 0 <= k < |a| && a[k].hash == hash;
    assert b[k].hash == hash;
  }

  lemma SessionsChanged(t: Tables, sessions: seq<Session>)
    requires TablesOk(t) && SessionsExtend(t.sessions, sessions) && UniqueSessions(sessions)
    ensures TablesOk(t.(sessions := sessions)) && Extends(t, t.(sessions := sessions))
  {
    hide Verified, HasLaunchpad;
    forall k | 0 <= k < |t.launchpads| ensures Verified(sessions, t.launchpads[k].creator) {
      VerifiedStays(t.sessions, sessions, t.launchpads[k].creator);
    }
  }

  lemma SessionInserted(t: Tables, address: string, cuid: string)
    requires TablesOk(t) && IsFresh(t, cuid) && forall s :: s in t.sessions ==> s.address != address
    ensures var t' := t.(sessions := t.sessions + [Session(address, cuid, false)]);
      TablesOk(t') && Extends(t, t')
  {
    SessionsChanged(t, t.sessions + [Session(address, cuid, false)]);
  }

  lemma SessionVerified(t: Tables, hash: string)
    requires TablesOk(t)
    ensures var t' := t.(sessions := MarkVerified(t.sessions, hash));
      TablesOk(t') && Extends(t, t')
  {
    SessionsChanged(t, MarkVerified(t.sessions, hash));
  }

  lemma LaunchpadInserted(t: Tables, hash: string, address: string, cuid: string)
    requires TablesOk(t) && Verified(t.sessions, address)
    requires forall k :: 0 <= k < |t.launchpads| ==> t.launchpads[k].hash != hash
    ensures var t' := t.(launchpads := t.launchpads + [Launchpad(hash, address, cuid)]);
      TablesOk(t') && Extends(t, t') && Launchpad(hash, address, cuid) in t'.launchpads
  {
    hide Verified, HasLaunchpad;
    var launchpads := t.launchpads + [Launchpad(hash, address, cuid)];
    assert launchpads[|t.launchpads|] == Launchpad(hash, address, cuid);
    forall k | 0 <= k < |t.rows| ensures HasLaunchpad(launchpads, t.rows[k].launch) {
      LaunchpadStays(t.launchpads, launchpads, t.rows[k].launch);
    }
  }

  lemma RowInserted(t: Tables, launch: string, number: int, name: string)
    requires TablesOk(t) && HasLaunchpad(t.launchpads, launch)
    ensures var t' := t.(rows := InsertIgnore(t.rows, launch, number, name));
      TablesOk(t') && Extends(t, t') && HasRow(t'.rows, launch, number)
  {
    hide Verified, HasLaunchpad;
    var rows := InsertIgnore(t.rows, launch, number, name);
    if !HasRow(t.rows, launch, number) {
      assert rows[|t.rows|] == Row(launch, number, name, false);
    }
  }

  lemma RowsMarked(t: Tables, launch: string, numbers: set<int>)
    requires TablesOk(t)
    ensures var t' := t.(rows := MarkUploaded(t.rows, launch, numbers));
      && TablesOk(t') && Extends(t, t')
      && forall n :: n in numbers && HasRow(t.rows, launch, n) ==> IsUploaded(t'.rows, launch, n)
  {
    hide Verified, HasLaunchpad;
    var rows := MarkUploaded(t.rows, launch, numbers);
    forall n | n in numbers && HasRow(t.rows, launch, n) ensures IsUploaded(rows, launch, n) {
      var k :| 0 <= k < |t.rows| && t.rows[k].launch == launch && t.rows[k].number == n;
      assert rows[k].launch == launch && rows[k].number == n && rows[k].uploaded;
    }
  }

  lemma OwnerIsVerified(t: Tables, session: string, address: string)
    requires OwnsSession(t, session, address)
    ensures Verified(t.sessions, address)
  {}

  lemma GrantedLaunchpad(t: Tables, session: string, launch: string, address: string, folder: string)
    requires Granted(t, session, launch, address, folder)
    ensures HasLaunchpad(t.launchpads, launch)
  {
    var k :| 0 <= k < |t.launchpads| && t.launchpads[k] == Launchpad(launch, address, folder);
  }

  // ---- a step of one task ----

  lemma AdvanceKeepsTables(t: Tables, task: Task, cuid: string)
    requires TablesOk(t) && TaskOk(t, task) && (task.pc.InsertSession? ==> IsFresh(t, cuid))
    ensures TablesOk(Advance(t, task, cuid).0)
    ensures Extends(t, Advance(t, task, cuid).0)
  {
    hide TablesOk, IsFresh, OwnsSession, Granted, HasRow, HasLaunchpad, Verified, HasItems, RowName, InsertIgnore,
         IsUploaded;
    match (task.pc, task.call)
    case (InsertSession, CreateSession(address)) =>
      if SessionOf(t.sessions, address).None? { SessionInserted(t, address, cuid); }
    case (UpdateSession, VerifySession(hash, _)) => SessionVerified(t, hash);
    case (InsertLaunchpad(address), Act(session, request)) =>
      if forall k :: 0 <= k < |t.launchpads| ==> t.launchpads[k].hash != request.launch {
        OwnerIsVerified(t, session, address);
        LaunchpadInserted(t, request.launch, address, cuid);
      }
    case (InsertItem(address, folder, done), Act(session, BulkUpload(launch, items))) =>
      GrantedLaunchpad(t, session, launch, address, folder);
      RowInserted(t, launch, items[done].tokenId, items[done].filename);
    case (InsertRow(address, folder, number), Act(session, Upload(launch, extension))) =>
      GrantedLaunchpad(t, session, launch, address, folder);
      RowInserted(t, launch, number, RowName(number, extension));
    case (UpdateRows(_, _), Act(_, BulkConfirm(launch, tokenIds))) => RowsMarked(t, launch, IdSet(tokenIds));
    case (UpdateRow(_, _), Act(_, Confirm(launch, tokenId))) => RowsMarked(t, launch, {tokenId});
    case _ =>
  }

  lemma OwnsStays(a: Tables, b: Tables, session: string, address: string)
    requires Extends(a, b) && OwnsSession(a, session, address)
    ensures OwnsSession(b, session, address)
  {
    var k :| 0 <= k < |a.sessions| &&
      a.sessions[k].hash == session && a.sessions[k].address == address && a.sessions[k].verified;
    assert b.sessions[k].hash == session && b.sessions[k].address == address && b.sessions[k].verified;
  }

  lemma GrantedStays(a: Tables, b: Tables, session: string, launch: string, address: string, folder: string)
    requires Extends(a, b) && Granted(a, session, launch, address, folder)
    ensures Granted(b, session, launch, address, folder)
  {
    OwnsStays(a, b, session, address);
  }

  lemma ItemsStay(a: Tables, b: Tables, launch: string, items: seq<Item>, n: nat)
    requires Extends(a, b) && n <= |items| && HasItems(a.rows, launch, items, n)
    ensures HasItems(b.rows, launch, items, n)
  {
    hide HasRow;
    forall k | 0 <= k < n ensures HasRow(b.rows, launch, items[k].tokenId) {
      RowsStay(a.rows, b.rows, launch, items[k].tokenId);
    }
  }

  // What a task knows stays true whatever the other tasks do to the tables.
  lemma TaskStable(a: Tables, b: Tables, task: Task)
    requires Extends(a, b) && TaskOk(a, task)
    ensures TaskOk(b, task)
  {
    hide Extends, OwnsSession, Granted, HasItems, HasRow, IsUploaded;
    if task.call.Act? {
      var session, request := task.call.session, task.call.request;
      forall address | OwnsSession(a, session, address) ensures OwnsSession(b, session, address) {
        OwnsStays(a, b, session, address);
      }
      forall address, folder | Granted(a, session, request.launch, address, folder)
        ensures Granted(b, session, request.launch, address, folder)
      {
        GrantedStays(a, b, session, request.launch, address, folder);
      }
      if request.BulkUpload? {
        forall n: nat | n <= |request.items| && HasItems(a.rows, request.launch, request.items, n)
          ensures HasItems(b.rows, request.launch, request.items, n)
        {
          ItemsStay(a, b, request.launch, request.items, n);
        }
      }
      StableRows(a, b, request.launch);
    }
  }

  lemma StableRows(a: Tables, b: Tables, launch: string)
    requires Extends(a, b)
    ensures forall n :: HasRow(a.rows, launch, n) ==> HasRow(b.rows, launch, n)
    ensures forall n :: IsUploaded(a.rows, launch, n) ==> IsUploaded(b.rows, launch, n)
  {
    hide HasRow, IsUploaded;
    forall n ensures HasRow(a.rows, launch, n) ==> HasRow(b.rows, launch, n) {
      RowsStay(a.rows, b.rows, launch, n);
    }
    forall n ensures IsUploaded(a.rows, launch, n) ==> IsUploaded(b.rows, launch, n) {
      RowsStay(a.rows, b.rows, launch, n);
    }
  }

  // The statements up to and with the launchpad row
  predicate Opening(pc: Pc) {
    pc.Start? || pc.SelectLaunchpad? || pc.InsertLaunchpad?
  }

  lemma OpeningKeepsTask(t: Tables, task: Task, cuid: string)
    requires TablesOk(t) && TaskOk(t, task) && Opening(task.pc)
    ensures var (t', pc) := Advance(t, task, cuid); TaskOk(t', task.(pc := pc))
  {
    var (t', pc) := Advance(t, task, cuid);
    AdvanceKeepsTables(t, task, cuid);
    hide TablesOk, IsFresh, HasLaunchpad, Verified, RowName, InsertIgnore, Extends, OwnsSession, HasItems, HasRow,
         IsUploaded, ItemsFrom, WithLaunchpad, Granted;
    match (task.pc, task.call)
    case (Start, Act(session, request)) =>
      if VerifiedSession(t.sessions, session).Some? { FoundSession(t, session); }
    case (SelectLaunchpad(address), Act(session, request)) =>
      if LaunchpadOf(t.launchpads, request.launch, address).Some? {
        var l := LaunchpadOf(t.launchpads, request.launch, address).value;
        LaunchpadReached(t, session, request, address, l.folder);
      }
    case (InsertLaunchpad(address), Act(session, request)) =>
      if forall k :: 0 <= k < |t.launchpads| ==> t.launchpads[k].hash != request.launch {
        OwnsStays(t, t', session, address);
        LaunchpadReached(t', session, request, address, cuid);
      }
    case _ =>
  }

  // The next statement of a task finds what it needs.
  lemma AdvanceKeepsTask(t: Tables, task: Task, cuid: string)
    requires TablesOk(t) && TaskOk(t, task) && (task.pc.InsertSession? ==> IsFresh(t, cuid))
    ensures var (t', pc) := Advance(t, task, cuid); TaskOk(t', task.(pc := pc))
  {
    if Opening(task.pc) {
      OpeningKeepsTask(t, task, cuid);
    } else {
      WorkKeepsTask(t, task, cuid);
    }
  }

  lemma WorkKeepsTask(t: Tables, task: Task, cuid: string)
    requires TablesOk(t) && TaskOk(t, task) && (task.pc.InsertSession? ==> IsFresh(t, cuid))
    requires !Opening(task.pc)
    ensures var (t', pc) := Advance(t, task, cuid); TaskOk(t', task.(pc := pc))
  {
    var (t', pc) := Advance(t, task, cuid);
    AdvanceKeepsTables(t, task, cuid);
    hide TablesOk, IsFresh, HasLaunchpad, Verified, RowName, InsertIgnore, Extends, OwnsSession, HasItems, HasRow,
         IsUploaded, ItemsFrom, WithLaunchpad, Granted;
    match (task.pc, task.call)
    case (InsertItem(address, folder, done), Act(session, BulkUpload(launch, items))) =>
      if |items[done].filename| <= MAX_NAME {
        GrantedStays(t, t', session, launch, address, folder);
        ItemDone(t, launch, items, done);
        NextItemOk(t', session, launch, items, address, folder, done + 1);
      }
    case (InsertRow(address, folder, number), Act(session, Upload(launch, extension))) =>
      GrantedStays(t, t', session, launch, address, folder);
      RowThere(t.rows, launch, number, RowName(number, extension));
    case (UpdateRow(_, _), Act(_, Confirm(launch, tokenId))) => RowsMarked(t, launch, {tokenId});
    case _ =>
  }

  lemma FoundSession(t: Tables, session: string)
    requires VerifiedSession(t.sessions, session).Some?
    ensures OwnsSession(t, session, VerifiedSession(t.sessions, session).value.address)
  {
    var s := VerifiedSession(t.sessions, session).value;
    var k :| 0 <= k < |t.sessions| && t.sessions[k] == s;
    assert t.sessions[k].hash == session;
  }

  lemma LaunchpadReached(t: Tables, session: string, request: Request, address: string, folder: string)
    requires OwnsSession(t, session, address) && Launchpad(request.launch, address, folder) in t.launchpads
    ensures TaskOk(t, Task(Act(session, request), WithLaunchpad(request, address, folder)))
  {
    hide OwnsSession;
    assert Granted(t, session, request.launch, address, folder);
  }

  lemma NextItemOk(t: Tables, session: string, launch: string, items: seq<Item>, address: string, folder: string,
                   n: nat)
    requires n <= |items| && Granted(t, session, launch, address, folder) && HasItems(t.rows, launch, items, n)
    ensures TaskOk(t, Task(Act(session, BulkUpload(launch, items)), ItemsFrom(address, folder, items, n)))
  {
    hide Granted, HasRow;
  }

  lemma RowThere(rows: seq<Row>, launch: string, number: int, name: string)
    ensures HasRow(InsertIgnore(rows, launch, number, name), launch, number)
    ensures RowsExtend(rows, InsertIgnore(rows, launch, number, name))
  {
    if !HasRow(rows, launch, number) {
      assert InsertIgnore(rows, launch, number, name)[|rows|] == Row(launch, number, name, false);
    }
  }

  lemma ItemDone(t: Tables, launch: string, items: seq<Item>, done: nat)
    requires done < |items| && HasItems(t.rows, launch, items, done)
    ensures HasItems(InsertIgnore(t.rows, launch, items[done].tokenId, items[done].filename), launch, items, done + 1)
  {
    hide HasRow;
    var rows := InsertIgnore(t.rows, launch, items[done].tokenId, items[done].filename);
    RowThere(t.rows, launch, items[done].tokenId, items[done].filename);
    forall k | 0 <= k < done ensures HasRow(rows, launch, items[k].tokenId) {
      RowsStay(t.rows, rows, launch, items[k].tokenId);
    }
  }

  // ---- runs ----

  lemma StepKeepsConfig(c: Config, e: Event)
    requires ConfigOk(c)
    ensures ConfigOk(Step(c, e)) && Extends(c.tables, Step(c, e).tables)
  {
    hide TablesOk, TaskOk, Advance;
    var c' := Step(c, e);
    match e
    case Arrive(call) => FirstTaskOk(c.tables, call); Unchanged(c.tables);
    case Move(i, cuid) =>
      Unchanged(c.tables);
      if i < |c.tasks| && (c.tasks[i].pc.InsertSession? ==> IsFresh(c.tables, cuid)) {
        AdvanceKeepsTables(c.tables, c.tasks[i], cuid);
        AdvanceKeepsTask(c.tables, c.tasks[i], cuid);
        forall k | 0 <= k < |c.tasks| ensures TaskOk(c'.tables, c'.tasks[k]) {
          if k != i { TaskStable(c.tables, c'.tables, c.tasks[k]); }
        }
      }
    case Abort(i) =>
      Unchanged(c.tables);
      if i < |c.tasks| { AbortedOk(c.tables, c.tasks[i].call); }
  }

  lemma FirstTaskOk(t: Tables, call: Call)
    ensures TaskOk(t, FirstTask(call))
  {}

  lemma AbortedOk(t: Tables, call: Call)
    ensures TaskOk(t, Task(call, Done(ServerError)))
  {}

  lemma Unchanged(t: Tables)
    ensures Extends(t, t)
  {}

  lemma {:induction false} RunKeepsConfig(c: Config, events: seq<Event>)
    requires ConfigOk(c)
    ensures ConfigOk(Run(c, events)) && Extends(c.tables, Run(c, events).tables)
    decreases |events|
  {
    hide ConfigOk, Extends, Step;
    if events == [] {
      Unchanged(c.tables);
    } else {
      var c1 := Step(c, events[0]);
      StepKeepsConfig(c, events[0]);
      RunKeepsConfig(c1, events[1..]);
      ExtendsTransitive(c.tables, c1.tables, Run(c1, events[1..]).tables);
    }
  }

  lemma {:induction false} RunConcat(c: Config, a: seq<Event>, b: seq<Event>)
    ensures Run(c, a + b) == Run(Run(c, a), b)
    decreases |a|
  {
    hide Step;
    if a == [] {
      assert a + b == b;
    } else {
      assert (a + b)[1..] == a[1..] + b;
      RunConcat(Step(c, a[0]), a[1..], b);
    }
  }

  lemma IdleOk()
    ensures ConfigOk(IDLE)
  {}

  // Uploader safety: at any point of any run, keys are unique and every row belongs to a launch that has a launchpad
  // row, whose creator holds a verified session.
  lemma TablesStayConsistent(events: seq<Event>)
    ensures var t := Run(IDLE, events).tables;
      && (forall i, j :: 0 <= i < j < |t.rows| ==>
            !(t.rows[i].launch == t.rows[j].launch && t.rows[i].number == t.rows[j].number))
      && (forall i, j :: 0 <= i < j < |t.launchpads| ==> t.launchpads[i].hash != t.launchpads[j].hash)
      && (forall i, j :: 0 <= i < j < |t.sessions| ==>
            t.sessions[i].address != t.sessions[j].address && t.sessions[i].hash != t.sessions[j].hash)
      && (forall r :: r in t.rows ==>
            exists l, s :: l in t.launchpads && s in t.sessions
                        && l.hash == r.launch && s.address == l.creator && s.verified)
  {
    IdleOk();
    RunKeepsConfig(IDLE, events);
    var t := Run(IDLE, events).tables;
    forall r | r in t.rows
      ensures exists l, s :: l in t.launchpads && s in t.sessions
                          && l.hash == r.launch && s.address == l.creator && s.verified
    {
      var k :| 0 <= k < |t.rows| && t.rows[k] == r;
      var i :| 0 <= i < |t.launchpads| && t.launchpads[i].hash == r.launch;
      var j :| 0 <= j < |t.sessions| && t.sessions[j].address == t.launchpads[i].creator && t.sessions[j].verified;
      assert t.launchpads[i] in t.launchpads && t.sessions[j] in t.sessions;
    }
  }

  // Nothing is taken back: from any point of a run to any later one, a row keeps its launch, number and name and its
  // uploaded mark, a launchpad row (so a creator's folder) does not change, and a verified session stays verified.
  lemma NothingIsTakenBack(before: seq<Event>, after: seq<Event>)
    ensures var a := Run(IDLE, before).tables;
      var b := Run(Run(IDLE, before), after).tables;
      && |a.rows| <= |b.rows|
      && (forall k :: 0 <= k < |a.rows| ==>
            && b.rows[k].launch == a.rows[k].launch && b.rows[k].number == a.rows[k].number
            && b.rows[k].name == a.rows[k].name
            && (a.rows[k].uploaded ==> b.rows[k].uploaded))
      && a.launchpads <= b.launchpads
      && (forall s :: s in a.sessions && s.verified ==> s in b.sessions)
  {
    IdleOk();
    RunKeepsConfig(IDLE, before);
    RunKeepsConfig(Run(IDLE, before), after);
    var a, b := Run(IDLE, before).tables, Run(Run(IDLE, before), after).tables;
    forall s | s in a.sessions && s.verified ensures s in b.sessions {
      var k :| 0 <= k < |a.sessions| && a.sessions[k] == s;
      assert b.sessions[k] == s;
    }
  }

  // ---- the bulk upload protocol ----

  // What a successful bulk upload leaves behind for the session that made it
  ghost predicate Ready(t: Tables, session: string, launch: string, tokenIds: seq<int>) {
    && (exists address, folder :: Granted(t, session, launch, address, folder))
    && forall k :: 0 <= k < |tokenIds| ==> HasRow(t.rows, launch, tokenIds[k])
  }

  lemma ReadyStays(a: Tables, b: Tables, session: string, launch: string, tokenIds: seq<int>)
    requires Extends(a, b) && Ready(a, session, launch, tokenIds)
    ensures Ready(b, session, launch, tokenIds)
  {
    hide HasRow, Granted;
    var address, folder :| Granted(a, session, launch, address, folder);
    GrantedStays(a, b, session, launch, address, folder);
    StableRows(a, b, launch);
  }

  // How far the confirm has come: it can end only with success or a server error, and with success all its ids
  // are uploaded; `left` statements are still to come.
  ghost predicate ConfirmOnTrack(t: Tables, task: Task, session: string, launch: string, tokenIds: seq<int>,
                                 left: nat) {
    && task.call == Act(session, BulkConfirm(launch, tokenIds))
    && match task.pc
       case Start => left == 3
       case SelectLaunchpad(address) => left == 2 && OwnsSession(t, session, address)
       case UpdateRows(_, _) => left == 1
       case Done(Success) => left == 0 && forall k :: 0 <= k < |tokenIds| ==> IsUploaded(t.rows, launch, tokenIds[k])
       case Done(ServerError) => left == 0
       case _ => false
  }

  lemma OneOwner(t: Tables, session: string, a: string, b: string)
    requires TablesOk(t) && OwnsSession(t, session, a) && OwnsSession(t, session, b)
    ensures a == b
  {
    var i :| 0 <= i < |t.sessions| &&
      t.sessions[i].hash == session && t.sessions[i].address == a && t.sessions[i].verified;
    var j :| 0 <= j < |t.sessions| &&
      t.sessions[j].hash == session && t.sessions[j].address == b && t.sessions[j].verified;
    if i != j { assert false; }
  }

  lemma ConfirmAdvances(t: Tables, task: Task, cuid: string, session: string, launch: string, tokenIds: seq<int>,
                        left: nat)
    requires TablesOk(t) && Ready(t, session, launch, tokenIds)
    requires ConfirmOnTrack(t, task, session, launch, tokenIds, left)
    ensures var (t', pc) := Advance(t, task, cuid);
      ConfirmOnTrack(t', task.(pc := pc), session, launch, tokenIds, if left == 0 then 0 else left - 1)
  {
    var address, folder :| Granted(t, session, launch, address, folder);
    hide TablesOk, HasRow, IsUploaded;
    match task.pc
    case Start =>
      VerifiedFound(t, session, address);
      FoundSession(t, session);
    case SelectLaunchpad(owner) =>
      OneOwner(t, session, address, owner);
      assert LaunchpadOf(t.launchpads, launch, owner).Some?;
    case UpdateRows(_, _) =>
      RowsMarked(t, launch, IdSet(tokenIds));
    case Done(_) =>
  }

  lemma VerifiedFound(t: Tables, session: string, address: string)
    requires OwnsSession(t, session, address)
    ensures VerifiedSession(t.sessions, session).Some?
  {
    var k :| 0 <= k < |t.sessions| &&
      t.sessions[k].hash == session && t.sessions[k].address == address && t.sessions[k].verified;
    assert t.sessions[k] in t.sessions;
  }

  lemma ConfirmStays(a: Tables, b: Tables, task: Task, session: string, launch: string, tokenIds: seq<int>, left: nat)
    requires Extends(a, b) && ConfirmOnTrack(a, task, session, launch, tokenIds, left)
    ensures ConfirmOnTrack(b, task, session, launch, tokenIds, left)
  {
    hide OwnsSession, IsUploaded;
    StableRows(a, b, launch);
    forall address | OwnsSession(a, session, address) ensures OwnsSession(b, session, address) {
      OwnsStays(a, b, session, address);
    }
  }

  // How often task i runs a statement in a run, and whether it is killed
  function Moves(events: seq<Event>, i: nat): nat {
    if events == [] then 0 else (if events[0].Move? && events[0].task == i then 1 else 0) + Moves(events[1..], i)
  }

  predicate Killed(events: seq<Event>, i: nat) {
    exists k :: 0 <= k < |events| && events[k] == Abort(i)
  }

  lemma TablesOfConfig(c: Config)
    requires ConfigOk(c)
    ensures TablesOk(c.tables)
  {}

  lemma ConfirmStep(c: Config, e: Event, i: nat, session: string, launch: string, tokenIds: seq<int>, left: nat)
    requires ConfigOk(c) && Ready(c.tables, session, launch, tokenIds) && i < |c.tasks|
    requires ConfirmOnTrack(c.tables, c.tasks[i], session, launch, tokenIds, left)
    ensures var c' := Step(c, e);
      && i < |c'.tasks| && Ready(c'.tables, session, launch, tokenIds)
      && ConfirmOnTrack(c'.tables, c'.tasks[i], session, launch, tokenIds,
           if e == Abort(i) then 0 else if e.Move? && e.task == i && left > 0 then left - 1 else left)
      && (e != Abort(i) && c.tasks[i].pc != Done(ServerError) ==> c'.tasks[i].pc != Done(ServerError))
  {
    hide ConfigOk, Ready, OwnsSession, IsUploaded, Extends;
    var c' := Step(c, e);
    assert TablesOk(c.tables) by { TablesOfConfig(c); }
    StepKeepsConfig(c, e);
    ReadyStays(c.tables, c'.tables, session, launch, tokenIds);
    assert !c.tasks[i].pc.InsertSession?;
    if e.Move? && e.task == i {
      ConfirmAdvances(c.tables, c.tasks[i], e.cuid, session, launch, tokenIds, left);
      if c.tasks[i].pc != Done(ServerError) {
        ConfirmNeverErrs(c.tables, c.tasks[i], e.cuid, session, launch, tokenIds, left);
      }
    } else if e != Abort(i) {
      ConfirmStays(c.tables, c'.tables, c.tasks[i], session, launch, tokenIds, left);
    }
  }

  lemma ConfirmNeverErrs(t: Tables, task: Task, cuid: string, session: string, launch: string, tokenIds: seq<int>,
                         left: nat)
    requires ConfirmOnTrack(t, task, session, launch, tokenIds, left) && task.pc != Done(ServerError)
    ensures Advance(t, task, cuid).1 != Done(ServerError)
  {}

  lemma {:induction false} ConfirmRun(c: Config, events: seq<Event>, i: nat, session: string, launch: string,
                                      tokenIds: seq<int>, left: nat)
    requires ConfigOk(c) && Ready(c.tables, session, launch, tokenIds) && i < |c.tasks|
    requires ConfirmOnTrack(c.tables, c.tasks[i], session, launch, tokenIds, left)
    ensures var c' := Run(c, events);
      && i < |c'.tasks|
      && (exists rest: nat :: ConfirmOnTrack(c'.tables, c'.tasks[i], session, launch, tokenIds, rest))
      && (!Killed(events, i) && c.tasks[i].pc != Done(ServerError) ==>
            && c'.tasks[i].pc != Done(ServerError)
            && (Moves(events, i) >= left ==> c'.tasks[i].pc.Done?))
    decreases |events|
  {
    hide ConfigOk, Ready, Step, ConfirmOnTrack;
    if events == [] {
      OnTrackEnds(c.tables, c.tasks[i], session, launch, tokenIds, left);
    } else {
      var e := events[0];
      var c1 := Step(c, e);
      var left1 := if e == Abort(i) then 0 else if e.Move? && e.task == i && left > 0 then left - 1 else left;
      ConfirmStep(c, e, i, session, launch, tokenIds, left);
      StepKeepsConfig(c, e);
      ConfirmRun(c1, events[1..], i, session, launch, tokenIds, left1);
      if !Killed(events, i) {
        assert events[0] != Abort(i);
        assert forall k :: 0 <= k < |events[1..]| ==> events[1..][k] == events[k + 1];
      }
    }
  }

  lemma OnTrackEnds(t: Tables, task: Task, session: string, launch: string, tokenIds: seq<int>, left: nat)
    requires ConfirmOnTrack(t, task, session, launch, tokenIds, left)
    ensures left == 0 <==> task.pc.Done?
  {}

  predicate AmongItems(tokenIds: seq<int>, items: seq<Item>) {
    forall k :: 0 <= k < |tokenIds| ==> HasItem(items, tokenIds[k])
  }

  predicate HasItem(items: seq<Item>, tokenId: int) {
    exists m :: 0 <= m < |items| && items[m].tokenId == tokenId
  }

  // Bulk upload: once a bulk upload has been answered with its URLs, a confirm that the same session then sends for
  // ids among the uploaded ones is never refused, whatever other clients' handlers run in between. It ends with
  // success or with a server error; if it is not killed and gets its three statements, it ends with success; and
  // from success on, at every later point, all its ids are rows marked uploaded.
  lemma BulkUploadProtocol(before: seq<Event>, j: nat, session: string, launch: string, items: seq<Item>,
                           folder: string,
                           tokenIds: seq<int>, during: seq<Event>, later: seq<Event>)
    requires j < |Run(IDLE, before).tasks|
    requires Run(IDLE, before).tasks[j] == Task(Act(session, BulkUpload(launch, items)), Done(Urls(folder, items)))
    requires AmongItems(tokenIds, items)
    ensures var c0 := Run(IDLE, before);
      var i := |c0.tasks|;
      var c1 := Run(Step(c0, Arrive(Act(session, BulkConfirm(launch, tokenIds)))), during);
      && i < |c1.tasks|
      && (c1.tasks[i].pc.Done? ==> c1.tasks[i].pc.response in {Success, ServerError})
      && (!Killed(during, i) && Moves(during, i) >= 3 ==> c1.tasks[i].pc == Done(Success))
      && (c1.tasks[i].pc == Done(Success) ==>
            forall k :: 0 <= k < |tokenIds| ==> IsUploaded(Run(c1, later).tables.rows, launch, tokenIds[k]))
  {
    var c0 := Run(IDLE, before);
    var i := |c0.tasks|;
    IdleOk();
    RunKeepsConfig(IDLE, before);
    hide ConfigOk, Run, IsUploaded, Extends, Ready, ConfirmOnTrack, TaskOk, AmongItems, Killed, Moves;
    UploadedIsReady(c0, j, session, launch, items, folder, tokenIds);
    ConfirmSent(c0, session, launch, tokenIds);
    var sent := Step(c0, Arrive(Act(session, BulkConfirm(launch, tokenIds))));
    ConfirmRun(sent, during, i, session, launch, tokenIds, 3);
    RunKeepsConfig(sent, during);
    var c1 := Run(sent, during);
    RunKeepsConfig(c1, later);
    var rest: nat :| ConfirmOnTrack(c1.tables, c1.tasks[i], session, launch, tokenIds, rest);
    OnTrackAnswer(c1.tables, c1.tasks[i], session, launch, tokenIds, rest);
    if c1.tasks[i].pc == Done(Success) {
      StableRows(c1.tables, Run(c1, later).tables, launch);
    }
  }

  lemma ConfirmSent(c: Config, session: string, launch: string, tokenIds: seq<int>)
    requires ConfigOk(c) && Ready(c.tables, session, launch, tokenIds)
    ensures var i, sent := |c.tasks|, Step(c, Arrive(Act(session, BulkConfirm(launch, tokenIds))));
      && ConfigOk(sent) && Ready(sent.tables, session, launch, tokenIds)
      && i < |sent.tasks| && sent.tasks[i].pc == Start
      && ConfirmOnTrack(sent.tables, sent.tasks[i], session, launch, tokenIds, 3)
  {
    hide ConfigOk, Ready;
    StepKeepsConfig(c, Arrive(Act(session, BulkConfirm(launch, tokenIds))));
  }

  lemma OnTrackAnswer(t: Tables, task: Task, session: string, launch: string, tokenIds: seq<int>, rest: nat)
    requires ConfirmOnTrack(t, task, session, launch, tokenIds, rest)
    ensures task.pc.Done? ==> task.pc.response in {Success, ServerError}
    ensures task.pc == Done(Success) ==> forall k :: 0 <= k < |tokenIds| ==> IsUploaded(t.rows, launch, tokenIds[k])
  {
    hide IsUploaded;
  }

  lemma UploadedIsReady(c: Config, j: nat, session: string, launch: string, items: seq<Item>, folder: string,
                        tokenIds: seq<int>)
    requires ConfigOk(c) && j < |c.tasks|
    requires c.tasks[j] == Task(Act(session, BulkUpload(launch, items)), Done(Urls(folder, items)))
    requires AmongItems(tokenIds, items)
    ensures Ready(c.tables, session, launch, tokenIds)
  {
    hide HasRow, Granted, TablesOk;
    assert TaskOk(c.tables, c.tasks[j]);
  }
}
