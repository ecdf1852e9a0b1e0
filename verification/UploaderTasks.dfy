/**
 * The handlers of the uploader as tasks that run one database statement at a time, any number of them at once.
 * cuid() is a fresh string, drawn when the row it names is inserted.
 */
module UploaderTasks {
  import opened Wrappers
  import opened UploaderTables
  import Numbers

  datatype Item = Item(tokenId: int, filename: string)

  datatype Request =
    | BulkUpload(launch: string, items: seq<Item>)
    | BulkConfirm(launch: string, tokenIds: seq<int>)
    | Upload(launch: string, extension: string)
    | Confirm(launch: string, tokenId: int)

  // A signature is told by the address it verifies for.
  datatype Call =
    | CreateSession(address: string)
    | VerifySession(hash: string, signer: string)
    | Act(session: string, request: Request)

  datatype Response =
    | SessionHash(hash: string)
    | Success
    | Urls(folder: string, items: seq<Item>)
    | OneUrl(folder: string, tokenId: int, name: string)
    | Refused(status: nat)
    | ServerError

  // The statement a task runs next; each names what the handler holds in its variables by then.
  datatype Pc =
    | Start
    | InsertSession
    | UpdateSession
    | SelectLaunchpad(address: string)
    | InsertLaunchpad(address: string)
    | InsertItem(address: string, folder: string, done: nat)
    | SelectMax(address: string, folder: string)
    | InsertRow(address: string, folder: string, number: int)
    | UpdateRows(address: string, folder: string)
    | SelectRow(address: string, folder: string)
    | UpdateRow(address: string, folder: string)
    | Done(response: Response)

  datatype Task = Task(call: Call, pc: Pc)

  function FirstTask(call: Call): Task {
    Task(call, Start)
  }

  function RowName(number: int, extension: string): string {
    Numbers.IntText(number) + "." + extension
  }

  // Going on with the items, or answering after the last one
  function ItemsFrom(address: string, folder: string, items: seq<Item>, done: nat): Pc {
    if done < |items| then InsertItem(address, folder, done) else Done(Urls(folder, items))
  }

  // What follows once the launchpad row is there
  function WithLaunchpad(request: Request, address: string, folder: string): Pc {
    match request
    case BulkUpload(_, items) => ItemsFrom(address, folder, items, 0)
    case BulkConfirm(_, _) => UpdateRows(address, folder)
    case Upload(_, _) => SelectMax(address, folder)
    case Confirm(_, _) => SelectRow(address, folder)
  }

  function FirstPc(t: Tables, call: Call): Pc {
    match call
    case CreateSession(address) =>
      (match SessionOf(t.sessions, address)
       case Some(s) => Done(SessionHash(s.hash))
       case None => InsertSession)
    case VerifySession(hash, signer) =>
      (match SessionBy(t.sessions, hash)
       case None => Done(Refused(404))
       case Some(s) => if s.address == signer then UpdateSession else Done(Refused(403)))
    case Act(session, _) =>
      match VerifiedSession(t.sessions, session)
      case None => Done(Refused(403))
      case Some(s) => SelectLaunchpad(s.address)
  }

  function LaunchpadPc(t: Tables, request: Request, address: string): Pc {
    match LaunchpadOf(t.launchpads, request.launch, address)
    case Some(l) => WithLaunchpad(request, address, l.folder)
    case None => if request.BulkUpload? || request.Upload? then InsertLaunchpad(address) else Done(Refused(404))
  }

  // One statement. A primary key that is taken and a name that is too long are server errors.
  function Advance(t: Tables, task: Task, cuid: string): (Tables, Pc) {
    match (task.pc, task.call)
    case (Start, call) => (t, FirstPc(t, call))
    case (InsertSession, CreateSession(address)) =>
      if SessionOf(t.sessions, address).Some? then (t, Done(ServerError))
      else (t.(sessions := t.sessions + [Session(address, cuid, false)]), Done(SessionHash(cuid)))
    case (UpdateSession, VerifySession(hash, _)) =>
      (t.(sessions := MarkVerified(t.sessions, hash)), Done(Success))
    case (SelectLaunchpad(address), Act(_, request)) => (t, LaunchpadPc(t, request, address))
    case (InsertLaunchpad(address), Act(_, request)) =>
      if exists k :: 0 <= k < |t.launchpads| && t.launchpads[k].hash == request.launch then (t, Done(ServerError))
      else (t.(launchpads := t.launchpads + [Launchpad(request.launch, address, cuid)]),
            WithLaunchpad(request, address, cuid))
    case (InsertItem(address, folder, done), Act(_, BulkUpload(launch, items))) =>
      if done >= |items| || |items[done].filename| > MAX_NAME then (t, Done(ServerError))
      else (t.(rows := InsertIgnore(t.rows, launch, items[done].tokenId, items[done].filename)),
            ItemsFrom(address, folder, items, done + 1))
    case (SelectMax(address, folder), Act(_, Upload(launch, _))) =>
      (t, InsertRow(address, folder, MaxNumber(t.rows, launch).GetOr(0) + 1))
    case (InsertRow(address, folder, number), Act(_, Upload(launch, extension))) =>
      if |RowName(number, extension)| > MAX_NAME then (t, Done(ServerError))
      else (t.(rows := InsertIgnore(t.rows, launch, number, RowName(number, extension))),
            Done(OneUrl(folder, number, RowName(number, extension))))
    case (UpdateRows(_, _), Act(_, BulkConfirm(launch, tokenIds))) =>
      (t.(rows := MarkUploaded(t.rows, launch, IdSet(tokenIds))), Done(Success))
    case (SelectRow(address, folder), Act(_, Confirm(launch, tokenId))) =>
      (t, if HasRow(t.rows, launch, tokenId) then UpdateRow(address, folder) else Done(Refused(404)))
    case (UpdateRow(_, _), Act(_, Confirm(launch, tokenId))) =>
      (t.(rows := MarkUploaded(t.rows, launch, {tokenId})), Done(Success))
    case (Done(response), _) => (t, Done(response))
    case _ => (t, Done(ServerError))
  }

  // ---- many tasks at once ----

  datatype Config = Config(tables: Tables, tasks: seq<Task>)

  // A call comes in, a task runs its next statement, or a task dies with a server error.
  datatype Event = Arrive(call: Call) | Move(task: nat, cuid: string) | Abort(task: nat)

  const IDLE := Config(EMPTY, [])

  predicate IsFresh(t: Tables, cuid: string) {
    forall k :: 0 <= k < |t.sessions| ==> t.sessions[k].hash != cuid
  }

  function Step(c: Config, e: Event): Config {
    match e
    case Arrive(call) => c.(tasks := c.tasks + [FirstTask(call)])
    case Move(i, cuid) =>
      if i < |c.tasks| && (c.tasks[i].pc.InsertSession? ==> IsFresh(c.tables, cuid)) then
        var (t, pc) := Advance(c.tables, c.tasks[i], cuid);
        Config(t, c.tasks[i := c.tasks[i].(pc := pc)])
      else c
    case Abort(i) =>
      if i < |c.tasks| && !c.tasks[i].pc.Done? then c.(tasks := c.tasks[i := c.tasks[i].(pc := Done(ServerError))])
      else c
  }

  function Run(c: Config, events: seq<Event>): Config
    decreases events
  {
    if events == [] then c else Run(Step(c, events[0]), events[1..])
  }

  // ---- what a task knows at each statement, whatever the others do ----

  ghost predicate OwnsSession(t: Tables, session: string, address: string) {
    exists k :: 0 <= k < |t.sessions| &&
      t.sessions[k].hash == session && t.sessions[k].address == address && t.sessions[k].verified
  }

  ghost predicate Granted(t: Tables, session: string, launch: string, address: string, folder: string) {
    OwnsSession(t, session, address) && Launchpad(launch, address, folder) in t.launchpads
  }

  ghost predicate HasItems(rows: seq<Row>, launch: string, items: seq<Item>, n: nat)
    requires n <= |items|
  {
    forall k :: 0 <= k < n ==> HasRow(rows, launch, items[k].tokenId)
  }

  ghost predicate TaskOk(t: Tables, task: Task) {
    match (task.pc, task.call)
    case (SelectLaunchpad(address), Act(session, _)) => OwnsSession(t, session, address)
    case (InsertLaunchpad(address), Act(session, _)) => OwnsSession(t, session, address)
    case (InsertItem(address, folder, done), Act(session, BulkUpload(launch, items))) =>
      Granted(t, session, launch, address, folder) && done < |items| && HasItems(t.rows, launch, items, done)
    case (SelectMax(address, folder), Act(session, request)) => Granted(t, session, request.launch, address, folder)
    case (InsertRow(address, folder, _), Act(session, request)) => Granted(t, session, request.launch, address, folder)
    case (UpdateRows(address, folder), Act(session, request)) => Granted(t, session, request.launch, address, folder)
    case (SelectRow(address, folder), Act(session, request)) => Granted(t, session, request.launch, address, folder)
    case (UpdateRow(address, folder), Act(session, request)) =>
      Granted(t, session, request.launch, address, folder)
      && request.Confirm? && HasRow(t.rows, request.launch, request.tokenId)
    case (Done(Urls(folder, listed)), Act(session, BulkUpload(launch, items))) =>
      (exists address :: Granted(t, session, launch, address, folder)) && listed == items
      && HasItems(t.rows, launch, items, |items|)
    case (Done(OneUrl(folder, tokenId, _)), Act(session, Upload(launch, _))) =>
      (exists address :: Granted(t, session, launch, address, folder)) && HasRow(t.rows, launch, tokenId)
    case (Done(Success), Act(_, Confirm(launch, tokenId))) => IsUploaded(t.rows, launch, tokenId)
    case _ => true
  }

  ghost predicate ConfigOk(c: Config) {
    TablesOk(c.tables) && forall k :: 0 <= k < |c.tasks| ==> TaskOk(c.tables, c.tasks[k])
  }
}
