/**
 * Uploads that run at the same time: each selects the largest id of the launch and later inserts the next one.
 * Which interleavings give two of them the same id, and that some do.
 */
module UploaderRace {
  import opened Wrappers
  import opened UploaderTables
  import opened UploaderTasks
  import opened UploaderSafety
  import opened UploaderService

  // The id an upload takes, going by the rows it selects from
  function NextId(rows: seq<Row>, launch: string): int {
    MaxNumber(rows, launch).GetOr(0) + 1
  }

  // Some row of the launch has that number or a larger one.
  predicate Reaches(rows: seq<Row>, launch: string, number: int) {
    exists k :: 0 <= k < |rows| && rows[k].launch == launch && rows[k].number >= number
  }

  // How the ids taken from two states of the table compare, when rows were only added in between. A launch without
  // rows starts at 1, and bulk uploads may give it rows below that.
  lemma NextIdsCompare(a: seq<Row>, b: seq<Row>, launch: string)
    requires RowsExtend(a, b)
    ensures var n, m := NextId(a, launch), NextId(b, launch);
      if HasRows(a, launch) then
        n <= m && (n == m <==> !Reaches(b, launch, n))
      else
        && n == 1
        && (n <= m <==> !HasRows(b, launch) || Reaches(b, launch, 0))
        && (n == m <==> !Reaches(b, launch, 1) && (HasRows(b, launch) ==> Reaches(b, launch, 0)))
  {
    LargestId(a, launch);
    LargestId(b, launch);
    hide MaxNumber;
    if MaxNumber(a, launch).Some? {
      var k :| 0 <= k < |a| && a[k].launch == launch && a[k].number == MaxNumber(a, launch).value;
      assert b[k].launch == launch && b[k].number == a[k].number;
    }
  }

  lemma LargestId(rows: seq<Row>, launch: string)
    ensures MaxNumber(rows, launch).None? <==> !HasRows(rows, launch)
    ensures HasRows(rows, launch) ==>
      var max := MaxNumber(rows, launch).value;
      HasRow(rows, launch, max) && forall n :: Reaches(rows, launch, n) <==> n <= max
  {
    if MaxNumber(rows, launch).Some? {
      var max := MaxNumber(rows, launch).value;
      var k :| 0 <= k < |rows| && rows[k].launch == launch && rows[k].number == max;
    }
  }

  predicate IsUpload(call: Call, launch: string) {
    call.Act? && call.request.Upload? && call.request.launch == launch
  }

  // What an upload that has selected its id comes to: it still holds the id, answers with it, or fails.
  predicate Holds(pc: Pc, number: int) {
    match pc
    case InsertRow(_, _, n) => n == number
    case Done(OneUrl(_, n, _)) => n == number
    case Done(ServerError) => true
    case _ => false
  }

  predicate Answered(task: Task) {
    task.pc.Done? && task.pc.response.OneUrl?
  }

  lemma {:induction false} HoldsThroughRun(c: Config, events: seq<Event>, i: nat, launch: string, number: int)
    requires i < |c.tasks| && IsUpload(c.tasks[i].call, launch) && Holds(c.tasks[i].pc, number)
    ensures var c' := Run(c, events);
      i < |c'.tasks| && c'.tasks[i].call == c.tasks[i].call && Holds(c'.tasks[i].pc, number)
    decreases |events|
  {
    if events != [] {
      HoldsThroughStep(c, events[0], i, launch, number);
      HoldsThroughRun(Step(c, events[0]), events[1..], i, launch, number);
    }
  }

  lemma HoldsThroughStep(c: Config, e: Event, i: nat, launch: string, number: int)
    requires i < |c.tasks| && IsUpload(c.tasks[i].call, launch) && Holds(c.tasks[i].pc, number)
    ensures var c' := Step(c, e);
      i < |c'.tasks| && c'.tasks[i].call == c.tasks[i].call && Holds(c'.tasks[i].pc, number)
  {
    hide RowName, InsertIgnore;
  }

  lemma SelectTakesNextId(c: Config, i: nat, launch: string, cuid: string)
    requires i < |c.tasks| && IsUpload(c.tasks[i].call, launch) && c.tasks[i].pc.SelectMax?
    ensures var c' := Step(c, Move(i, cuid));
      && c'.tables == c.tables && i < |c'.tasks| && c'.tasks[i].call == c.tasks[i].call
      && c'.tasks[i].pc == InsertRow(c.tasks[i].pc.address, c.tasks[i].pc.folder, NextId(c.tables.rows, launch))
  {}

  lemma AnsweredHasRow(c: Config, i: nat, launch: string)
    requires ConfigOk(c) && i < |c.tasks| && IsUpload(c.tasks[i].call, launch) && Answered(c.tasks[i])
    ensures HasRow(c.tables.rows, launch, c.tasks[i].pc.response.tokenId)
  {
    hide TablesOk, HasRow;
    assert TaskOk(c.tables, c.tasks[i]);
  }

  // Exactly when two uploads of a launch are given one id. Upload i selects in c, upload j selects later, after
  // `between`, and both are answered in the end, whatever other handlers do all along. Each answer is the id taken at
  // its select. With a row of the launch at the first select, the second id is never below the first, and is the same
  // exactly when at the second select no row of the launch has come up to it; without one the first id is 1, and
  // the two are the same exactly when by then the launch has no row or its largest number is 0. An upload that is
  // answered before the other selects never shares its id.
  lemma UploadsShareAnIdExactly(c: Config, launch: string, i: nat, cuidI: string, between: seq<Event>,
                                j: nat, cuidJ: string, later: seq<Event>)
    requires ConfigOk(c)
    requires i < |c.tasks| && IsUpload(c.tasks[i].call, launch) && c.tasks[i].pc.SelectMax?
    requires var second := Run(Step(c, Move(i, cuidI)), between);
      && j < |second.tasks| && IsUpload(second.tasks[j].call, launch) && second.tasks[j].pc.SelectMax?
      && var end := Run(Step(second, Move(j, cuidJ)), later);
         i < |end.tasks| && Answered(end.tasks[i]) && j < |end.tasks| && Answered(end.tasks[j])
    ensures var second := Run(Step(c, Move(i, cuidI)), between);
      var end := Run(Step(second, Move(j, cuidJ)), later);
      var idI, idJ := end.tasks[i].pc.response.tokenId, end.tasks[j].pc.response.tokenId;
      && idI == NextId(c.tables.rows, launch) && idJ == NextId(second.tables.rows, launch)
      && (if HasRows(c.tables.rows, launch) then
            idI <= idJ && (idI == idJ <==> !Reaches(second.tables.rows, launch, idI))
          else
            && idI == 1
            && (idI <= idJ <==> HasRows(second.tables.rows, launch) ==> Reaches(second.tables.rows, launch, 0))
            && (idI == idJ <==> !Reaches(second.tables.rows, launch, 1)
                                && (HasRows(second.tables.rows, launch) ==> Reaches(second.tables.rows, launch, 0))))
      && i < |second.tasks| && (Answered(second.tasks[i]) ==> idI < idJ)
  {
    hide Run, Step, ConfigOk, NextId, HasRows, Reaches;
    var first := Step(c, Move(i, cuidI));
    StepKeepsConfig(c, Move(i, cuidI));
    SelectTakesNextId(c, i, launch, cuidI);
    var n := NextId(c.tables.rows, launch);
    HoldsThroughRun(first, between, i, launch, n);
    RunKeepsConfig(first, between);
    var second := Run(first, between);
    SelectedLater(second, launch, i, n, j, cuidJ, later);
    NextIdsCompare(c.tables.rows, second.tables.rows, launch);
    if Answered(second.tasks[i]) {
      AnsweredHasRow(second, i, launch);
      RowIsBelow(second.tables.rows, launch, n);
    }
  }

  // The second select and what both uploads answer with
  lemma SelectedLater(second: Config, launch: string, i: nat, n: int, j: nat, cuid: string, later: seq<Event>)
    requires i < |second.tasks| && IsUpload(second.tasks[i].call, launch) && Holds(second.tasks[i].pc, n)
    requires j < |second.tasks| && IsUpload(second.tasks[j].call, launch) && second.tasks[j].pc.SelectMax?
    ensures var end := Run(Step(second, Move(j, cuid)), later);
      && i < |end.tasks| && Holds(end.tasks[i].pc, n)
      && j < |end.tasks| && Holds(end.tasks[j].pc, NextId(second.tables.rows, launch))
  {
    hide Run, Step, NextId;
    SelectTakesNextId(second, j, launch, cuid);
    HoldsThroughStep(second, Move(j, cuid), i, launch, n);
    HoldsThroughRun(Step(second, Move(j, cuid)), later, i, launch, n);
    HoldsThroughRun(Step(second, Move(j, cuid)), later, j, launch, NextId(second.tables.rows, launch));
  }

  lemma RowIsBelow(rows: seq<Row>, launch: string, number: int)
    requires HasRow(rows, launch, number)
    ensures number < NextId(rows, launch)
  {}

  // Interleaved statement by statement, two uploads of one creator can be given the same id: both read the same
  // maximum, and the second insert is ignored. Both are answered with a URL, and one row stands for the two.
  lemma InterleavedUploadsShareAnId(t: Tables, session: string, launch: string, x: string, y: string)
    requires Access(t, session, launch).Some?
    requires |RowName(MaxNumber(t.rows, launch).GetOr(0) + 1, x)| <= MAX_NAME
    requires |RowName(MaxNumber(t.rows, launch).GetOr(0) + 1, y)| <= MAX_NAME
    ensures var callX, callY := Act(session, Upload(launch, x)), Act(session, Upload(launch, y));
      var folder, number := Access(t, session, launch).value.folder, MaxNumber(t.rows, launch).GetOr(0) + 1;
      Run(Config(t, [FirstTask(callX), FirstTask(callY)]),
          [Move(0, ""), Move(0, ""), Move(1, ""), Move(1, "")] + [Move(0, ""), Move(1, ""), Move(0, ""), Move(1, "")])
      == Config(t.(rows := t.rows + [Row(launch, number, RowName(number, x), false)]),
                [Task(callX, Done(OneUrl(folder, number, RowName(number, x)))),
                 Task(callY, Done(OneUrl(folder, number, RowName(number, y))))])
  {
    hide RowName, Run, Step, MaxNumber, InsertIgnore;
    var l := Access(t, session, launch).value;
    var number := MaxNumber(t.rows, launch).GetOr(0) + 1;
    var callX, callY := Act(session, Upload(launch, x)), Act(session, Upload(launch, y));
    var c0 := Config(t, [FirstTask(callX), FirstTask(callY)]);
    var c1 := Config(t, [Task(callX, SelectMax(l.creator, l.folder)), Task(callY, SelectMax(l.creator, l.folder))]);
    BothOpen(t, callX, callY);
    BothRead(t, callX, callY, l.creator, l.folder);
    NewNumber(t.rows, launch, RowName(number, x));
    BothInsert(t, callX, callY, l.creator, l.folder, number);
    RunOfFour(c0, Move(0, ""), Move(0, ""), Move(1, ""), Move(1, ""));
    RunOfFour(c1, Move(0, ""), Move(1, ""), Move(0, ""), Move(1, ""));
    RunConcat(c0, [Move(0, ""), Move(0, ""), Move(1, ""), Move(1, "")],
              [Move(0, ""), Move(1, ""), Move(0, ""), Move(1, "")]);
  }

  lemma BothOpen(t: Tables, callX: Call, callY: Call)
    requires callX.Act? && callX.request.Upload? && callY.Act? && callY.request.Upload?
    requires callX.session == callY.session && callX.request.launch == callY.request.launch
    requires Access(t, callX.session, callX.request.launch).Some?
    ensures var l := Access(t, callX.session, callX.request.launch).value;
      Step(Step(Step(Step(Config(t, [FirstTask(callX), FirstTask(callY)]), Move(0, "")), Move(0, "")), Move(1, "")),
           Move(1, ""))
      == Config(t, [Task(callX, SelectMax(l.creator, l.folder)), Task(callY, SelectMax(l.creator, l.folder))])
  {
    OpenUpload(t, [FirstTask(callX), FirstTask(callY)], 0);
    var l := Access(t, callX.session, callX.request.launch).value;
    OpenUpload(t, [Task(callX, SelectMax(l.creator, l.folder)), FirstTask(callY)], 1);
    hide Step;
    assert [FirstTask(callX), FirstTask(callY)][0 := Task(callX, SelectMax(l.creator, l.folder))]
        == [Task(callX, SelectMax(l.creator, l.folder)), FirstTask(callY)];
    assert [Task(callX, SelectMax(l.creator, l.folder)), FirstTask(callY)]
             [1 := Task(callY, SelectMax(l.creator, l.folder))]
        == [Task(callX, SelectMax(l.creator, l.folder)), Task(callY, SelectMax(l.creator, l.folder))];
  }

  lemma OpenUpload(t: Tables, tasks: seq<Task>, i: nat)
    requires i < |tasks| && tasks[i].pc.Start? && tasks[i].call.Act? && tasks[i].call.request.Upload?
    requires Access(t, tasks[i].call.session, tasks[i].call.request.launch).Some?
    ensures var l := Access(t, tasks[i].call.session, tasks[i].call.request.launch).value;
      Step(Step(Config(t, tasks), Move(i, "")), Move(i, ""))
      == Config(t, tasks[i := Task(tasks[i].call, SelectMax(l.creator, l.folder))])
  {
    var call := tasks[i].call;
    var address := VerifiedSession(t.sessions, call.session).value.address;
    assert Step(Config(t, tasks), Move(i, "")) == Config(t, tasks[i := Task(call, SelectLaunchpad(address))]);
  }

  lemma BothRead(t: Tables, callX: Call, callY: Call, address: string, folder: string)
    requires callX.Act? && callX.request.Upload? && callY.Act? && callY.request.Upload?
    requires callX.request.launch == callY.request.launch
    ensures var number := MaxNumber(t.rows, callX.request.launch).GetOr(0) + 1;
      Step(Step(Config(t, [Task(callX, SelectMax(address, folder)), Task(callY, SelectMax(address, folder))]),
                Move(0, "")), Move(1, ""))
      == Config(t, [Task(callX, InsertRow(address, folder, number)), Task(callY, InsertRow(address, folder, number))])
  {}

  lemma BothInsert(t: Tables, callX: Call, callY: Call, address: string, folder: string, number: int)
    requires callX.Act? && callX.request.Upload? && callY.Act? && callY.request.Upload?
    requires callX.request.launch == callY.request.launch && !HasRow(t.rows, callX.request.launch, number)
    requires |RowName(number, callX.request.extension)| <= MAX_NAME
    requires |RowName(number, callY.request.extension)| <= MAX_NAME
    ensures var x, y := RowName(number, callX.request.extension), RowName(number, callY.request.extension);
      Step(Step(Config(t, [Task(callX, InsertRow(address, folder, number)),
                           Task(callY, InsertRow(address, folder, number))]),
                Move(0, "")), Move(1, ""))
      == Config(t.(rows := t.rows + [Row(callX.request.launch, number, x, false)]),
                [Task(callX, Done(OneUrl(folder, number, x))), Task(callY, Done(OneUrl(folder, number, y)))])
  {
    hide RowName;
    var rows := t.rows + [Row(callX.request.launch, number, RowName(number, callX.request.extension), false)];
    assert rows[|t.rows|].launch == callX.request.launch && rows[|t.rows|].number == number;
    assert HasRow(rows, callX.request.launch, number);
  }

  lemma NewNumber(rows: seq<Row>, launch: string, name: string)
    ensures !HasRow(rows, launch, MaxNumber(rows, launch).GetOr(0) + 1)
  {}

  lemma RunOfFour(c: Config, e1: Event, e2: Event, e3: Event, e4: Event)
    ensures Run(c, [e1, e2, e3, e4]) == Step(Step(Step(Step(c, e1), e2), e3), e4)
  {
    hide Step;
    assert [e1, e2, e3, e4][1..] == [e2, e3, e4] && [e2, e3, e4][1..] == [e3, e4];
    assert [e3, e4][1..] == [e4] && [e4][1..] == [];
    var c2 := Step(Step(c, e1), e2);
    assert Run(c2, [e3, e4]) == Run(Step(c2, e3), [e4]) == Step(Step(c2, e3), e4);
    assert Run(c, [e1, e2, e3, e4]) == Run(Step(c, e1), [e2, e3, e4]);
  }
}
