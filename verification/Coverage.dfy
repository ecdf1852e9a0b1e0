/** The counts the service reports for launches, and what "uploaded >= max_supply" says about the ids. */
module Coverage {
  import opened Wrappers
  import opened UploaderTables
  import opened UploaderTasks
  import opened UploaderSafety
  import opened UploaderService
  import D = TokenDraw

  datatype Stat = Stat(launch: string, total: nat, uploaded: nat)

  // GET /launchpad/:launchHash. A count without a group always answers with one row, so 404 is never sent.
  function LaunchpadStat(rows: seq<Row>, launch: string): Stat {
    if rows == [] then Stat(launch, 0, 0)
    else Counted(LaunchpadStat(rows[..|rows| - 1], launch), rows[|rows| - 1])
  }

  function Counted(stat: Stat, row: Row): Stat {
    if stat.launch != row.launch then stat
    else Stat(stat.launch, stat.total + 1, stat.uploaded + if row.uploaded then 1 else 0)
  }

  // GET /launchpads: one group for each launch that has a row
  function Launchpads(rows: seq<Row>): seq<Stat> {
    if rows == [] then [] else AddToGroups(Launchpads(rows[..|rows| - 1]), rows[|rows| - 1])
  }

  function AddToGroups(groups: seq<Stat>, row: Row): seq<Stat> {
    if groups == [] then [Counted(Stat(row.launch, 0, 0), row)]
    else if groups[0].launch == row.launch then [Counted(groups[0], row)] + groups[1..]
    else [groups[0]] + AddToGroups(groups[1..], row)
  }

  function StatFor(groups: seq<Stat>, launch: string): Option<Stat> {
    if groups == [] then None
    else if groups[0].launch == launch then Some(groups[0])
    else StatFor(groups[1..], launch)
  }

  ghost predicate OneEach(groups: seq<Stat>) {
    forall i, j :: 0 <= i < j < |groups| ==> groups[i].launch != groups[j].launch
  }

  lemma {:induction false} AddedStat(groups: seq<Stat>, row: Row, launch: string)
    requires OneEach(groups)
    ensures OneEach(AddToGroups(groups, row))
    ensures forall g :: g in AddToGroups(groups, row) ==>
              g.launch == row.launch || exists h :: h in groups && h.launch == g.launch
    ensures StatFor(AddToGroups(groups, row), launch)
         == if launch == row.launch then Some(Counted(StatFor(groups, launch).GetOr(Stat(launch, 0, 0)), row))
            else StatFor(groups, launch)
  {
    if groups != [] && groups[0].launch != row.launch {
      var rest := groups[1..];
      AddedStat(rest, row, launch);
      var after := AddToGroups(groups, row);
      assert after[1..] == AddToGroups(rest, row);
      forall k | 1 <= k < |after| ensures after[k].launch != groups[0].launch {
        assert after[k] in AddToGroups(rest, row);
      }
    } else if groups != [] {
      var after := AddToGroups(groups, row);
      assert after[1..] == groups[1..];
      assert after[0].launch == groups[0].launch;
      forall g | g in after ensures g.launch == row.launch || exists h :: h in groups && h.launch == g.launch {
        if g != after[0] { assert g in groups; }
      }
    }
  }

  // The list and the single query agree: a launch is in the list, once, exactly when it has a row, and then with the
  // same counts.
  lemma {:induction false} ListAgreesWithSingle(rows: seq<Row>, launch: string)
    ensures OneEach(Launchpads(rows))
    ensures StatFor(Launchpads(rows), launch)
         == if LaunchpadStat(rows, launch).total == 0 then None else Some(LaunchpadStat(rows, launch))
    ensures LaunchpadStat(rows, launch).launch == launch
    ensures LaunchpadStat(rows, launch).total == 0 ==> LaunchpadStat(rows, launch).uploaded == 0
    decreases |rows|
  {
    if rows != [] {
      var init, last := rows[..|rows| - 1], rows[|rows| - 1];
      ListAgreesWithSingle(init, launch);
      AddedStat(Launchpads(init), last, launch);
    }
  }

  // ---- coverage ----

  // The ids of a launch whose assets are uploaded
  function UploadedIds(rows: seq<Row>, launch: string): set<int> {
    set k | 0 <= k < |rows| && rows[k].launch == launch && rows[k].uploaded :: rows[k].number
  }

  // The last row adds its id, if it counts.
  lemma LastUploaded(init: seq<Row>, last: Row, launch: string)
    ensures UploadedIds(init + [last], launch)
         == UploadedIds(init, launch) + if last.launch == launch && last.uploaded then {last.number} else {}
  {
    var rows := init + [last];
    assert rows[|init|] == last && forall k :: 0 <= k < |init| ==> rows[k] == init[k];
    forall n | n in UploadedIds(init, launch) ensures n in UploadedIds(rows, launch) {
      var k :| 0 <= k < |init| && init[k].launch == launch && init[k].uploaded && init[k].number == n;
      assert rows[k].number == n;
    }
  }

  // The total counts every row of the launch.
  lemma {:induction false} TotalCount(rows: seq<Row>, launch: string)
    ensures LaunchpadStat(rows, launch).launch == launch
    ensures LaunchpadStat(rows, launch).total == |set k | 0 <= k < |rows| && rows[k].launch == launch|
    decreases |rows|
  {
    if rows != [] {
      var init, last := rows[..|rows| - 1], rows[|rows| - 1];
      TotalCount(init, launch);
      var before := set k | 0 <= k < |init| && init[k].launch == launch;
      var after := set k | 0 <= k < |rows| && rows[k].launch == launch;
      assert after == before + if last.launch == launch then {|rows| - 1} else {};
    }
  }

  lemma {:induction false} UploadedCount(rows: seq<Row>, launch: string)
    requires UniqueRows(rows)
    ensures LaunchpadStat(rows, launch).uploaded == |UploadedIds(rows, launch)|
    ensures LaunchpadStat(rows, launch).launch == launch
    decreases |rows|
  {
    if rows != [] {
      var init, last := rows[..|rows| - 1], rows[|rows| - 1];
      assert rows == init + [last];
      UploadedCount(init, launch);
      LastUploaded(init, last, launch);
      assert last.launch == launch ==> last.number !in UploadedIds(init, launch);
      hide UploadedIds;
    }
  }

  predicate AllUploaded(rows: seq<Row>, launch: string, maxSupply: nat) {
    forall n :: 1 <= n <= maxSupply ==> n in UploadedIds(rows, launch)
  }

  // A launch is listed as active: it is not minted out, the service lists it, and enough is uploaded. A missing supply
  // compares as 0.
  function IsListed(rows: seq<Row>, launch: string, maxSupply: Option<nat>, minted: nat): bool {
    if maxSupply.GetOr(0) != 0 && maxSupply == Some(minted) then false
    else match StatFor(Launchpads(rows), launch)
      case None => false
      case Some(stat) => stat.uploaded >= maxSupply.GetOr(0)
  }

  predicate MintedOut(maxSupply: Option<nat>, minted: nat) {
    maxSupply.Some? && maxSupply.value == minted != 0
  }

  lemma {:induction false} RowsAreCounted(rows: seq<Row>, launch: string)
    ensures LaunchpadStat(rows, launch).launch == launch
    ensures LaunchpadStat(rows, launch).total > 0 <==> HasRows(rows, launch)
    decreases |rows|
  {
    if rows != [] {
      var init := rows[..|rows| - 1];
      RowsAreCounted(init, launch);
      assert forall k :: 0 <= k < |init| ==> init[k] == rows[k];
    }
  }

  // The gate compares counts: a launch is listed exactly when it is not minted out, has a row, and at least as many
  // uploaded ids lie outside 1..max_supply as are missing inside.
  lemma GateExactly(rows: seq<Row>, launch: string, maxSupply: Option<nat>, minted: nat)
    requires UniqueRows(rows)
    ensures var ids, up := D.UpTo(maxSupply.GetOr(0)), UploadedIds(rows, launch);
      IsListed(rows, launch, maxSupply, minted)
      <==> !MintedOut(maxSupply, minted) && HasRows(rows, launch) && |up - ids| >= |ids - up|
  {
    ListAgreesWithSingle(rows, launch);
    RowsAreCounted(rows, launch);
    UploadedCount(rows, launch);
    hide UploadedIds, D.UpTo, LaunchpadStat, Launchpads, StatFor, UniqueRows;
    CompareBySurplus(UploadedIds(rows, launch), D.UpTo(maxSupply.GetOr(0)));
  }

  lemma CompareBySurplus(a: set<int>, b: set<int>)
    ensures |a| >= |b| <==> |a - b| >= |b - a|
  {
    assert a == (a - b) + a * b && b == (b - a) + a * b;
    assert |a| == |a - b| + |a * b| && |b| == |b - a| + |a * b|;
  }

  predicate IdsInRange(rows: seq<Row>, launch: string, maxSupply: nat) {
    forall k :: 0 <= k < |rows| && rows[k].launch == launch ==> 1 <= rows[k].number <= maxSupply
  }

  // With ids in range, it is listed exactly when it is not minted out and every id is uploaded, and then whatever id
  // the mint bot draws has its assets.
  lemma GateMeansCovered(rows: seq<Row>, launch: string, maxSupply: nat, minted: nat)
    requires UniqueRows(rows) && IdsInRange(rows, launch, maxSupply)
    ensures IsListed(rows, launch, Some(maxSupply), minted)
       <==> !MintedOut(Some(maxSupply), minted) && HasRows(rows, launch) && AllUploaded(rows, launch, maxSupply)
    ensures maxSupply > 0 && IsListed(rows, launch, Some(maxSupply), minted) ==>
      forall r :: 0.0 <= r < 1.0 ==> IsUploaded(rows, launch, D.TokenAt(r, Some(maxSupply)))
  {
    GateExactly(rows, launch, Some(maxSupply), minted);
    var up, ids := UploadedIds(rows, launch), D.UpTo(maxSupply);
    hide IsListed;
    assert up - ids == {};
    if |ids - up| == 0 {
      assert ids - up == {};
      forall n | 1 <= n <= maxSupply ensures n in up { assert n in ids && n !in ids - up; }
    }
    if AllUploaded(rows, launch, maxSupply) {
      assert ids - up == {};
      forall r | maxSupply > 0 && 0.0 <= r < 1.0 ensures IsUploaded(rows, launch, D.TokenAt(r, Some(maxSupply))) {
        assert D.TokenAt(r, Some(maxSupply)) in up;
      }
    }
  }

  // ---- out of range ----

  // The service does not look at the range of ids: some run leaves a launch of supply 1 with the one row of id 2,
  // uploaded, and the launch is then listed with no assets for the id it can mint.
  lemma GateOpensUncovered()
    ensures exists events ::
      var rows := Run(IDLE, events).tables.rows;
      && rows == [Row("l", 2, "2.png", true)]
      && IsListed(rows, "l", Some(1), 0) && !IsUploaded(rows, "l", 1)
  {
    var first := OpenSession();
    var second := UploadAndConfirm(Run(IDLE, first));
    hide Run;
    RunConcat(IDLE, first, second);
    var rows := [Row("l", 2, "2.png", true)];
    assert rows[..0] == [];
    assert Run(IDLE, first + second).tables.rows == rows;
  }

  lemma OpenSession() returns (events: seq<Event>)
    ensures Run(IDLE, events).tables == Tables([Session("a", "s", true)], [], [])
  {
    var create := HandleIsRun(IDLE, CreateSession("a"), "s");
    CreateHandled(EMPTY, "a", "s");
    hide Run, Handle;
    var c := Run(IDLE, create);
    var verify := HandleIsRun(c, VerifySession("s", "a"), "");
    VerifyHandled(c.tables, "s", "a", "");
    RunConcat(IDLE, create, verify);
    events := create + verify;
  }

  lemma UploadAndConfirm(c: Config) returns (events: seq<Event>)
    requires c.tables == Tables([Session("a", "s", true)], [], [])
    ensures Run(c, events).tables.rows == [Row("l", 2, "2.png", true)]
  {
    hide Run, Handle;
    var items := [Item(2, "2.png")];
    var upload := HandleIsRun(c, Act("s", BulkUpload("l", items)), "f");
    BulkUploadHandled(c.tables, "s", "l", items, "f");
    var c1 := Run(c, upload);
    assert Fitting(items) == 1 && items[..1] == items && items[1..] == [];
    assert c1.tables.rows == [Row("l", 2, "2.png", false)];
    var confirm := HandleIsRun(c1, Act("s", BulkConfirm("l", [2])), "");
    BulkConfirmHandled(c1.tables, "s", "l", [2], "");
    RunConcat(c, upload, confirm);
    events := upload + confirm;
  }
}
