/** The uploader's three tables, their constraints, and the statements the handlers run on them. */
module UploaderTables {
  import opened Wrappers

  datatype Session = Session(address: string, hash: string, verified: bool)

  datatype Launchpad = Launchpad(hash: string, creator: string, folder: string)

  datatype Row = Row(launch: string, number: int, name: string, uploaded: bool)

  datatype Tables = Tables(sessions: seq<Session>, launchpads: seq<Launchpad>, rows: seq<Row>)

  const EMPTY := Tables([], [], [])

  // The width of the name column
  const MAX_NAME: nat := 50

  // ---- select ... first() ----

  function SessionOf(sessions: seq<Session>, address: string): (r: Option<Session>)
    ensures r.Some? ==> r.value in sessions && r.value.address == address
    ensures r.None? ==> forall s :: s in sessions ==> s.address != address
  {
    if sessions == [] then None
    else if sessions[0].address == address then Some(sessions[0])
    else SessionOf(sessions[1..], address)
  }

  function SessionBy(sessions: seq<Session>, hash: string): (r: Option<Session>)
    ensures r.Some? ==> r.value in sessions && r.value.hash == hash
    ensures r.None? ==> forall s :: s in sessions ==> s.hash != hash
  {
    if sessions == [] then None
    else if sessions[0].hash == hash then Some(sessions[0])
    else SessionBy(sessions[1..], hash)
  }

  function VerifiedSession(sessions: seq<Session>, hash: string): (r: Option<Session>)
    ensures r.Some? ==> r.value in sessions && r.value.hash == hash && r.value.verified
    ensures r.None? ==> forall s :: s in sessions ==> !(s.hash == hash && s.verified)
  {
    if sessions == [] then None
    else if sessions[0].hash == hash && sessions[0].verified then Some(sessions[0])
    else VerifiedSession(sessions[1..], hash)
  }

  function LaunchpadOf(launchpads: seq<Launchpad>, hash: string, creator: string): (r: Option<Launchpad>)
    ensures r.Some? ==> r.value in launchpads && r.value.hash == hash && r.value.creator == creator
    ensures r.None? ==> forall l :: l in launchpads ==> !(l.hash == hash && l.creator == creator)
  {
    if launchpads == [] then None
    else if launchpads[0].hash == hash && launchpads[0].creator == creator then Some(launchpads[0])
    else LaunchpadOf(launchpads[1..], hash, creator)
  }

  predicate HasRow(rows: seq<Row>, launch: string, number: int) {
    exists k :: 0 <= k < |rows| && rows[k].launch == launch && rows[k].number == number
  }

  predicate HasRows(rows: seq<Row>, launch: string) {
    exists k :: 0 <= k < |rows| && rows[k].launch == launch
  }

  // max(inscription_number) over a launch
  function MaxNumber(rows: seq<Row>, launch: string): (r: Option<int>)
    ensures r.None? ==> forall k :: 0 <= k < |rows| ==> rows[k].launch != launch
    ensures r.Some? ==> HasRow(rows, launch, r.value)
    ensures r.Some? ==> forall k :: 0 <= k < |rows| && rows[k].launch == launch ==> rows[k].number <= r.value
  {
    if rows == [] then None
    else
      var rest := MaxNumber(rows[1..], launch);
      assert forall k :: 1 <= k < |rows| ==> rows[k] == rows[1..][k - 1];
      if rows[0].launch == launch && (rest.None? || rest.value < rows[0].number) then Some(rows[0].number) else rest
  }

  // ---- insert and update ----

  // insert ... onConflict(launch, number).ignore()
  function InsertIgnore(rows: seq<Row>, launch: string, number: int, name: string): seq<Row> {
    if HasRow(rows, launch, number) then rows else rows + [Row(launch, number, name, false)]
  }

  function MarkUploaded(rows: seq<Row>, launch: string, numbers: set<int>): (r: seq<Row>)
    ensures |r| == |rows|
    ensures forall k :: 0 <= k < |rows| ==>
      r[k] == rows[k].(uploaded := rows[k].uploaded || (rows[k].launch == launch && rows[k].number in numbers))
  {
    seq(|rows|, k requires 0 <= k < |rows| =>
      if rows[k].launch == launch && rows[k].number in numbers then rows[k].(uploaded := true) else rows[k])
  }

  function MarkVerified(sessions: seq<Session>, hash: string): (r: seq<Session>)
    ensures |r| == |sessions|
    ensures forall k :: 0 <= k < |sessions| ==>
      r[k] == sessions[k].(verified := sessions[k].verified || sessions[k].hash == hash)
  {
    seq(|sessions|, k requires 0 <= k < |sessions| =>
      if sessions[k].hash == hash then sessions[k].(verified := true) else sessions[k])
  }

  // ---- what the tables keep ----

  ghost predicate UniqueSessions(sessions: seq<Session>) {
    forall i, j :: 0 <= i < j < |sessions| ==>
      sessions[i].address != sessions[j].address && sessions[i].hash != sessions[j].hash
  }

  ghost predicate UniqueLaunchpads(launchpads: seq<Launchpad>) {
    forall i, j :: 0 <= i < j < |launchpads| ==> launchpads[i].hash != launchpads[j].hash
  }

  ghost predicate UniqueRows(rows: seq<Row>) {
    forall i, j :: 0 <= i < j < |rows| ==> !(rows[i].launch == rows[j].launch && rows[i].number == rows[j].number)
  }

  ghost predicate Verified(sessions: seq<Session>, address: string) {
    exists k :: 0 <= k < |sessions| && sessions[k].address == address && sessions[k].verified
  }

  ghost predicate HasLaunchpad(launchpads: seq<Launchpad>, hash: string) {
    exists k :: 0 <= k < |launchpads| && launchpads[k].hash == hash
  }

  ghost predicate TablesOk(t: Tables) {
    && UniqueSessions(t.sessions) && UniqueLaunchpads(t.launchpads) && UniqueRows(t.rows)
    && (forall k :: 0 <= k < |t.launchpads| ==> Verified(t.sessions, t.launchpads[k].creator))
    && (forall k :: 0 <= k < |t.rows| ==> HasLaunchpad(t.launchpads, t.rows[k].launch))
  }

  // How tables may change: rows are only added; verified and uploaded only go to true; nothing else moves.
  ghost predicate SessionsExtend(a: seq<Session>, b: seq<Session>) {
    && |a| <= |b|
    && forall k :: 0 <= k < |a| ==>
         a[k].address == b[k].address && a[k].hash == b[k].hash && (a[k].verified ==> b[k].verified)
  }

  ghost predicate RowsExtend(a: seq<Row>, b: seq<Row>) {
    && |a| <= |b|
    && forall k :: 0 <= k < |a| ==>
         && a[k].launch == b[k].launch && a[k].number == b[k].number && a[k].name == b[k].name
         && (a[k].uploaded ==> b[k].uploaded)
  }

  ghost predicate Extends(a: Tables, b: Tables) {
    SessionsExtend(a.sessions, b.sessions) && a.launchpads <= b.launchpads && RowsExtend(a.rows, b.rows)
  }

  lemma ExtendsTransitive(a: Tables, b: Tables, c: Tables)
    requires Extends(a, b) && Extends(b, c)
    ensures Extends(a, c)
  {}

  ghost predicate IsUploaded(rows: seq<Row>, launch: string, number: int) {
    exists k :: 0 <= k < |rows| && rows[k].launch == launch && rows[k].number == number && rows[k].uploaded
  }

  lemma RowsStay(a: seq<Row>, b: seq<Row>, launch: string, number: int)
    requires RowsExtend(a, b)
    ensures HasRow(a, launch, number) ==> HasRow(b, launch, number)
    ensures IsUploaded(a, launch, number) ==> IsUploaded(b, launch, number)
  {
    if HasRow(a, launch, number) {
      var k :| 0 <= k < |a| && a[k].launch == launch && a[k].number == number;
      assert b[k].launch == launch && b[k].number == number;
    }
    if IsUploaded(a, launch, number) {
      var k :| 0 <= k < |a| && a[k].launch == launch && a[k].number == number && a[k].uploaded;
      assert b[k].launch == launch && b[k].number == number && b[k].uploaded;
    }
  }
}
