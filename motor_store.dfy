/** The static motor positions database of motorsdb.go: three tables (ScanIds,
    MotorMnes, MotorPositions) with auto-increment ids and a UNIQUE sid, and
    the transaction InsertMotors runs against them. */
module MotorStore {
  import opened Dynamic

  /** Go's map[string]float64 of motor mnemonic to position, in iteration order. */
  type Motors = seq<(string, real)>

  datatype MotorRecord = MotorRecord(scanId: real, motors: Motors)

  /** The zero value MotorRecord{}. */
  const ZeroRecord := MotorRecord(0.0, [])

  /** A row of `ScanIds (scan_id INTEGER PRIMARY KEY AUTOINCREMENT, sid FLOAT NOT NULL UNIQUE)`. */
  datatype ScanIdRow = ScanIdRow(scanId: int, sid: real)

  /** A row of `MotorMnes (motor_id INTEGER PRIMARY KEY AUTOINCREMENT, scan_id INTEGER, motor_mne VARCHAR)`. */
  datatype MotorMneRow = MotorMneRow(motorId: int, scanId: int, mne: string)

  /** A row of `MotorPositions (motor_id INTEGER, motor_position FLOAT)`. */
  datatype MotorPositionRow = MotorPositionRow(motorId: int, position: real)

  /** The three tables and the next value of each auto-increment counter. */
  datatype Tables = Tables(
    scanIds: seq<ScanIdRow>,
    motorMnes: seq<MotorMneRow>,
    motorPositions: seq<MotorPositionRow>,
    nextScanId: int,
    nextMotorId: int)

  /** Freshly created tables: AUTOINCREMENT hands out 1 first. */
  const EmptyTables := Tables([], [], [], 1, 1)

  /** The error the UNIQUE constraint on `sid` raises. */
  const UniqueSidError := "UNIQUE constraint failed: ScanIds.sid"

  predicate HasSid(t: Tables, sid: real) {
    exists i :: 0 <= i < |t.scanIds| && t.scanIds[i].sid == sid
  }

  predicate HasScanId(scans: seq<ScanIdRow>, id: int) {
    exists j :: 0 <= j < |scans| && scans[j].scanId == id
  }

  predicate HasMotorId(mnes: seq<MotorMneRow>, id: int) {
    exists j :: 0 <= j < |mnes| && mnes[j].motorId == id
  }

  /** ScanIds as AUTOINCREMENT and UNIQUE sid keep it: ids from 1, below the
      counter and increasing; no sid twice. */
  predicate ScanIdsOk(scans: seq<ScanIdRow>, next: int) {
    && 1 <= next
    && (forall i :: 0 <= i < |scans| ==> 1 <= scans[i].scanId < next)
    && (forall i, j :: 0 <= i < j < |scans| ==> scans[i].scanId < scans[j].scanId)
    && (forall i, j :: 0 <= i < j < |scans| ==> scans[i].sid != scans[j].sid)
  }

  /** MotorMnes as AUTOINCREMENT keeps it: ids from 1, below the counter and increasing. */
  predicate MneIdsOk(mnes: seq<MotorMneRow>, next: int) {
    && 1 <= next
    && (forall i :: 0 <= i < |mnes| ==> 1 <= mnes[i].motorId < next)
    && (forall i, j :: 0 <= i < j < |mnes| ==> mnes[i].motorId < mnes[j].motorId)
  }

  /** Every MotorMnes row belongs to a stored scan. */
  predicate MnesReferToScans(mnes: seq<MotorMneRow>, scans: seq<ScanIdRow>) {
    forall i :: 0 <= i < |mnes| ==> HasScanId(scans, mnes[i].scanId)
  }

  /** Every MotorPositions row belongs to a stored MotorMnes row. */
  predicate PositionsReferToMnes(positions: seq<MotorPositionRow>, mnes: seq<MotorMneRow>) {
    forall i :: 0 <= i < |positions| ==> HasMotorId(mnes, positions[i].motorId)
  }

  /** What the schema and the way rows are inserted guarantee of the tables. */
  predicate Consistent(t: Tables) {
    && ScanIdsOk(t.scanIds, t.nextScanId)
    && MneIdsOk(t.motorMnes, t.nextMotorId)
    && MnesReferToScans(t.motorMnes, t.scanIds)
    && PositionsReferToMnes(t.motorPositions, t.motorMnes)
  }

  /** The MotorMnes rows the loop of InsertMotors adds: one per motor, with
      consecutive motor ids from `firstMotorId`, all carrying `scanId`. */
  function MneRows(scanId: int, firstMotorId: int, motors: Motors): (rows: seq<MotorMneRow>)
    decreases |motors|
    ensures |rows| == |motors|
  {
    if motors == [] then []
    else [MotorMneRow(firstMotorId, scanId, motors[0].0)] + MneRows(scanId, firstMotorId + 1, motors[1..])
  }

  /** The MotorPositions rows the loop of InsertMotors adds: one per motor,
      holding its position under the motor id of its MotorMnes row. */
  function PositionRows(firstMotorId: int, motors: Motors): (rows: seq<MotorPositionRow>)
    decreases |motors|
    ensures |rows| == |motors|
  {
    if motors == [] then []
    else [MotorPositionRow(firstMotorId, motors[0].1)] + PositionRows(firstMotorId + 1, motors[1..])
  }

  /** The k-th new MotorMnes row has motor id `firstMotorId + k` and the k-th
      motor's name. */
  lemma {:induction false} MneRowsAt(scanId: int, firstMotorId: int, motors: Motors)
    decreases |motors|
    ensures forall k :: 0 <= k < |motors| ==>
              MneRows(scanId, firstMotorId, motors)[k] == MotorMneRow(firstMotorId + k, scanId, motors[k].0)
  {
    if motors != [] {
      MneRowsAt(scanId, firstMotorId + 1, motors[1..]);
    }
  }

  /** The k-th new MotorPositions row has motor id `firstMotorId + k` and the
      k-th motor's position. */
  lemma {:induction false} PositionRowsAt(firstMotorId: int, motors: Motors)
    decreases |motors|
    ensures forall k :: 0 <= k < |motors| ==>
              PositionRows(firstMotorId, motors)[k] == MotorPositionRow(firstMotorId + k, motors[k].1)
  {
    if motors != [] {
      PositionRowsAt(firstMotorId + 1, motors[1..]);
    }
  }

  /** The tables after a committed insert of `r`. */
  function Inserted(t: Tables, r: MotorRecord): Tables {
    Tables(
      t.scanIds + [ScanIdRow(t.nextScanId, r.scanId)],
      t.motorMnes + MneRows(t.nextScanId, t.nextMotorId, r.motors),
      t.motorPositions + PositionRows(t.nextMotorId, r.motors),
      t.nextScanId + 1,
      t.nextMotorId + |r.motors|)
  }

  /** What InsertMotors returns, and the tables it leaves behind. */
  datatype Insertion = Insertion(id: int, err: Option<string>, tables: Tables)

  /** InsertMotors as a function of the tables: a duplicate sid fails the first
      INSERT, the function returns -1 and the deferred Rollback discards the
      transaction; otherwise all rows are committed and the new scan_id returned. */
  function Insert(t: Tables, r: MotorRecord): Insertion {
    if HasSid(t, r.scanId) then Insertion(-1, Some(UniqueSidError), t)
    else Insertion(t.nextScanId, None, Inserted(t, r))
  }

  // ---------------------------------------------------------------------------
  // Counting rows, as `SELECT COUNT(*)` does.

  /** `SELECT COUNT(*) FROM ScanIds WHERE sid = ?` */
  function CountSid(scans: seq<ScanIdRow>, sid: real): (n: nat)
    ensures n <= |scans|
  {
    if scans == [] then 0
    else (if scans[0].sid == sid then 1 else 0) + CountSid(scans[1..], sid)
  }

  /** `SELECT COUNT(*) FROM MotorMnes WHERE scan_id = ?` */
  function CountScan(mnes: seq<MotorMneRow>, id: int): (n: nat)
    ensures n <= |mnes|
  {
    if mnes == [] then 0
    else (if mnes[0].scanId == id then 1 else 0) + CountScan(mnes[1..], id)
  }

  /** The MotorMnes rows of scan `id` with motor id `motorId`: what one
      MotorPositions row of that motor id joins with. */
  function CountMotor(mnes: seq<MotorMneRow>, motorId: int, id: int): (n: nat)
    ensures n <= |mnes|
  {
    if mnes == [] then 0
    else (if mnes[0].motorId == motorId && mnes[0].scanId == id then 1 else 0) + CountMotor(mnes[1..], motorId, id)
  }

  /** No row has the sid exactly when the count is 0. */
  lemma {:induction false} CountSidZero(scans: seq<ScanIdRow>, sid: real)
    ensures CountSid(scans, sid) == 0 <==> forall i :: 0 <= i < |scans| ==> scans[i].sid != sid
  {
    if scans != [] {
      CountSidZero(scans[1..], sid);
      assert forall i :: 1 <= i < |scans| ==> scans[i] == scans[1..][i - 1];
    }
  }

  lemma {:induction false} CountScanNone(mnes: seq<MotorMneRow>, id: int)
    requires forall i :: 0 <= i < |mnes| ==> mnes[i].scanId != id
    ensures CountScan(mnes, id) == 0
  {
    if mnes != [] {
      CountScanNone(mnes[1..], id);
    }
  }

  lemma {:induction false} CountScanAll(mnes: seq<MotorMneRow>, id: int)
    requires forall i :: 0 <= i < |mnes| ==> mnes[i].scanId == id
    ensures CountScan(mnes, id) == |mnes|
  {
    if mnes != [] {
      CountScanAll(mnes[1..], id);
    }
  }

  lemma {:induction false} CountMotorNone(mnes: seq<MotorMneRow>, motorId: int, id: int)
    requires forall i :: 0 <= i < |mnes| ==> !(mnes[i].motorId == motorId && mnes[i].scanId == id)
    ensures CountMotor(mnes, motorId, id) == 0
  {
    if mnes != [] {
      CountMotorNone(mnes[1..], motorId, id);
    }
  }

  lemma {:induction false} CountSidAppend(a: seq<ScanIdRow>, b: seq<ScanIdRow>, sid: real)
    ensures CountSid(a + b, sid) == CountSid(a, sid) + CountSid(b, sid)
  {
    if a == [] {
      assert a + b == b;
    } else {
      assert (a + b)[1..] == a[1..] + b;
      CountSidAppend(a[1..], b, sid);
    }
  }

  lemma {:induction false} CountScanAppend(a: seq<MotorMneRow>, b: seq<MotorMneRow>, id: int)
    ensures CountScan(a + b, id) == CountScan(a, id) + CountScan(b, id)
  {
    if a == [] {
      assert a + b == b;
    } else {
      assert (a + b)[1..] == a[1..] + b;
      CountScanAppend(a[1..], b, id);
    }
  }

  lemma {:induction false} CountMotorAppend(a: seq<MotorMneRow>, b: seq<MotorMneRow>, motorId: int, id: int)
    ensures CountMotor(a + b, motorId, id) == CountMotor(a, motorId, id) + CountMotor(b, motorId, id)
  {
    if a == [] {
      assert a + b == b;
    } else {
      assert (a + b)[1..] == a[1..] + b;
      CountMotorAppend(a[1..], b, motorId, id);
    }
  }

  /** A single matching MotorMnes row is counted once. */
  lemma CountMotorOne(mnes: seq<MotorMneRow>, motorId: int, id: int, k: int)
    requires 0 <= k < |mnes| && mnes[k].motorId == motorId && mnes[k].scanId == id
    requires forall i :: 0 <= i < |mnes| && i != k ==> mnes[i].motorId != motorId
    ensures CountMotor(mnes, motorId, id) == 1
  {
    assert mnes == mnes[..k] + ([mnes[k]] + mnes[k + 1..]);
    CountMotorAppend(mnes[..k], [mnes[k]] + mnes[k + 1..], motorId, id);
    CountMotorAppend([mnes[k]], mnes[k + 1..], motorId, id);
    CountMotorNone(mnes[..k], motorId, id);
    CountMotorNone(mnes[k + 1..], motorId, id);
    assert [mnes[k]][1..] == [];
  }

  /** `SELECT COUNT(*) FROM MotorPositions mp JOIN MotorMnes mm ON mp.motor_id = mm.motor_id
      WHERE mm.scan_id = ?`: every position row counts once per matching MotorMnes row. */
  function JoinCount(ps: seq<MotorPositionRow>, ms: seq<MotorMneRow>, id: int): nat {
    if ps == [] then 0 else CountMotor(ms, ps[0].motorId, id) + JoinCount(ps[1..], ms, id)
  }

  lemma {:induction false} JoinCountAppend(a: seq<MotorPositionRow>, b: seq<MotorPositionRow>, ms: seq<MotorMneRow>, id: int)
    ensures JoinCount(a + b, ms, id) == JoinCount(a, ms, id) + JoinCount(b, ms, id)
  {
    if a == [] {
      assert a + b == b;
    } else {
      assert (a + b)[1..] == a[1..] + b;
      JoinCountAppend(a[1..], b, ms, id);
    }
  }

  /** Position rows whose motor id no MotorMnes row of scan `id` has join nothing. */
  lemma {:induction false} JoinCountNone(ps: seq<MotorPositionRow>, ms: seq<MotorMneRow>, id: int)
    requires forall i, j :: 0 <= i < |ps| && 0 <= j < |ms| ==> !(ms[j].motorId == ps[i].motorId && ms[j].scanId == id)
    ensures JoinCount(ps, ms, id) == 0
  {
    if ps != [] {
      CountMotorNone(ms, ps[0].motorId, id);
      JoinCountNone(ps[1..], ms, id);
    }
  }

  // ---------------------------------------------------------------------------
  // What InsertMotors guarantees.

  /** InsertMotors fails exactly when the sid is already stored, and then
      returns -1 and leaves every table and counter as it was; on success it
      returns a scan_id no ScanIds row had before. */
  lemma InsertOutcome(t: Tables, r: MotorRecord)
    requires Consistent(t)
    ensures Insert(t, r).err.Some? <==> CountSid(t.scanIds, r.scanId) > 0
    ensures Insert(t, r).err.Some? ==> Insert(t, r).id == -1 && Insert(t, r).tables == t
    ensures Insert(t, r).err.None? ==> Insert(t, r).id >= 1 && !HasScanId(t.scanIds, Insert(t, r).id)
  {
    CountSidZero(t.scanIds, r.scanId);
  }

  /** An insert keeps every earlier row in place and within each table adds only
      the rows of the new record: one ScanIds row with the new id and the sid,
      one MotorMnes row per motor carrying the new id and the motor's name, and
      one MotorPositions row per motor holding its position under the motor id
      of that motor's MotorMnes row. */
  lemma InsertKeepsOldRows(t: Tables, r: MotorRecord)
    ensures var t' := Insert(t, r).tables;
      && t.scanIds <= t'.scanIds
      && t.motorMnes <= t'.motorMnes
      && t.motorPositions <= t'.motorPositions
    ensures Insert(t, r).err.None? ==>
      var t', id := Insert(t, r).tables, Insert(t, r).id;
      && t'.scanIds == t.scanIds + [ScanIdRow(id, r.scanId)]
      && |t'.motorMnes| == |t.motorMnes| + |r.motors|
      && |t'.motorPositions| == |t.motorPositions| + |r.motors|
      && forall k :: 0 <= k < |r.motors| ==>
           && t'.motorMnes[|t.motorMnes| + k].scanId == id
           && t'.motorMnes[|t.motorMnes| + k].mne == r.motors[k].0
           && t'.motorPositions[|t.motorPositions| + k] ==
              MotorPositionRow(t'.motorMnes[|t.motorMnes| + k].motorId, r.motors[k].1)
  {
    MneRowsAt(t.nextScanId, t.nextMotorId, r.motors);
    PositionRowsAt(t.nextMotorId, r.motors);
  }

  lemma ScanIdsAppend(scans: seq<ScanIdRow>, next: int, sid: real)
    requires ScanIdsOk(scans, next)
    requires forall i :: 0 <= i < |scans| ==> scans[i].sid != sid
    ensures ScanIdsOk(scans + [ScanIdRow(next, sid)], next + 1)
  {
  }

  lemma MneIdsAppend(mnes: seq<MotorMneRow>, next: int, scanId: int, motors: Motors)
    requires MneIdsOk(mnes, next)
    ensures MneIdsOk(mnes + MneRows(scanId, next, motors), next + |motors|)
  {
    var news := MneRows(scanId, next, motors);
    MneRowsAt(scanId, next, motors);
    var all := mnes + news;
    forall i, j | 0 <= i < j < |all|
      ensures all[i].motorId < all[j].motorId
    {
      if j >= |mnes| {
        assert all[j] == news[j - |mnes|];
        if i >= |mnes| {
          assert all[i] == news[i - |mnes|];
        }
      }
    }
  }

  lemma MnesReferAppend(mnes: seq<MotorMneRow>, scans: seq<ScanIdRow>, row: ScanIdRow, motors: Motors, next: int)
    requires MnesReferToScans(mnes, scans)
    ensures MnesReferToScans(mnes + MneRows(row.scanId, next, motors), scans + [row])
  {
    var news := MneRows(row.scanId, next, motors);
    MneRowsAt(row.scanId, next, motors);
    var all, scans' := mnes + news, scans + [row];
    forall i | 0 <= i < |all|
      ensures HasScanId(scans', all[i].scanId)
    {
      if i < |mnes| {
        var j :| 0 <= j < |scans| && scans[j].scanId == mnes[i].scanId;
        assert scans'[j] == scans[j];
      } else {
        assert all[i] == news[i - |mnes|];
        assert scans'[|scans|] == row;
      }
    }
  }

  lemma PositionsReferAppend(positions: seq<MotorPositionRow>, mnes: seq<MotorMneRow>, scanId: int, next: int, motors: Motors)
    requires PositionsReferToMnes(positions, mnes)
    ensures PositionsReferToMnes(positions + PositionRows(next, motors), mnes + MneRows(scanId, next, motors))
  {
    var newm, newp := MneRows(scanId, next, motors), PositionRows(next, motors);
    MneRowsAt(scanId, next, motors);
    PositionRowsAt(next, motors);
    var allm, allp := mnes + newm, positions + newp;
    forall i | 0 <= i < |allp|
      ensures HasMotorId(allm, allp[i].motorId)
    {
      if i < |positions| {
        var j :| 0 <= j < |mnes| && mnes[j].motorId == positions[i].motorId;
        assert allm[j] == mnes[j];
      } else {
        var k := i - |positions|;
        assert allp[i] == newp[k];
        assert allm[|mnes| + k] == newm[k];
      }
    }
  }

  /** Inserting keeps the tables consistent: in particular the new ids are
      larger than every id handed out before, so ids stay strictly increasing. */
  lemma InsertKeepsConsistent(t: Tables, r: MotorRecord)
    requires Consistent(t)
    ensures Consistent(Insert(t, r).tables)
  {
    if !HasSid(t, r.scanId) {
      ScanIdsAppend(t.scanIds, t.nextScanId, r.scanId);
      MneIdsAppend(t.motorMnes, t.nextMotorId, t.nextScanId, r.motors);
      MnesReferAppend(t.motorMnes, t.scanIds, ScanIdRow(t.nextScanId, r.scanId), r.motors, t.nextMotorId);
      PositionsReferAppend(t.motorPositions, t.motorMnes, t.nextScanId, t.nextMotorId, r.motors);
    }
  }

  /** After the insert the sid is in exactly one ScanIds row. */
  lemma SidCountAfterInsert(scans: seq<ScanIdRow>, row: ScanIdRow)
    requires forall i :: 0 <= i < |scans| ==> scans[i].sid != row.sid
    ensures CountSid(scans + [row], row.sid) == 1
  {
    CountSidAppend(scans, [row], row.sid);
    CountSidZero(scans, row.sid);
    assert [row][1..] == [];
  }

  /** After the insert exactly the new MotorMnes rows carry the new scan_id. */
  lemma MneCountAfterInsert(mnes: seq<MotorMneRow>, scanId: int, next: int, motors: Motors)
    requires forall i :: 0 <= i < |mnes| ==> mnes[i].scanId < scanId
    ensures CountScan(mnes + MneRows(scanId, next, motors), scanId) == |motors|
  {
    CountScanAppend(mnes, MneRows(scanId, next, motors), scanId);
    CountScanNone(mnes, scanId);
    MneRowsAt(scanId, next, motors);
    CountScanAll(MneRows(scanId, next, motors), scanId);
  }

  /** Each new MotorMnes row is the one row its motor id joins with. */
  lemma NewMneJoinsOnce(scanId: int, next: int, motors: Motors, k: int)
    requires 0 <= k < |motors|
    ensures CountMotor(MneRows(scanId, next, motors), next + k, scanId) == 1
  {
    var newm := MneRows(scanId, next, motors);
    MneRowsAt(scanId, next, motors);
    assert newm[k] == MotorMneRow(next + k, scanId, motors[k].0);
    CountMotorOne(newm, next + k, scanId, k);
  }

  lemma NewPositionJoinsOne(mnes: seq<MotorMneRow>, scanId: int, next: int, motors: Motors, k: int)
    requires forall i :: 0 <= i < |mnes| ==> mnes[i].motorId < next
    requires 0 <= k < |motors|
    ensures CountMotor(mnes + MneRows(scanId, next, motors), next + k, scanId) == 1
  {
    CountMotorAppend(mnes, MneRows(scanId, next, motors), next + k, scanId);
    CountMotorNone(mnes, next + k, scanId);
    NewMneJoinsOnce(scanId, next, motors, k);
  }

  /** The new positions from the `lo`-th motor on join one row each. */
  lemma {:induction false} NewPositionsJoinOnce(mnes: seq<MotorMneRow>, scanId: int, next: int, motors: Motors, lo: nat)
    requires forall i :: 0 <= i < |mnes| ==> mnes[i].motorId < next
    requires lo <= |motors|
    ensures JoinCount(PositionRows(next + lo, motors[lo..]), mnes + MneRows(scanId, next, motors), scanId) == |motors| - lo
    decreases |motors| - lo
  {
    if lo < |motors| {
      var ps := PositionRows(next + lo, motors[lo..]);
      assert motors[lo..][1..] == motors[lo + 1..];
      assert ps[1..] == PositionRows(next + lo + 1, motors[lo + 1..]);
      NewPositionJoinsOne(mnes, scanId, next, motors, lo);
      NewPositionsJoinOnce(mnes, scanId, next, motors, lo + 1);
    }
  }

  /** After the insert the join finds one row per new position and none for
      the earlier ones. */
  lemma JoinCountAfterInsert(positions: seq<MotorPositionRow>, mnes: seq<MotorMneRow>, scanId: int, next: int, motors: Motors)
    requires forall i :: 0 <= i < |mnes| ==> mnes[i].scanId < scanId && mnes[i].motorId < next
    requires forall i :: 0 <= i < |positions| ==> positions[i].motorId < next
    ensures JoinCount(positions + PositionRows(next, motors), mnes + MneRows(scanId, next, motors), scanId) == |motors|
  {
    var newm, newp := MneRows(scanId, next, motors), PositionRows(next, motors);
    MneRowsAt(scanId, next, motors);
    var allm := mnes + newm;
    JoinCountNone(positions, allm, scanId);
    NewPositionsJoinOnce(mnes, scanId, next, motors, 0);
    assert motors[0..] == motors;
    JoinCountAppend(positions, newp, allm, scanId);
  }

  /** The row counts the package's insert test checks after a successful insert:
      one ScanIds row with the sid, one MotorMnes row per motor with the new
      scan_id, and one joined MotorPositions row per motor. */
  lemma InsertRowCounts(t: Tables, r: MotorRecord)
    requires Consistent(t)
    requires Insert(t, r).err.None?
    ensures var t', id := Insert(t, r).tables, Insert(t, r).id;
      && CountSid(t'.scanIds, r.scanId) == 1
      && CountScan(t'.motorMnes, id) == |r.motors|
      && JoinCount(t'.motorPositions, t'.motorMnes, id) == |r.motors|
  {
    SidCountAfterInsert(t.scanIds, ScanIdRow(t.nextScanId, r.scanId));
    forall i | 0 <= i < |t.motorMnes|
      ensures t.motorMnes[i].scanId < t.nextScanId
    {
      assert HasScanId(t.scanIds, t.motorMnes[i].scanId);
      var j :| 0 <= j < |t.scanIds| && t.scanIds[j].scanId == t.motorMnes[i].scanId;
    }
    MneCountAfterInsert(t.motorMnes, t.nextScanId, t.nextMotorId, r.motors);
    forall i | 0 <= i < |t.motorPositions|
      ensures t.motorPositions[i].motorId < t.nextMotorId
    {
      assert HasMotorId(t.motorMnes, t.motorPositions[i].motorId);
      var j :| 0 <= j < |t.motorMnes| && t.motorMnes[j].motorId == t.motorPositions[i].motorId;
    }
    JoinCountAfterInsert(t.motorPositions, t.motorMnes, t.nextScanId, t.nextMotorId, r.motors);
  }

  // ---------------------------------------------------------------------------
  // The database handle.

  /** The motors database: its three tables and the two auto-increment counters. */
  class MotorsDb {
    var scanIds: seq<ScanIdRow>
    var motorMnes: seq<MotorMneRow>
    var motorPositions: seq<MotorPositionRow>
    var nextScanId: int
    var nextMotorId: int

    function Snapshot(): Tables
      reads this
    {
      Tables(scanIds, motorMnes, motorPositions, nextScanId, nextMotorId)
    }

    predicate Valid()
      reads this
    {
      Consistent(Snapshot())
    }

    /** The tables as the package's test schema creates them: empty. */
    constructor()
      ensures Snapshot() == EmptyTables
      ensures Valid()
    {
      scanIds, motorMnes, motorPositions := [], [], [];
      nextScanId, nextMotorId := 1, 1;
    }

    /** InsertMotors: the inserts run on a transaction's copy of the tables,
        which Commit installs and Rollback discards. */
    method InsertMotors(r: MotorRecord) returns (id: int, err: Option<string>)
      requires Valid()
      modifies this
      ensures Valid()
      ensures Insertion(id, err, Snapshot()) == Insert(old(Snapshot()), r)
    {
      var t := Snapshot();
      InsertKeepsConsistent(t, r);
      // INSERT INTO ScanIds (sid) VALUES (?)
      if HasSid(t, r.scanId) {
        return -1, Some(UniqueSidError);
      }
      var scanId := t.nextScanId;
      var txScanIds := t.scanIds + [ScanIdRow(scanId, r.scanId)];
      var txMnes := t.motorMnes;
      var txPositions := t.motorPositions;
      var motorId := t.nextMotorId;
      for i := 0 to |r.motors|
        invariant motorId == t.nextMotorId + i
        invariant txMnes + MneRows(scanId, motorId, r.motors[i..]) ==
                  t.motorMnes + MneRows(scanId, t.nextMotorId, r.motors)
        invariant txPositions + PositionRows(motorId, r.motors[i..]) ==
                  t.motorPositions + PositionRows(t.nextMotorId, r.motors)
      {
        assert r.motors[i..][1..] == r.motors[i + 1..];
        var (mne, pos) := r.motors[i];
        // INSERT INTO MotorMnes (scan_id, motor_mne) VALUES (?, ?)
        txMnes := txMnes + [MotorMneRow(motorId, scanId, mne)];
        // INSERT INTO MotorPositions (motor_id, motor_position) VALUES (?, ?)
        txPositions := txPositions + [MotorPositionRow(motorId, pos)];
        motorId := motorId + 1;
      }
      assert r.motors[|r.motors|..] == [];
      assert txMnes == t.motorMnes + MneRows(scanId, t.nextMotorId, r.motors);
      assert txPositions == t.motorPositions + PositionRows(t.nextMotorId, r.motors);
      ghost var committed := Tables(txScanIds, txMnes, txPositions, scanId + 1, motorId);
      assert committed == Inserted(t, r);
      // Commit
      scanIds, motorMnes, motorPositions := txScanIds, txMnes, txPositions;
      nextScanId, nextMotorId := scanId + 1, motorId;
      id, err := scanId, None;
      assert Snapshot() == committed;
    }
  }

  /** The insert test's sequence of records on fresh tables: sid 0 with two
      motors, sid 0 again with none (rejected as a duplicate), sid 1 with two
      motors. */
  method InsertMotorsScenario() returns (id0: int, err0: Option<string>, id1: int, err1: Option<string>, id2: int, err2: Option<string>)
    ensures id0 == 1 && err0 == None
    ensures id1 == -1 && err1 == Some(UniqueSidError)
    ensures id2 == 2 && err2 == None
  {
    var db := new MotorsDb();
    var motors := [("mne0", 1.23), ("mne1", 4.56)];
    id0, err0 := db.InsertMotors(MotorRecord(0.0, motors));
    assert db.scanIds[0].sid == 0.0;
    id1, err1 := db.InsertMotors(MotorRecord(0.0, []));
    assert !HasSid(db.Snapshot(), 1.0);
    id2, err2 := db.InsertMotors(MotorRecord(1.0, motors));
  }
}
