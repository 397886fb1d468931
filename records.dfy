/** Splitting a submitted scan record into the part kept in the document store
    and the motor positions kept in the motor store, putting the two back
    together, and the sid joins between them (record.go). */
module Records {
  import opened Dynamic
  import opened MotorStore
  import opened MotorQuery

  /** Go's int8: the scan number is only copied. */
  newtype Int8 = x: int | -128 <= x < 128

  /** A scan record as a user submits it (UserRecord). */
  datatype UserRecord = UserRecord(
    scanId: real,
    datasetId: string,
    cycle: string,
    beamline: string,
    btr: string,
    specFile: string,
    scanNumber: Int8,
    startTime: real,
    command: string,
    status: string,
    comments: seq<string>,
    specVersion: string,
    motors: Motors,
    variables: seq<(string, Val)>)

  /** The document-store portion of a record (MongoRecord): every field but the motors. */
  datatype MongoRecord = MongoRecord(
    scanId: real,
    datasetId: string,
    cycle: string,
    beamline: string,
    btr: string,
    specFile: string,
    scanNumber: Int8,
    startTime: real,
    command: string,
    status: string,
    comments: seq<string>,
    specVersion: string,
    variables: seq<(string, Val)>)

  /** A Go `([]UserRecord, error)` result: the records gathered so far and the error, if any. */
  datatype Completed = Completed(records: seq<UserRecord>, err: Option<string>)

  // ---------------------------------------------------------------------------
  // Decomposition and completion.

  /** The sid both portions receive: the start time for a real record, and for
      a test record (negative sid) the value derived from the clock. */
  function DerivedSid(u: UserRecord, clockSid: real): real {
    if u.scanId < 0.0 then clockSid else u.startTime
  }

  /** DecomposeRecord; `clockSid` is `float64(time.Now().UnixNano()) / 1e9`. */
  function DecomposeRecord(u: UserRecord, clockSid: real): (r: (MongoRecord, MotorRecord))
    ensures r.0.scanId == r.1.scanId
    ensures u.scanId < 0.0 ==> r.0.scanId == clockSid
    ensures u.scanId >= 0.0 ==> r.0.scanId == u.startTime
    ensures r.1.motors == u.motors
  {
    var sid := DerivedSid(u, clockSid);
    (MongoRecord(sid, u.datasetId, u.cycle, u.beamline, u.btr, u.specFile, u.scanNumber,
                 u.startTime, u.command, u.status, u.comments, u.specVersion, u.variables),
     MotorRecord(sid, u.motors))
  }

  /** CompleteRecord: everything from the document portion, the motors from the motor portion. */
  function CompleteRecord(d: MongoRecord, m: MotorRecord): (u: UserRecord)
    ensures u.scanId == d.scanId
    ensures u.motors == m.motors
  {
    UserRecord(d.scanId, d.datasetId, d.cycle, d.beamline, d.btr, d.specFile, d.scanNumber,
               d.startTime, d.command, d.status, d.comments, d.specVersion, m.motors, d.variables)
  }

  /** Completing a decomposed record gives back the submitted record, all of
      its fields unchanged except the sid, which becomes the derived one. */
  lemma DecomposeThenComplete(u: UserRecord, clockSid: real)
    ensures var (d, m) := DecomposeRecord(u, clockSid);
            CompleteRecord(d, m) == u.(scanId := DerivedSid(u, clockSid))
  {
  }

  /** So a real record whose sid already is its start time survives the round trip unchanged. */
  lemma DecomposeThenCompleteIdentity(u: UserRecord, clockSid: real)
    requires u.scanId >= 0.0 && u.scanId == u.startTime
    ensures var (d, m) := DecomposeRecord(u, clockSid);
            CompleteRecord(d, m) == u
  {
    DecomposeThenComplete(u, clockSid);
  }

  /** A real record's submitted sid has no effect: only its start time does. */
  lemma DecomposeIgnoresSubmittedSid(u: UserRecord, sid: real, clockSid: real)
    requires u.scanId >= 0.0 && sid >= 0.0
    ensures DecomposeRecord(u, clockSid) == DecomposeRecord(u.(scanId := sid), clockSid)
  {
  }

  /** The motor portion's sid is not read by CompleteRecord. */
  lemma CompleteIgnoresMotorSid(d: MongoRecord, m: MotorRecord, sid: real)
    ensures CompleteRecord(d, m) == CompleteRecord(d, m.(scanId := sid))
  {
  }

  /** Decomposing a completed record whose sid is its start time gives back
      the document portion, and the motors under that sid. */
  lemma CompleteThenDecompose(d: MongoRecord, m: MotorRecord, clockSid: real)
    requires d.scanId >= 0.0 && d.scanId == d.startTime
    ensures DecomposeRecord(CompleteRecord(d, m), clockSid) == (d, MotorRecord(d.scanId, m.motors))
  {
  }

  // ---------------------------------------------------------------------------
  // Equal-sid joins.

  /** The inner loop of getIntersectionRecords for one document record: one
      completed record per motor record of the same sid, in motor order. */
  function Pairs(d: MongoRecord, ms: seq<MotorRecord>): (r: seq<UserRecord>)
    decreases |ms|
    ensures |r| <= |ms|
  {
    if ms == [] then []
    else (if ms[0].scanId == d.scanId then [CompleteRecord(d, ms[0])] else []) + Pairs(d, ms[1..])
  }

  /** getIntersectionRecords: the pairs of every document record in turn. */
  function Joined(docs: seq<MongoRecord>, ms: seq<MotorRecord>): seq<UserRecord>
    decreases |docs|
  {
    if docs == [] then [] else Pairs(docs[0], ms) + Joined(docs[1..], ms)
  }

  lemma {:induction false} PairsMembers(d: MongoRecord, ms: seq<MotorRecord>)
    decreases |ms|
    ensures forall u :: u in Pairs(d, ms) <==>
              exists j :: 0 <= j < |ms| && ms[j].scanId == d.scanId && u == CompleteRecord(d, ms[j])
  {
    if ms != [] {
      PairsMembers(d, ms[1..]);
      assert forall j :: 1 <= j < |ms| ==> ms[j] == ms[1..][j - 1];
      forall u | exists j :: 0 <= j < |ms| && ms[j].scanId == d.scanId && u == CompleteRecord(d, ms[j])
        ensures u in Pairs(d, ms)
      {
        var j :| 0 <= j < |ms| && ms[j].scanId == d.scanId && u == CompleteRecord(d, ms[j]);
        if j > 0 {
          assert ms[1..][j - 1] == ms[j];
        }
      }
    }
  }

  /** A record is in the join exactly when it completes some document record
      with some motor record of the same sid. */
  lemma {:induction false} JoinedMembers(docs: seq<MongoRecord>, ms: seq<MotorRecord>)
    decreases |docs|
    ensures forall u :: u in Joined(docs, ms) <==>
              exists i, j :: 0 <= i < |docs| && 0 <= j < |ms| && docs[i].scanId == ms[j].scanId &&
                             u == CompleteRecord(docs[i], ms[j])
  {
    if docs != [] {
      JoinedMembers(docs[1..], ms);
      PairsMembers(docs[0], ms);
      assert forall i :: 1 <= i < |docs| ==> docs[i] == docs[1..][i - 1];
      forall u | exists i, j :: 0 <= i < |docs| && 0 <= j < |ms| && docs[i].scanId == ms[j].scanId &&
                                u == CompleteRecord(docs[i], ms[j])
        ensures u in Joined(docs, ms)
      {
        var i, j :| 0 <= i < |docs| && 0 <= j < |ms| && docs[i].scanId == ms[j].scanId &&
                    u == CompleteRecord(docs[i], ms[j]);
        if i > 0 {
          assert docs[1..][i - 1] == docs[i];
        }
      }
    }
  }

  /** Every sid in the join occurs among the document records and among the motor records. */
  lemma JoinedSidsInBoth(docs: seq<MongoRecord>, ms: seq<MotorRecord>, u: UserRecord)
    requires u in Joined(docs, ms)
    ensures exists i :: 0 <= i < |docs| && docs[i].scanId == u.scanId
    ensures exists j :: 0 <= j < |ms| && ms[j].scanId == u.scanId
  {
    JoinedMembers(docs, ms);
    var i, j :| 0 <= i < |docs| && 0 <= j < |ms| && docs[i].scanId == ms[j].scanId &&
                u == CompleteRecord(docs[i], ms[j]);
  }

  /** Document-major order: the join of `a + b` is the join of `a`, then of `b`. */
  lemma {:induction false} JoinedAppend(a: seq<MongoRecord>, b: seq<MongoRecord>, ms: seq<MotorRecord>)
    decreases |a|
    ensures Joined(a + b, ms) == Joined(a, ms) + Joined(b, ms)
  {
    if a == [] {
      assert a + b == b;
    } else {
      assert (a + b)[0] == a[0];
      assert (a + b)[1..] == a[1..] + b;
      JoinedAppend(a[1..], b, ms);
    }
  }

  /** Motor order within one document record: the pairs over `a + b` are those over `a`, then over `b`. */
  lemma {:induction false} PairsAppend(d: MongoRecord, a: seq<MotorRecord>, b: seq<MotorRecord>)
    decreases |a|
    ensures Pairs(d, a + b) == Pairs(d, a) + Pairs(d, b)
  {
    if a == [] {
      assert a + b == b;
    } else {
      assert (a + b)[0] == a[0];
      assert (a + b)[1..] == a[1..] + b;
      PairsAppend(d, a[1..], b);
    }
  }

  lemma PairsStep(d: MongoRecord, ms: seq<MotorRecord>, j: nat)
    requires j < |ms|
    ensures Pairs(d, ms[j..]) ==
            (if ms[j].scanId == d.scanId then [CompleteRecord(d, ms[j])] else []) + Pairs(d, ms[j + 1..])
  {
    assert ms[j..][1..] == ms[j + 1..];
  }

  lemma JoinedStep(docs: seq<MongoRecord>, ms: seq<MotorRecord>, i: nat)
    requires i < |docs|
    ensures Joined(docs[i..], ms) == Pairs(docs[i], ms) + Joined(docs[i + 1..], ms)
  {
    assert docs[i..][1..] == docs[i + 1..];
  }

  /** The inner loop of getIntersectionRecords: one document record against every motor record. */
  method AppendPairs(acc: seq<UserRecord>, d: MongoRecord, ms: seq<MotorRecord>) returns (users: seq<UserRecord>)
    ensures users == acc + Pairs(d, ms)
  {
    users := acc;
    assert ms[0..] == ms;
    for j := 0 to |ms|
      invariant acc + Pairs(d, ms) == users + Pairs(d, ms[j..])
    {
      PairsStep(d, ms, j);
      if ms[j].scanId == d.scanId {
        var u := CompleteRecord(d, ms[j]);
        assert users + ([u] + Pairs(d, ms[j + 1..])) == (users + [u]) + Pairs(d, ms[j + 1..]);
        users := users + [u];
      }
    }
    assert ms[|ms|..] == [];
  }

  /** The nested loops of getIntersectionRecords. */
  method GetIntersectionRecords(docs: seq<MongoRecord>, ms: seq<MotorRecord>) returns (users: seq<UserRecord>)
    ensures users == Joined(docs, ms)
  {
    users := [];
    assert docs[0..] == docs;
    for i := 0 to |docs|
      invariant Joined(docs, ms) == users + Joined(docs[i..], ms)
    {
      JoinedStep(docs, ms, i);
      ghost var before := users;
      users := AppendPairs(users, docs[i], ms);
      assert before + (Pairs(docs[i], ms) + Joined(docs[i + 1..], ms)) == users + Joined(docs[i + 1..], ms);
    }
    assert docs[|docs|..] == [];
  }

  // ---------------------------------------------------------------------------
  // CompleteMongoRecords.

  /** The loop `for _, rec := range recs { sids = append(sids, rec.ScanId) }`
      that both completion functions start with: the records' sids, in order. */
  function SidsOf<R>(recs: seq<R>, sid: R -> real): (sids: seq<real>)
    decreases |recs|
    ensures |sids| == |recs|
    ensures forall i :: 0 <= i < |recs| ==> sids[i] == sid(recs[i])
  {
    if recs == [] then [] else [sid(recs[0])] + SidsOf(recs[1..], sid)
  }

  function DocSid(d: MongoRecord): real {
    d.scanId
  }

  function MotorSid(m: MotorRecord): real {
    m.scanId
  }

  /** CompleteMongoRecords. `run` answers a motors query the way queryMotorsDb
      does; the records come from GetMotorRecords, which runs the query
      MotorRecordsQuery builds from the sids. */
  function MongoCompleted(docs: seq<MongoRecord>, run: MotorsDbQuery -> Result<seq<MotorRecord>>): Completed {
    if docs == [] then Completed([], None)
    else
      match run(MotorRecordsQuery(SidsOf(docs, DocSid)))
      case Failure(e) => Completed([], Some(e))
      case Success(ms) => Completed(Joined(docs, ms), None)
  }

  /** With no records the motor store is not consulted and the result is empty. */
  lemma MongoCompletedEmpty(f: MotorsDbQuery -> Result<seq<MotorRecord>>, g: MotorsDbQuery -> Result<seq<MotorRecord>>)
    ensures MongoCompleted([], f) == MongoCompleted([], g) == Completed([], None)
  {
  }

  /** The motor store receives the query that selects exactly the input sids,
      in input order, with no position constraint, and every equal-sid pair is
      completed (there is no `break`); its error is passed on with no records. */
  lemma MongoCompletedMeaning(docs: seq<MongoRecord>, run: MotorsDbQuery -> Result<seq<MotorRecord>>, sids: seq<real>)
    requires docs != []
    requires |sids| == |docs| && forall i :: 0 <= i < |docs| ==> sids[i] == docs[i].scanId
    ensures var answer := run(MotorsDbQuery(sids, []));
      && (answer.Failure? ==> MongoCompleted(docs, run) == Completed([], Some(answer.error)))
      && (answer.Success? ==>
            var ms := answer.value;
            && MongoCompleted(docs, run).err == None
            && forall u :: u in MongoCompleted(docs, run).records <==>
                 exists i, j :: 0 <= i < |docs| && 0 <= j < |ms| && docs[i].scanId == ms[j].scanId &&
                                u == CompleteRecord(docs[i], ms[j]))
  {
    assert sids == SidsOf(docs, DocSid);
    var answer := run(MotorsDbQuery(sids, []));
    if answer.Success? {
      JoinedMembers(docs, answer.value);
    }
  }

  /** Only the store's answer to that one sid query matters: two stores that
      answer it alike give the same completed records. */
  lemma MongoCompletedAsksOnce(docs: seq<MongoRecord>, f: MotorsDbQuery -> Result<seq<MotorRecord>>,
                               g: MotorsDbQuery -> Result<seq<MotorRecord>>, sids: seq<real>)
    requires |sids| == |docs| && forall i :: 0 <= i < |docs| ==> sids[i] == docs[i].scanId
    requires f(MotorsDbQuery(sids, [])) == g(MotorsDbQuery(sids, []))
    ensures MongoCompleted(docs, f) == MongoCompleted(docs, g)
  {
    assert sids == SidsOf(docs, DocSid);
  }

  /** CompleteMongoRecords: gather the sids, ask the motor store, join. */
  method CompleteMongoRecords(docs: seq<MongoRecord>, run: MotorsDbQuery -> Result<seq<MotorRecord>>)
    returns (records: seq<UserRecord>, err: Option<string>)
    ensures Completed(records, err) == MongoCompleted(docs, run)
  {
    if |docs| == 0 {
      return [], None;
    }
    var sids: seq<real> := [];
    for i := 0 to |docs|
      invariant |sids| == i
      invariant forall k :: 0 <= k < i ==> sids[k] == docs[k].scanId
    {
      sids := sids + [docs[i].scanId];
    }
    assert sids == SidsOf(docs, DocSid);
    // GetMotorRecords(sids...)
    var motorRecords := run(MotorRecordsQuery(sids));
    if motorRecords.Failure? {
      return [], Some(motorRecords.error);
    }
    records := GetIntersectionRecords(docs, motorRecords.value);
    err := None;
  }

  // ---------------------------------------------------------------------------
  // CompleteMotorRecords.

  function Nums(xs: seq<real>): (r: seq<Val>)
    decreases |xs|
    ensures |r| == |xs|
    ensures forall i :: 0 <= i < |xs| ==> r[i] == Num(xs[i])
  {
    if xs == [] then [] else [Num(xs[0])] + Nums(xs[1..])
  }

  /** The document-store filter `{"sid": {"$in": sids}}`. */
  function SidQuery(sids: seq<real>): Val {
    Obj([("sid", Obj([("$in", Arr(Nums(sids)))]))])
  }

  /** The filter names the field "sid" and, under "$in", lists exactly the given sids in order. */
  lemma SidQueryMeaning(sids: seq<real>)
    ensures var q := SidQuery(sids);
            && q.Obj? && Lookup(q.fields, "sid").Some?
            && var inner := Lookup(q.fields, "sid").value;
            && inner.Obj? && Lookup(inner.fields, "$in").Some?
            && var list := Lookup(inner.fields, "$in").value;
            && list.Arr? && |list.items| == |sids|
            && forall i :: 0 <= i < |sids| ==> list.items[i] == Num(sids[i])
  {
    LookupCons([("sid", Obj([("$in", Arr(Nums(sids)))]))], "sid");
    LookupCons([("$in", Arr(Nums(sids)))], "$in");
  }

  /** The inner loop of CompleteMotorRecords: the first motor record of the
      document record's sid completes it (the `break`), if there is one. */
  function FirstMatch(d: MongoRecord, ms: seq<MotorRecord>): Option<UserRecord>
    decreases |ms|
  {
    if ms == [] then None
    else if ms[0].scanId == d.scanId then Some(CompleteRecord(d, ms[0]))
    else FirstMatch(d, ms[1..])
  }

  /** No match exactly when no motor record has the sid; a match completes the
      document record with the first motor record of its sid. */
  lemma {:induction false} FirstMatchMeaning(d: MongoRecord, ms: seq<MotorRecord>)
    decreases |ms|
    ensures FirstMatch(d, ms).None? <==> forall j :: 0 <= j < |ms| ==> ms[j].scanId != d.scanId
    ensures FirstMatch(d, ms).Some? ==>
              exists j :: 0 <= j < |ms| && ms[j].scanId == d.scanId &&
                          (forall k :: 0 <= k < j ==> ms[k].scanId != d.scanId) &&
                          FirstMatch(d, ms).value == CompleteRecord(d, ms[j])
  {
    if ms != [] && ms[0].scanId != d.scanId {
      FirstMatchMeaning(d, ms[1..]);
      assert forall j :: 1 <= j < |ms| ==> ms[j] == ms[1..][j - 1];
      if FirstMatch(d, ms).Some? {
        var j :| 0 <= j < |ms[1..]| && ms[1..][j].scanId == d.scanId &&
                 (forall k :: 0 <= k < j ==> ms[1..][k].scanId != d.scanId) &&
                 FirstMatch(d, ms[1..]).value == CompleteRecord(d, ms[1..][j]);
        assert ms[j + 1] == ms[1..][j];
      }
    }
  }

  function AsSeq<T>(o: Option<T>): (r: seq<T>)
    ensures |r| <= 1
  {
    if o.None? then [] else [o.value]
  }

  /** The outer loop of CompleteMotorRecords over the returned documents:
      decode each one, stop at the first decode error keeping what was
      completed before it, and complete each decoded record at most once. */
  function Matched(maps: seq<seq<(string, Val)>>, ms: seq<MotorRecord>,
                   decode: seq<(string, Val)> -> Result<MongoRecord>): (r: Completed)
    decreases |maps|
    ensures |r.records| <= |maps|
  {
    if maps == [] then Completed([], None)
    else
      match decode(maps[0])
      case Failure(e) => Completed([], Some(e))
      case Success(d) =>
        var rest := Matched(maps[1..], ms, decode);
        Completed(AsSeq(FirstMatch(d, ms)) + rest.records, rest.err)
  }

  /** CompleteMotorRecords, with the document store's Get as `getDocs` and
      mapstructure.Decode as `decode`. */
  function MotorCompleted(ms: seq<MotorRecord>, getDocs: Val -> seq<seq<(string, Val)>>,
                          decode: seq<(string, Val)> -> Result<MongoRecord>): (r: Completed)
    ensures |r.records| <= |getDocs(SidQuery(SidsOf(ms, MotorSid)))|
  {
    if ms == [] then Completed([], None)
    else Matched(getDocs(SidQuery(SidsOf(ms, MotorSid))), ms, decode)
  }

  /** With no motor records the document store is not consulted and the result is empty. */
  lemma MotorCompletedEmpty(getDocs: Val -> seq<seq<(string, Val)>>, decode: seq<(string, Val)> -> Result<MongoRecord>)
    ensures MotorCompleted([], getDocs, decode) == Completed([], None)
  {
  }

  /** When no document fails to decode, the records are the documents'
      first matches in document order and the error is absent. */
  lemma {:induction false} MatchedAllDecoded(maps: seq<seq<(string, Val)>>, ms: seq<MotorRecord>,
                                              decode: seq<(string, Val)> -> Result<MongoRecord>)
    requires forall i :: 0 <= i < |maps| ==> decode(maps[i]).Success?
    decreases |maps|
    ensures Matched(maps, ms, decode).err == None
    ensures forall u :: u in Matched(maps, ms, decode).records <==>
              exists i :: 0 <= i < |maps| && FirstMatch(decode(maps[i]).value, ms) == Some(u)
  {
    if maps != [] {
      assert forall i :: 1 <= i < |maps| ==> maps[i] == maps[1..][i - 1];
      MatchedAllDecoded(maps[1..], ms, decode);
      forall u | exists i :: 0 <= i < |maps| && FirstMatch(decode(maps[i]).value, ms) == Some(u)
        ensures u in Matched(maps, ms, decode).records
      {
        var i :| 0 <= i < |maps| && FirstMatch(decode(maps[i]).value, ms) == Some(u);
        if i > 0 {
          assert maps[1..][i - 1] == maps[i];
        }
      }
    }
  }

  /** At the first document that fails to decode, the result is the records
      completed from the documents before it, and that error. */
  lemma {:induction false} MatchedStopsAtError(maps: seq<seq<(string, Val)>>, ms: seq<MotorRecord>,
                                                decode: seq<(string, Val)> -> Result<MongoRecord>, k: nat)
    requires k < |maps| && decode(maps[k]).Failure?
    requires forall i :: 0 <= i < k ==> decode(maps[i]).Success?
    decreases k
    ensures Matched(maps, ms, decode) == Completed(Matched(maps[..k], ms, decode).records, Some(decode(maps[k]).error))
  {
    if k > 0 {
      assert maps[..k][1..] == maps[1..][..k - 1];
      assert forall i :: 0 <= i < k - 1 ==> maps[1..][i] == maps[i + 1];
      MatchedStopsAtError(maps[1..], ms, decode, k - 1);
      assert maps[..k][0] == maps[0];
    }
  }

  lemma FirstMatchStep(d: MongoRecord, ms: seq<MotorRecord>, j: nat)
    requires j < |ms|
    ensures FirstMatch(d, ms[j..]) ==
            if ms[j].scanId == d.scanId then Some(CompleteRecord(d, ms[j])) else FirstMatch(d, ms[j + 1..])
  {
    assert ms[j..][1..] == ms[j + 1..];
  }

  lemma MatchedStep(maps: seq<seq<(string, Val)>>, ms: seq<MotorRecord>,
                    decode: seq<(string, Val)> -> Result<MongoRecord>, i: nat)
    requires i < |maps|
    ensures Matched(maps[i..], ms, decode) ==
            if decode(maps[i]).Failure? then Completed([], Some(decode(maps[i]).error))
            else
              Completed(AsSeq(FirstMatch(decode(maps[i]).value, ms)) + Matched(maps[i + 1..], ms, decode).records,
                        Matched(maps[i + 1..], ms, decode).err)
  {
    assert maps[i..][1..] == maps[i + 1..];
  }

  /** The records `prefix` gathered before the rest of a loop. */
  function Prepended(prefix: seq<UserRecord>, c: Completed): Completed {
    Completed(prefix + c.records, c.err)
  }

  lemma PrependedNothing(prefix: seq<UserRecord>, e: string)
    ensures Prepended(prefix, Completed([], Some(e))) == Completed(prefix, Some(e))
  {
    assert prefix + [] == prefix;
  }

  lemma PrependedShift(prefix: seq<UserRecord>, x: seq<UserRecord>, rest: Completed)
    ensures Prepended(prefix, Completed(x + rest.records, rest.err)) == Prepended(prefix + x, rest)
  {
    assert prefix + (x + rest.records) == (prefix + x) + rest.records;
  }

  /** CompleteMotorRecords: gather the sids, query the document store, then
      decode each document and complete it with its first equal-sid motor record. */
  method CompleteMotorRecords(ms: seq<MotorRecord>, getDocs: Val -> seq<seq<(string, Val)>>,
                              decode: seq<(string, Val)> -> Result<MongoRecord>)
    returns (records: seq<UserRecord>, err: Option<string>)
    ensures Completed(records, err) == MotorCompleted(ms, getDocs, decode)
  {
    if |ms| == 0 {
      return [], None;
    }
    var sids: seq<real> := [];
    for i := 0 to |ms|
      invariant |sids| == i
      invariant forall k :: 0 <= k < i ==> sids[k] == ms[k].scanId
    {
      sids := sids + [ms[i].scanId];
    }
    assert sids == SidsOf(ms, MotorSid);
    var maps := getDocs(SidQuery(sids));
    records := [];
    assert maps[0..] == maps;
    for i := 0 to |maps|
      invariant Matched(maps, ms, decode) == Prepended(records, Matched(maps[i..], ms, decode))
    {
      MatchedStep(maps, ms, decode, i);
      var decoded := decode(maps[i]);
      if decoded.Failure? {
        PrependedNothing(records, decoded.error);
        return records, Some(decoded.error);
      }
      var d := decoded.value;
      ghost var before := records;
      ghost var goal := records + AsSeq(FirstMatch(d, ms));
      var j := 0;
      assert ms[0..] == ms;
      while j < |ms|
        invariant j <= |ms|
        invariant goal == records + AsSeq(FirstMatch(d, ms[j..]))
      {
        FirstMatchStep(d, ms, j);
        if ms[j].scanId == d.scanId {
          records := records + [CompleteRecord(d, ms[j])];
          break;
        }
        j := j + 1;
      }
      assert records == goal by {
        if j == |ms| {
          assert ms[j..] == [];
        }
      }
      PrependedShift(before, AsSeq(FirstMatch(d, ms)), Matched(maps[i + 1..], ms, decode));
    }
    assert maps[|maps|..] == [];
    assert records + [] == records;
    err := None;
  }
}
