/** The motor query translator of motorsdb.go: a user filter over motor
    positions, keyed by "motors" or by "motors.<mne>", becomes a MotorsDbQuery
    holding one MotorPositionQuery per motor mnemonic. */
module MotorQuery {
  import opened Dynamic

  /** Constraints on one motor: exact positions, a lower and an upper bound.
      A bound the filter does not set keeps Go's zero value, 0. */
  datatype MotorPositionQuery = MotorPositionQuery(mne: string, exact: seq<real>, min: real, max: real)

  datatype MotorsDbQuery = MotorsDbQuery(sids: seq<real>, positionQueries: seq<MotorPositionQuery>)

  /** The zero value of MotorPositionQuery. */
  const ZeroQuery := MotorPositionQuery("", [], 0.0, 0.0)

  const MOTORS_KEY := "motors"
  const MOTORS_PREFIX := "motors."

  /** Go's strings.TrimPrefix. */
  function TrimPrefix(s: string, prefix: string): (r: string)
    ensures prefix <= s ==> prefix + r == s
    ensures !(prefix <= s) ==> r == s
  {
    if prefix <= s then s[|prefix|..] else s
  }

  /** Every element of a []any passes the float64 type assertion. */
  predicate AllFloats(items: seq<Val>) {
    forall i :: 0 <= i < |items| ==> items[i].Num?
  }

  /** The float64 elements of a []any, in their order. */
  function FloatsOf(items: seq<Val>): (xs: seq<real>)
    requires AllFloats(items)
    ensures |xs| == |items|
    ensures forall i :: 0 <= i < |items| ==> xs[i] == items[i].x
  {
    if items == [] then [] else [items[0].x] + FloatsOf(items[1..])
  }

  predicate IsOperator(k: string) {
    k == "$lt" || k == "$gt" || k == "$in" || k == "$eq"
  }

  /** The operand of a recognised operator has the type its assertion expects. */
  predicate OpWellTyped(op: (string, Val)) {
    && (op.0 == "$lt" || op.0 == "$gt" || op.0 == "$eq" ==> op.1.Num?)
    && (op.0 == "$in" ==> op.1.Arr? && AllFloats(op.1.items))
  }

  /** One iteration of the loop over an operator object (motorsdb.go:151-163). */
  function OpStep(q: MotorPositionQuery, op: (string, Val)): Outcome<MotorPositionQuery> {
    var (kk, vv) := op;
    if kk == "$lt" then
      (if vv.Num? then Ok(q.(max := vv.x)) else Panic)
    else if kk == "$gt" then
      (if vv.Num? then Ok(q.(min := vv.x)) else Panic)
    else if kk == "$in" then
      (if vv.Arr? && AllFloats(vv.items) then Ok(q.(exact := q.exact + FloatsOf(vv.items))) else Panic)
    else if kk == "$eq" then
      (if vv.Num? then Ok(q.(exact := [vv.x])) else Panic)
    else
      Ok(q)
  }

  /** One iteration of the loop over the entries of a map query (motorsdb.go:139-165). */
  function EntryStep(q: MotorPositionQuery, entry: (string, Val)): Outcome<MotorPositionQuery> {
    var named := q.(mne := entry.0);
    match entry.1
    case Num(x) => Ok(named.(exact := [x]))
    case Float32(_) => Panic
    case Arr(items) => if AllFloats(items) then Ok(named.(exact := named.exact + FloatsOf(items))) else Panic
    case Obj(ops) => Fold(OpStep, named, ops)
    case Str(_) => Ok(named)
    case Other => Ok(named)
  }

  /** What translatePositionQuery computes. */
  function TranslatedPositionQuery(query: Val): Outcome<MotorPositionQuery> {
    match query
    case Str(s) => Ok(ZeroQuery.(mne := s))
    case Obj(entries) => Fold(EntryStep, ZeroQuery, entries)
    case Num(_) => Ok(ZeroQuery)
    case Float32(_) => Ok(ZeroQuery)
    case Arr(_) => Ok(ZeroQuery)
    case Other => Ok(ZeroQuery)
  }

  /** One iteration of the consolidating loop of translateQuery (motorsdb.go:117-126). */
  function ConsolidateStep(acc: seq<(string, Val)>, kv: (string, Val)): Outcome<seq<(string, Val)>> {
    if kv.0 == MOTORS_KEY then
      (if kv.1.Obj? then Ok(acc + kv.1.fields) else Panic)
    else
      Ok(acc + [(TrimPrefix(kv.0, MOTORS_PREFIX), kv.1)])
  }

  /** One iteration of the translating loop of translateQuery (motorsdb.go:127-129). */
  function TranslateStep(acc: seq<MotorPositionQuery>, entry: (string, Val)): Outcome<seq<MotorPositionQuery>> {
    match TranslatedPositionQuery(Obj([entry]))
    case Ok(q) => Ok(acc + [q])
    case Panic => Panic
  }

  /** The position queries of a consolidated list of (mnemonic, value) entries. */
  function TranslatedEntries(entries: seq<(string, Val)>): Outcome<MotorsDbQuery> {
    match Fold(TranslateStep, [], entries)
    case Panic => Panic
    case Ok(qs) => Ok(MotorsDbQuery([], qs))
  }

  /** What translateQuery computes. */
  function TranslatedQuery(query: seq<(string, Val)>): Outcome<MotorsDbQuery> {
    match Fold(ConsolidateStep, [], query)
    case Panic => Panic
    case Ok(entries) => TranslatedEntries(entries)
  }

  /** The query QueryMotorPosition builds (motorsdb.go:86-96). */
  function QueryMotorPosition(mne: string, pos: real): MotorsDbQuery {
    MotorsDbQuery([], [MotorPositionQuery(mne, [pos], 0.0, 0.0)])
  }

  /** The query GetMotorRecords builds (motorsdb.go:98-101). */
  function MotorRecordsQuery(sids: seq<real>): MotorsDbQuery {
    MotorsDbQuery(sids, [])
  }

  // ---------------------------------------------------------------------------
  // The loops of the source, proved against the functions above.

  /** `for _, pos := range v.([]any) { exact = append(exact, pos.(float64)) }` */
  method AppendFloats(exact: seq<real>, items: seq<Val>) returns (r: Outcome<seq<real>>)
    ensures r == if AllFloats(items) then Ok(exact + FloatsOf(items)) else Panic
  {
    var acc := exact;
    for i := 0 to |items|
      invariant AllFloats(items[..i])
      invariant acc == exact + FloatsOf(items[..i])
    {
      if !items[i].Num? {
        return Panic;
      }
      assert items[..i + 1] == items[..i] + [items[i]];
      acc := acc + [items[i].x];
    }
    assert items[..|items|] == items;
    return Ok(acc);
  }

  /** The loop over an operator object (motorsdb.go:151-163). */
  method ApplyOperators(start: MotorPositionQuery, ops: seq<(string, Val)>) returns (r: Outcome<MotorPositionQuery>)
    ensures r == Fold(OpStep, start, ops)
  {
    var q := start;
    for i := 0 to |ops|
      invariant Fold(OpStep, start, ops) == Fold(OpStep, q, ops[i..])
    {
      FoldStep(OpStep, q, ops, i);
      var (kk, vv) := ops[i];
      if kk == "$lt" {
        if !vv.Num? {
          return Panic;
        }
        q := q.(max := vv.x);
      } else if kk == "$gt" {
        if !vv.Num? {
          return Panic;
        }
        q := q.(min := vv.x);
      } else if kk == "$in" {
        if !vv.Arr? {
          return Panic;
        }
        var exact := AppendFloats(q.exact, vv.items);
        if exact.Panic? {
          return Panic;
        }
        q := q.(exact := exact.value);
      } else if kk == "$eq" {
        if !vv.Num? {
          return Panic;
        }
        q := q.(exact := [vv.x]);
      }
    }
    return Ok(q);
  }

  /** translatePositionQuery (motorsdb.go:133-168). */
  method TranslatePositionQuery(query: Val) returns (r: Outcome<MotorPositionQuery>)
    ensures r == TranslatedPositionQuery(query)
  {
    match query {
      case Str(s) =>
        return Ok(ZeroQuery.(mne := s));
      case Obj(entries) =>
        var q := ZeroQuery;
        for i := 0 to |entries|
          invariant Fold(EntryStep, ZeroQuery, entries) == Fold(EntryStep, q, entries[i..])
        {
          FoldStep(EntryStep, q, entries, i);
          var (k, v) := entries[i];
          q := q.(mne := k);
          match v {
            case Num(x) =>
              q := q.(exact := [x]);
            case Float32(_) =>
              return Panic;
            case Arr(items) =>
              var exact := AppendFloats(q.exact, items);
              if exact.Panic? {
                return Panic;
              }
              q := q.(exact := exact.value);
            case Obj(ops) =>
              var applied := ApplyOperators(q, ops);
              if applied.Panic? {
                return Panic;
              }
              q := applied.value;
            case Str(_) =>
            case Other =>
          }
        }
        return Ok(q);
      case Num(_) =>
        return Ok(ZeroQuery);
      case Float32(_) =>
        return Ok(ZeroQuery);
      case Arr(_) =>
        return Ok(ZeroQuery);
      case Other =>
        return Ok(ZeroQuery);
    }
  }

  /** translateQuery (motorsdb.go:111-131). */
  method TranslateQuery(query: seq<(string, Val)>) returns (r: Outcome<MotorsDbQuery>)
    ensures r == TranslatedQuery(query)
  {
    // Consolidate "motors" and "motors.*" keys into (mnemonic, value) entries.
    var entries: seq<(string, Val)> := [];
    for i := 0 to |query|
      invariant Fold(ConsolidateStep, [], query) == Fold(ConsolidateStep, entries, query[i..])
    {
      FoldStep(ConsolidateStep, entries, query, i);
      var (key, val) := query[i];
      if key == MOTORS_KEY {
        if !val.Obj? {
          return Panic;
        }
        ghost var before := entries;
        for j := 0 to |val.fields|
          invariant entries == before + val.fields[..j]
        {
          assert val.fields[..j + 1] == val.fields[..j] + [val.fields[j]];
          entries := entries + [val.fields[j]];
        }
        assert val.fields[..|val.fields|] == val.fields;
      } else {
        entries := entries + [(TrimPrefix(key, MOTORS_PREFIX), val)];
      }
    }
    var qs: seq<MotorPositionQuery> := [];
    for i := 0 to |entries|
      invariant Fold(TranslateStep, [], entries) == Fold(TranslateStep, qs, entries[i..])
    {
      FoldStep(TranslateStep, qs, entries, i);
      var q := TranslatePositionQuery(Obj([entries[i]]));
      if q.Panic? {
        return Panic;
      }
      qs := qs + [q.value];
    }
    return Ok(MotorsDbQuery([], qs));
  }


  // ---------------------------------------------------------------------------
  // What the translation means.

  /** The consolidating loop only appends: run from `acc`, it puts `acc` in front. */
  lemma {:induction false} ConsolidateFrom(acc: seq<(string, Val)>, query: seq<(string, Val)>)
    decreases |query|
    ensures Fold(ConsolidateStep, acc, query) ==
            match Fold(ConsolidateStep, [], query)
            case Panic => Panic
            case Ok(entries) => Ok(acc + entries)
  {
    if query == [] {
      assert acc + [] == acc;
    } else {
      var kv := query[0];
      if kv.0 != MOTORS_KEY || kv.1.Obj? {
        var c := if kv.0 == MOTORS_KEY then kv.1.fields else [(TrimPrefix(kv.0, MOTORS_PREFIX), kv.1)];
        assert [] + c == c;
        assert ConsolidateStep(acc, kv) == Ok(acc + c);
        assert ConsolidateStep([], kv) == Ok(c);
        assert Fold(ConsolidateStep, acc, query) == Fold(ConsolidateStep, acc + c, query[1..]);
        assert Fold(ConsolidateStep, [], query) == Fold(ConsolidateStep, c, query[1..]);
        ConsolidateFrom(acc + c, query[1..]);
        ConsolidateFrom(c, query[1..]);
        match Fold(ConsolidateStep, [], query[1..])
        case Panic =>
        case Ok(e) => assert acc + (c + e) == acc + c + e;
      }
    }
  }

  /** The translating loop only appends: run from `acc`, it puts `acc` in front. */
  lemma {:induction false} TranslateFrom(acc: seq<MotorPositionQuery>, entries: seq<(string, Val)>)
    decreases |entries|
    ensures Fold(TranslateStep, acc, entries) ==
            match Fold(TranslateStep, [], entries)
            case Panic => Panic
            case Ok(qs) => Ok(acc + qs)
  {
    if entries == [] {
      assert acc + [] == acc;
    } else {
      match TranslatedPositionQuery(Obj([entries[0]]))
      case Panic =>
      case Ok(q) =>
        assert [] + [q] == [q];
        assert Fold(TranslateStep, acc, entries) == Fold(TranslateStep, acc + [q], entries[1..]);
        assert Fold(TranslateStep, [], entries) == Fold(TranslateStep, [q], entries[1..]);
        TranslateFrom(acc + [q], entries[1..]);
        TranslateFrom([q], entries[1..]);
        match Fold(TranslateStep, [], entries[1..])
        case Panic =>
        case Ok(qs) => assert acc + ([q] + qs) == acc + [q] + qs;
    }
  }

  /** Each consolidated entry becomes exactly one position query, in order; the
      whole translation panics exactly when one entry's translation does. */
  lemma {:induction false} TranslatedEntriesPerEntry(entries: seq<(string, Val)>)
    decreases |entries|
    ensures TranslatedEntries(entries).Ok? <==>
            forall i :: 0 <= i < |entries| ==> TranslatedPositionQuery(Obj([entries[i]])).Ok?
    ensures TranslatedEntries(entries).Ok? ==>
            var db := TranslatedEntries(entries).value;
            && db.sids == []
            && |db.positionQueries| == |entries|
            && forall i :: 0 <= i < |entries| ==>
                 TranslatedPositionQuery(Obj([entries[i]])).Ok? &&
                 db.positionQueries[i] == TranslatedPositionQuery(Obj([entries[i]])).value
  {
    if entries != [] {
      var rest := entries[1..];
      TranslatedEntriesPerEntry(rest);
      assert forall i :: 1 <= i < |entries| ==> entries[i] == rest[i - 1];
      match TranslatedPositionQuery(Obj([entries[0]]))
      case Panic =>
      case Ok(q) =>
        assert [] + [q] == [q];
        TranslateFrom([q], rest);
    }
  }

  /** Translating a filter with more keys appends the position queries of the
      new keys: translateQuery treats every key on its own. */
  lemma TranslatedQueryAppend(q1: seq<(string, Val)>, q2: seq<(string, Val)>)
    ensures TranslatedQuery(q1 + q2) ==
            match (TranslatedQuery(q1), TranslatedQuery(q2))
            case (Ok(a), Ok(b)) => Ok(MotorsDbQuery([], a.positionQueries + b.positionQueries))
            case _ => Panic
  {
    FoldAppend(ConsolidateStep, [], q1, q2);
    match Fold(ConsolidateStep, [], q1)
    case Panic =>
    case Ok(e1) =>
      ConsolidateFrom(e1, q2);
      match Fold(ConsolidateStep, [], q2)
      case Panic =>
      case Ok(e2) =>
        FoldAppend(TranslateStep, [], e1, e2);
        match Fold(TranslateStep, [], e1)
        case Panic =>
        case Ok(a) =>
          TranslateFrom(a, e2);
  }

  /** Operators never rename the motor. */
  lemma {:induction false} OpsKeepMne(q: MotorPositionQuery, ops: seq<(string, Val)>)
    decreases |ops|
    ensures Fold(OpStep, q, ops).Ok? ==> Fold(OpStep, q, ops).value.mne == q.mne
  {
    if ops != [] {
      match OpStep(q, ops[0])
      case Panic =>
      case Ok(next) => OpsKeepMne(next, ops[1..]);
    }
  }

  /** The mnemonic of a one-entry map query is its key. */
  lemma EntryMne(mne: string, v: Val)
    ensures TranslatedPositionQuery(Obj([(mne, v)])).Ok? ==>
            TranslatedPositionQuery(Obj([(mne, v)])).value.mne == mne
  {
    FoldSingle(EntryStep, ZeroQuery, (mne, v));
    if v.Obj? {
      OpsKeepMne(ZeroQuery.(mne := mne), v.fields);
    }
  }

  /** A single filter key: "motors" contributes one position query per nested
      key, named after it; any other key contributes exactly one query, named
      after the key with a leading "motors." removed. No sid is ever set. */
  lemma TranslatedQueryOneKey(key: string, val: Val)
    ensures key == MOTORS_KEY && !val.Obj? ==> TranslatedQuery([(key, val)]) == Panic
    ensures TranslatedQuery([(key, val)]).Ok? <==>
            if key == MOTORS_KEY then
              val.Obj? && forall i :: 0 <= i < |val.fields| ==> TranslatedPositionQuery(Obj([val.fields[i]])).Ok?
            else
              TranslatedPositionQuery(Obj([(TrimPrefix(key, MOTORS_PREFIX), val)])).Ok?
    ensures TranslatedQuery([(key, val)]).Ok? ==>
            var db := TranslatedQuery([(key, val)]).value;
            && db.sids == []
            && (key == MOTORS_KEY ==>
                  && |db.positionQueries| == |val.fields|
                  && forall i :: 0 <= i < |val.fields| ==>
                       && TranslatedPositionQuery(Obj([val.fields[i]])).Ok?
                       && db.positionQueries[i] == TranslatedPositionQuery(Obj([val.fields[i]])).value
                       && db.positionQueries[i].mne == val.fields[i].0)
            && (key != MOTORS_KEY ==>
                  var e := (TrimPrefix(key, MOTORS_PREFIX), val);
                  && |db.positionQueries| == 1
                  && TranslatedPositionQuery(Obj([e])).Ok?
                  && db.positionQueries[0] == TranslatedPositionQuery(Obj([e])).value
                  && db.positionQueries[0].mne == TrimPrefix(key, MOTORS_PREFIX))
  {
    FoldSingle(ConsolidateStep, [], (key, val));
    if key == MOTORS_KEY {
      if val.Obj? {
        assert [] + val.fields == val.fields;
        TranslatedEntriesPerEntry(val.fields);
        forall i | 0 <= i < |val.fields| {
          EntryMne(val.fields[i].0, val.fields[i].1);
        }
      }
    } else {
      var e := (TrimPrefix(key, MOTORS_PREFIX), val);
      assert [] + [e] == [e];
      TranslatedEntriesPerEntry([e]);
      EntryMne(e.0, e.1);
    }
  }

  /** A numeric value is an exact match on that value; both bounds stay 0. */
  lemma TranslateNumber(mne: string, x: real)
    ensures TranslatedPositionQuery(Obj([(mne, Num(x))])) == Ok(MotorPositionQuery(mne, [x], 0.0, 0.0))
  {
    FoldSingle(EntryStep, ZeroQuery, (mne, Num(x)));
  }

  /** A list value is an exact match on its elements in their order; an element
      that is not a float64 fails its type assertion. */
  lemma TranslateList(mne: string, items: seq<Val>)
    ensures TranslatedPositionQuery(Obj([(mne, Arr(items))])) ==
            if AllFloats(items) then Ok(MotorPositionQuery(mne, FloatsOf(items), 0.0, 0.0)) else Panic
  {
    FoldSingle(EntryStep, ZeroQuery, (mne, Arr(items)));
    if AllFloats(items) {
      assert [] + FloatsOf(items) == FloatsOf(items);
    }
  }

  /** A float32 passes the type switch and fails the float64 assertion. */
  lemma TranslateFloat32(mne: string, f: real)
    ensures TranslatedPositionQuery(Obj([(mne, Float32(f))])) == Panic
  {
    FoldSingle(EntryStep, ZeroQuery, (mne, Float32(f)));
  }

  /** A bare string names a motor and constrains nothing. */
  lemma TranslateString(s: string)
    ensures TranslatedPositionQuery(Str(s)) == Ok(MotorPositionQuery(s, [], 0.0, 0.0))
  {
  }

  /** An operator object panics exactly when a recognised operator has an operand
      of the wrong type. */
  lemma {:induction false} OperatorsPanicIff(q: MotorPositionQuery, ops: seq<(string, Val)>)
    decreases |ops|
    ensures Fold(OpStep, q, ops).Ok? <==> forall i :: 0 <= i < |ops| ==> OpWellTyped(ops[i])
  {
    if ops != [] {
      assert forall i :: 1 <= i < |ops| ==> ops[i] == ops[1..][i - 1];
      match OpStep(q, ops[0])
      case Panic =>
      case Ok(next) =>
        OperatorsPanicIff(next, ops[1..]);
    }
  }

  /** The query an operator object describes when each operator is read on its
      own: Min from `$gt`, Max from `$lt`, Exact from `$eq`, or else `$in`
      appended to the Exact already there. */
  function Composed(q: MotorPositionQuery, ops: seq<(string, Val)>): MotorPositionQuery
    requires forall i :: 0 <= i < |ops| ==> OpWellTyped(ops[i])
  {
    var gt := Lookup(ops, "$gt");
    var lt := Lookup(ops, "$lt");
    var ins := Lookup(ops, "$in");
    var eq := Lookup(ops, "$eq");
    assert gt.Some? ==> OpWellTyped(ops[IndexOf(ops, "$gt")]);
    assert lt.Some? ==> OpWellTyped(ops[IndexOf(ops, "$lt")]);
    assert ins.Some? ==> OpWellTyped(ops[IndexOf(ops, "$in")]);
    assert eq.Some? ==> OpWellTyped(ops[IndexOf(ops, "$eq")]);
    q.(min := if gt.Some? then gt.value.x else q.min,
       max := if lt.Some? then lt.value.x else q.max,
       exact := if eq.Some? then [eq.value.x]
                else if ins.Some? then q.exact + FloatsOf(ins.value.items)
                else q.exact)
  }

  /** The operators of one object compose as Composed says and in no other way.
      Keys are distinct, as in a Go map, and `$in` and `$eq` do not both occur:
      with both, the result depends on Go's map iteration order. */
  lemma {:induction false} OperatorsCompose(q: MotorPositionQuery, ops: seq<(string, Val)>)
    decreases |ops|
    requires DistinctKeys(ops)
    requires forall i :: 0 <= i < |ops| ==> OpWellTyped(ops[i])
    requires !(Lookup(ops, "$in").Some? && Lookup(ops, "$eq").Some?)
    ensures Fold(OpStep, q, ops) == Ok(Composed(q, ops))
  {
    if ops != [] {
      var rest := ops[1..];
      var k := ops[0].0;
      assert forall i :: 0 <= i < |rest| ==> rest[i] == ops[i + 1];
      assert forall i :: 0 <= i < |rest| ==> rest[i].0 != k;
      forall key: string
        ensures Lookup(ops, key) == if key == k then Some(ops[0].1) else Lookup(rest, key)
      {
        LookupCons(ops, key);
      }
      assert Lookup(rest, k) == None;
      assert OpWellTyped(ops[0]);
      var next := OpStep(q, ops[0]).value;
      OperatorsCompose(next, rest);
    }
  }

  /** An operator object as a filter value: unset bounds are 0 and Exact starts
      empty. */
  lemma OperatorObjectTranslation(mne: string, ops: seq<(string, Val)>)
    requires DistinctKeys(ops)
    requires forall i :: 0 <= i < |ops| ==> OpWellTyped(ops[i])
    requires !(Lookup(ops, "$in").Some? && Lookup(ops, "$eq").Some?)
    ensures TranslatedPositionQuery(Obj([(mne, Obj(ops))])) == Ok(Composed(MotorPositionQuery(mne, [], 0.0, 0.0), ops))
  {
    FoldSingle(EntryStep, ZeroQuery, (mne, Obj(ops)));
    OperatorsCompose(ZeroQuery.(mne := mne), ops);
  }

  /** An operator key the translator does not recognise is ignored wherever it
      stands in the object. */
  lemma UnknownOperatorIgnored(q: MotorPositionQuery, before: seq<(string, Val)>, op: (string, Val), after: seq<(string, Val)>)
    requires !IsOperator(op.0)
    ensures Fold(OpStep, q, before + [op] + after) == Fold(OpStep, q, before + after)
  {
    FoldAppend(OpStep, q, before + [op], after);
    FoldAppend(OpStep, q, before, [op]);
    FoldAppend(OpStep, q, before, after);
    match Fold(OpStep, q, before)
    case Panic =>
    case Ok(mid) => FoldSingle(OpStep, mid, op);
  }

  /** QueryMotorPosition(mne, pos) asks for what the filter {"motors.<mne>": pos}
      translates to. */
  lemma QueryMotorPositionIsTranslated(mne: string, pos: real)
    ensures TranslatedQuery([(MOTORS_PREFIX + mne, Num(pos))]) == Ok(QueryMotorPosition(mne, pos))
  {
    var key := MOTORS_PREFIX + mne;
    assert key != MOTORS_KEY by {
      assert |key| > |MOTORS_KEY|;
    }
    assert MOTORS_PREFIX <= key;
    assert key[|MOTORS_PREFIX|..] == mne;
    FoldSingle(ConsolidateStep, [], (key, Num(pos)));
    assert TrimPrefix(key, MOTORS_PREFIX) == mne;
    assert [] + [(mne, Num(pos))] == [(mne, Num(pos))];
    assert Fold(ConsolidateStep, [], [(key, Num(pos))]) == Ok([(mne, Num(pos))]);
    FoldSingle(TranslateStep, [], (mne, Num(pos)));
    TranslateNumber(mne, pos);
    var q := MotorPositionQuery(mne, [pos], 0.0, 0.0);
    assert [] + [q] == [q];
    assert TranslateStep([], (mne, Num(pos))) == Ok([q]);
  }

  /** translateQuery's table-driven case of a "motors" map beside a
      "motors.<mne>" key. */
  lemma TranslateQueryMixedKeys()
    ensures TranslatedQuery([("motors", Obj([("mne0", Num(1.23))])), ("motors.mne1", Num(4.56))]) ==
            Ok(MotorsDbQuery([], [MotorPositionQuery("mne0", [1.23], 0.0, 0.0), MotorPositionQuery("mne1", [4.56], 0.0, 0.0)]))
  {
    var a := ("motors", Obj([("mne0", Num(1.23))]));
    var b := ("motors.mne1", Num(4.56));
    assert [a, b] == [a] + [b];
    assert MOTORS_PREFIX + "mne1" == "motors.mne1";
    QueryMotorPositionIsTranslated("mne1", 4.56);
    TranslateNumber("mne0", 1.23);
    assert a.1.fields[0] == ("mne0", Num(1.23));
    TranslatedQueryOneKey(a.0, a.1);
    var db := TranslatedQuery([a]).value;
    assert db.positionQueries == [MotorPositionQuery("mne0", [1.23], 0.0, 0.0)];
    assert TranslatedQuery([a]) == Ok(MotorsDbQuery([], [MotorPositionQuery("mne0", [1.23], 0.0, 0.0)]));
    TranslatedQueryAppend([a], [b]);
    assert TranslatedQuery([b]) == Ok(QueryMotorPosition("mne1", 4.56));
    assert [MotorPositionQuery("mne0", [1.23], 0.0, 0.0)] + [MotorPositionQuery("mne1", [4.56], 0.0, 0.0)] ==
           [MotorPositionQuery("mne0", [1.23], 0.0, 0.0), MotorPositionQuery("mne1", [4.56], 0.0, 0.0)];
  }

  /** translateQuery's table-driven case of `$gt`, `$lt` and `$in` composing
      into one query. */
  lemma TranslateQueryComposedOperators()
    ensures TranslatedQuery([("motors", Obj([("mne", Obj([("$gt", Num(-1.23)), ("$lt", Num(4.56)), ("$in", Arr([Num(0.0), Num(1.23)]))]))]))]) ==
            Ok(MotorsDbQuery([], [MotorPositionQuery("mne", [0.0, 1.23], -1.23, 4.56)]))
  {
    var ops := [("$gt", Num(-1.23)), ("$lt", Num(4.56)), ("$in", Arr([Num(0.0), Num(1.23)]))];
    var c := ("motors", Obj([("mne", Obj(ops))]));
    var q0 := MotorPositionQuery("mne", [], 0.0, 0.0);
    var q1 := q0.(min := -1.23);
    var q2 := q1.(max := 4.56);
    assert FloatsOf([Num(0.0), Num(1.23)]) == [0.0, 1.23];
    assert [] + [0.0, 1.23] == [0.0, 1.23];
    var q3 := q2.(exact := [0.0, 1.23]);
    assert OpStep(q2, ops[2]) == Ok(q3);
    assert Fold(OpStep, q2, ops[2..]) == Ok(q3) by { FoldSingle(OpStep, q2, ops[2]); assert ops[2..] == [ops[2]]; }
    FoldStep(OpStep, q0, ops, 1);
    FoldStep(OpStep, q0, ops, 0);
    assert ops[0..] == ops;
    assert Fold(OpStep, q0, ops) == Ok(q3);
    FoldSingle(EntryStep, ZeroQuery, ("mne", Obj(ops)));
    assert TranslatedPositionQuery(Obj([("mne", Obj(ops))])) == Ok(q3);
    assert c.1.fields[0] == ("mne", Obj(ops));
    TranslatedQueryOneKey(c.0, c.1);
    var db := TranslatedQuery([c]).value;
    assert db.positionQueries == [q3];
  }
}
