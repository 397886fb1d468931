/** Turning the rows a motors query returns back into MotorRecords
    (parseMotorRecords and parseMotorRecord of motorsdb.go). Each row holds a
    sid and two comma-joined lists: the motor mnemonics and their positions. */
module MotorRows {
  import opened Dynamic
  import opened MotorStore

  /** One row of the grouped query result as `rows.Scan` reads it. */
  datatype ScannedRow = ScannedRow(sid: real, mnes: string, positions: string)

  const COMMA := ','

  // ---------------------------------------------------------------------------
  // strings.Split and its inverse.

  /** Go's strings.Split with a one-character separator: the pieces between the
      separators, so "" splits into [""]. */
  function Split(s: string, sep: char): (parts: seq<string>)
    decreases |s|
    ensures |parts| >= 1
    ensures forall i :: 0 <= i < |parts| ==> sep !in parts[i]
  {
    if s == [] then [""]
    else
      var rest := Split(s[1..], sep);
      if s[0] == sep then [""] + rest
      else [[s[0]] + rest[0]] + rest[1..]
  }

  /** Go's strings.Join: the pieces with one separator between neighbours. */
  function Join(parts: seq<string>, sep: char): string
    requires |parts| >= 1
    decreases |parts|
  {
    if |parts| == 1 then parts[0] else parts[0] + [sep] + Join(parts[1..], sep)
  }

  lemma JoinConsHead(c: char, rest: seq<string>, sep: char)
    requires |rest| >= 1
    ensures Join([[c] + rest[0]] + rest[1..], sep) == [c] + Join(rest, sep)
  {
    var parts := [[c] + rest[0]] + rest[1..];
    if |rest| > 1 {
      assert parts[1..] == rest[1..];
    }
  }

  /** Joining the pieces of a split gives back the string. */
  lemma {:induction false} SplitJoin(s: string, sep: char)
    decreases |s|
    ensures Join(Split(s, sep), sep) == s
  {
    if s != [] {
      var rest := Split(s[1..], sep);
      SplitJoin(s[1..], sep);
      if s[0] == sep {
        assert ([""] + rest)[1..] == rest;
        assert s == [sep] + s[1..];
      } else {
        JoinConsHead(s[0], rest, sep);
        assert s == [s[0]] + s[1..];
      }
    }
  }

  lemma {:induction false} SplitWord(w: string, sep: char)
    requires sep !in w
    decreases |w|
    ensures Split(w, sep) == [w]
  {
    if w != [] {
      SplitWord(w[1..], sep);
      assert w == [w[0]] + w[1..];
    }
  }

  lemma {:induction false} SplitPrefix(w: string, s: string, sep: char)
    requires sep !in w
    decreases |w|
    ensures Split(w + [sep] + s, sep) == [w] + Split(s, sep)
  {
    var all := w + [sep] + s;
    if w == [] {
      assert all[1..] == s;
    } else {
      assert all[1..] == w[1..] + [sep] + s;
      SplitPrefix(w[1..], s, sep);
      assert w == [w[0]] + w[1..];
    }
  }

  /** Splitting a join of separator-free pieces gives back the pieces. */
  lemma {:induction false} JoinSplit(parts: seq<string>, sep: char)
    requires |parts| >= 1
    requires forall i :: 0 <= i < |parts| ==> sep !in parts[i]
    decreases |parts|
    ensures Split(Join(parts, sep), sep) == parts
  {
    if |parts| == 1 {
      SplitWord(parts[0], sep);
    } else {
      SplitPrefix(parts[0], Join(parts[1..], sep), sep);
      JoinSplit(parts[1..], sep);
    }
  }

  // ---------------------------------------------------------------------------
  // Filling the motors map.

  /** `m[k] = v` on a Go map: rebinds `k` where it is, or adds it. */
  function Put(m: Motors, k: string, v: real): (r: Motors)
    ensures Lookup(r, k) == Some(v)
    ensures forall k' :: k' != k ==> Lookup(r, k') == Lookup(m, k')
    ensures DistinctKeys(m) ==> DistinctKeys(r)
  {
    var i := IndexOf(m, k);
    if i == -1 then
      var r := m + [(k, v)];
      IndexOfAt(r, k, |m|);
      IndexOfExtend(m, (k, v));
      r
    else
      var r := m[i := (k, v)];
      IndexOfAt(r, k, i);
      IndexOfSameKeys(m, r);
      r
  }

  /** The last position of `k` in `xs`. */
  function LastPos(xs: seq<string>, k: string): (r: nat)
    requires k in xs
    ensures r < |xs| && xs[r] == k
    ensures forall j :: r < j < |xs| ==> xs[j] != k
  {
    if k in xs[1..] then 1 + LastPos(xs[1..], k)
    else
      assert xs == [xs[0]] + xs[1..];
      0
  }

  /** `for i := 0; i < len(mnes); i++ { motors[mnes[i]], _ = ParseFloat(positions[i]) }`,
      from the map `m` built so far; `parse` is ParseFloat's value. */
  function Assigned(m: Motors, mnes: seq<string>, positions: seq<string>, parse: string -> real): (r: Motors)
    requires |mnes| <= |positions|
    decreases |mnes|
    ensures DistinctKeys(m) ==> DistinctKeys(r)
  {
    if mnes == [] then m
    else Assigned(Put(m, mnes[0], parse(positions[0])), mnes[1..], positions[1..], parse)
  }

  /** The map holds every mnemonic, bound to the position at its last
      occurrence (a later assignment overwrites an earlier one), and otherwise
      what it held before. */
  lemma {:induction false} AssignedLookup(m: Motors, mnes: seq<string>, positions: seq<string>, parse: string -> real)
    requires |mnes| <= |positions|
    decreases |mnes|
    ensures forall k :: Lookup(Assigned(m, mnes, positions, parse), k) ==
              if k in mnes then Some(parse(positions[LastPos(mnes, k)])) else Lookup(m, k)
  {
    if mnes != [] {
      var m' := Put(m, mnes[0], parse(positions[0]));
      AssignedLookup(m', mnes[1..], positions[1..], parse);
      forall k
        ensures Lookup(Assigned(m, mnes, positions, parse), k) ==
                if k in mnes then Some(parse(positions[LastPos(mnes, k)])) else Lookup(m, k)
      {
        if k in mnes[1..] {
          assert LastPos(mnes, k) == 1 + LastPos(mnes[1..], k);
        } else if k == mnes[0] {
        } else {
          assert k !in mnes by {
            assert forall j :: 1 <= j < |mnes| ==> mnes[j] == mnes[1..][j - 1];
          }
        }
      }
    }
  }

  // ---------------------------------------------------------------------------
  // Records from rows.

  /** parseMotorRecord on the current row. A failed Scan (`None`) returns the
      zero record; more mnemonics than positions index past the positions and
      panic; ParseFloat's error is discarded, so `parse` gives its value. */
  function ParsedRecord(row: Option<ScannedRow>, parse: string -> real): Outcome<MotorRecord> {
    match row
    case None => Ok(ZeroRecord)
    case Some(sr) =>
      var mnes := Split(sr.mnes, COMMA);
      var positions := Split(sr.positions, COMMA);
      if |positions| < |mnes| then Panic
      else Ok(MotorRecord(sr.sid, Assigned([], mnes, positions, parse)))
  }

  /** What a scanned row parses to: a panic exactly when it has fewer positions
      than mnemonics; otherwise a record with the row's sid whose motors map
      holds exactly the row's mnemonics, each bound to the parsed position at
      its last occurrence. */
  lemma ParsedRecordMeaning(sr: ScannedRow, parse: string -> real)
    ensures ParsedRecord(Some(sr), parse).Panic? <==> |Split(sr.positions, COMMA)| < |Split(sr.mnes, COMMA)|
    ensures ParsedRecord(Some(sr), parse).Ok? ==>
      var rec, mnes, positions := ParsedRecord(Some(sr), parse).value, Split(sr.mnes, COMMA), Split(sr.positions, COMMA);
      && rec.scanId == sr.sid
      && DistinctKeys(rec.motors)
      && forall k :: Lookup(rec.motors, k) == if k in mnes then Some(parse(positions[LastPos(mnes, k)])) else None
  {
    var mnes, positions := Split(sr.mnes, COMMA), Split(sr.positions, COMMA);
    if |mnes| <= |positions| {
      AssignedLookup([], mnes, positions, parse);
    }
  }

  /** A row whose lists were joined with commas from matching mnemonics and
      positions (no comma inside any item, no mnemonic twice) parses back to
      each mnemonic bound to its own position. */
  lemma ParseGroupedRow(sid: real, mnes: seq<string>, positions: seq<string>, parse: string -> real)
    requires 1 <= |mnes| == |positions|
    requires forall i :: 0 <= i < |mnes| ==> COMMA !in mnes[i] && COMMA !in positions[i]
    requires forall i, j :: 0 <= i < j < |mnes| ==> mnes[i] != mnes[j]
    ensures ParsedRecord(Some(ScannedRow(sid, Join(mnes, COMMA), Join(positions, COMMA))), parse).Ok?
    ensures var rec := ParsedRecord(Some(ScannedRow(sid, Join(mnes, COMMA), Join(positions, COMMA))), parse).value;
      && rec.scanId == sid
      && forall i :: 0 <= i < |mnes| ==> Lookup(rec.motors, mnes[i]) == Some(parse(positions[i]))
  {
    JoinSplit(mnes, COMMA);
    JoinSplit(positions, COMMA);
    AssignedLookup([], mnes, positions, parse);
    forall i | 0 <= i < |mnes|
      ensures LastPos(mnes, mnes[i]) == i
    {
      var r := LastPos(mnes, mnes[i]);
      assert mnes[r] == mnes[i];
    }
  }

  /** parseMotorRecord applied to each of the rows, in their order; a panic on
      any row is a panic of the whole loop. */
  function ParsedAll(rows: seq<Option<ScannedRow>>, parse: string -> real): (r: Outcome<seq<MotorRecord>>)
    ensures r.Ok? <==> forall i :: 0 <= i < |rows| ==> ParsedRecord(rows[i], parse).Ok?
    ensures r.Ok? ==> |r.value| == |rows|
    ensures r.Ok? ==> forall i :: 0 <= i < |rows| ==>
              ParsedRecord(rows[i], parse).Ok? && r.value[i] == ParsedRecord(rows[i], parse).value
  {
    if rows == [] then Ok([])
    else
      match ParsedRecord(rows[0], parse)
      case Panic => Panic
      case Ok(first) =>
        match ParsedAll(rows[1..], parse)
        case Panic =>
          assert exists i :: 1 <= i < |rows| && !ParsedRecord(rows[i], parse).Ok? by {
            var j :| 0 <= j < |rows[1..]| && !ParsedRecord(rows[1..][j], parse).Ok?;
            assert rows[1..][j] == rows[j + 1];
          }
          Panic
        case Ok(others) =>
          assert forall i :: 1 <= i < |rows| ==> rows[i] == rows[1..][i - 1];
          Ok([first] + others)
  }

  /** parseMotorRecords: the first row is parsed before the `for rows.Next()`
      loop whether or not it exists, so with no rows the result is one zero
      record, and otherwise one record per row. */
  function ParsedRecords(rows: seq<Option<ScannedRow>>, parse: string -> real): (r: Outcome<seq<MotorRecord>>)
    ensures r.Ok? ==> |r.value| >= 1
    ensures rows != [] ==> r == ParsedAll(rows, parse)
  {
    if rows == [] then
      match ParsedRecord(None, parse)
      case Ok(zero) => Ok([zero])
      case Panic => Panic
    else ParsedAll(rows, parse)
  }

  /** With no rows the result is exactly one zero-valued MotorRecord. */
  lemma ParsedNoRows(parse: string -> real)
    ensures ParsedRecords([], parse) == Ok([MotorRecord(0.0, [])])
  {
  }

  // ---------------------------------------------------------------------------
  // The loops of the source, proved against the functions above.

  method ParseMotorRecord(row: Option<ScannedRow>, parse: string -> real) returns (r: Outcome<MotorRecord>)
    ensures r == ParsedRecord(row, parse)
  {
    if row.None? {
      return Ok(ZeroRecord);
    }
    var sr := row.value;
    var mnes := Split(sr.mnes, COMMA);
    var positions := Split(sr.positions, COMMA);
    var motors: Motors := [];
    for i := 0 to |mnes|
      invariant i <= |positions|
      invariant |mnes| <= |positions| ==>
                Assigned(motors, mnes[i..], positions[i..], parse) == Assigned([], mnes, positions, parse)
    {
      if i >= |positions| {
        return Panic;
      }
      assert mnes[i..][1..] == mnes[i + 1..];
      assert positions[i..][1..] == positions[i + 1..];
      motors := Put(motors, mnes[i], parse(positions[i]));
    }
    return Ok(MotorRecord(sr.sid, motors));
  }

  method ParseMotorRecords(rows: seq<Option<ScannedRow>>, parse: string -> real) returns (r: Outcome<seq<MotorRecord>>)
    ensures r == ParsedRecords(rows, parse)
  {
    // rows.Next() before the first parse; with no rows Scan fails.
    var first := ParseMotorRecord(if rows == [] then None else rows[0], parse);
    if first.Panic? {
      return Panic;
    }
    var records := [first.value];
    var i := 1;
    while i < |rows|
      invariant rows == [] ==> i == 1 && records == [ZeroRecord]
      invariant rows != [] ==> 1 <= i <= |rows| && |records| == i
      invariant rows != [] ==> forall j :: 0 <= j < i ==>
                  ParsedRecord(rows[j], parse).Ok? && records[j] == ParsedRecord(rows[j], parse).value
    {
      var next := ParseMotorRecord(rows[i], parse);
      if next.Panic? {
        return Panic;
      }
      records := records + [next.value];
      i := i + 1;
    }
    if rows != [] {
      assert ParsedAll(rows, parse).Ok?;
      assert records == ParsedAll(rows, parse).value;
    }
    return Ok(records);
  }
}
