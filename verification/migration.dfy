/** Lossless journal migration: copy every row, verify every row, and only then say VERIFIED.

    Any step may fail, be interrupted, or be the last one before the process is killed. */
module Migration {
  import opened Wrappers
  import opened RowCodec

  // ---------------------------------------------------------------- data

  /** How a detail is stored and resolved; resolving may refuse. */
  datatype Codec = Codec(store: seq<Byte> -> seq<Byte>, resolve: seq<Byte> -> Option<seq<Byte>>)

  /** What the evidence store promises: what was stored resolves to itself. */
  ghost predicate Lossless(c: Codec) {
    forall x :: c.resolve(c.store(x)) == Some(x)
  }

  const EVENTS := "brain_events"
  const PROVENANCE: seq<Byte> := Ascii("market_provenance")

  function Ascii(s: string): seq<Byte> {
    seq(|s|, i requires 0 <= i < |s| => s[i] as int % 128)
  }

  /** Positions of the columns of the event table that the migration looks at. */
  datatype Layout = Layout(id: nat, ts: nat, kind: nat, subject: nat, detail: nat) {
    predicate Fits(row: Row) { id < |row| && ts < |row| && kind < |row| && subject < |row| && detail < |row| }

    predicate SameId(a: Row, b: Row) { id < |a| && id < |b| && a[id] == b[id] }

    /** The detail has a column of its own. */
    predicate Apart() { id != detail && ts != detail && kind != detail && subject != detail }

    /** The columns that the JSON record of an event repeats: bytes have no place in it. */
    predicate Recordable(row: Row)
      requires Fits(row)
    {
      !row[id].Blob? && !row[ts].Blob? && !row[kind].Blob? && !row[subject].Blob?
    }
  }

  datatype Table = Table(name: string, rows: seq<Row>)

  datatype Source = Source(schema: map<string, string>, tables: seq<Table>, layout: Layout)

  datatype RowStatus = RowBuilding | RowVerified

  /** A destination database; status is its representation row. */
  datatype Db = Db(objects: map<string, string>, tables: map<string, seq<Row>>, status: Option<RowStatus>)

  datatype Manifest = NoManifest | Building | CopiedUnverified | Verified | Interrupted | Failed

  datatype Signal = Fine | Raise(interrupt: bool) | Kill

  /** A failure of the migration's own checks, or none. */
  predicate Orderly(s: Signal) { s == Fine || s == Raise(false) }

  datatype Digest = Digest(count: nat, fed: seq<Byte>)

  /** How a migration ended; recorded says that the failure could be written to the manifest. */
  datatype Ending = Returned | Raised(interrupt: bool, recorded: bool) | Killed

  ghost predicate ValidSource(s: Source) {
    && (forall i, j :: 0 <= i < j < |s.tables| ==> s.tables[i].name != s.tables[j].name)
    && (forall i :: 0 <= i < |s.tables| ==> ValidTable(s, s.tables[i]))
    && s.layout.Apart()
  }

  /** Rows that the database can hold; event rows have the columns, and ids are a primary key. */
  ghost predicate ValidTable(s: Source, t: Table) {
    && (forall row <- t.rows :: StorableRow(row))
    && (t.name == EVENTS ==>
         && (forall row <- t.rows :: s.layout.Fits(row))
         && (forall i, j :: 0 <= i < j < |t.rows| ==> !s.layout.SameId(t.rows[i], t.rows[j])))
  }

  // ---------------------------------------------------------------- one row

  function Provenance(l: Layout, row: Row): bool
    requires l.kind < |row|
  {
    row[l.kind] == Text(PROVENANCE)
  }

  /** The row as it is inserted; none when its identity cannot be recorded or its detail not handled. */
  function CopiedRow(c: Codec, l: Layout, name: string, row: Row): Option<Row> {
    if name != EVENTS then Some(row)
    else if !l.Fits(row) then None
    else if !l.Recordable(row) then None
    else
      match row[l.detail]
      case Text(raw) =>
        if !Provenance(l, row) then Some(row)
        else if |c.store(raw)| < TWO_TO_64 then Some(row[l.detail := Text(c.store(raw))])
        else None
      case Null => if Provenance(l, row) then None else Some(row)
      case _ => None
  }

  /** The row as verification reads it back; none when its detail does not resolve. */
  function ResolvedRow(c: Codec, l: Layout, name: string, row: Row): Option<Row> {
    if name != EVENTS then Some(row)
    else if |row| <= l.detail then None
    else
      match row[l.detail]
      case Text(raw) =>
        var r := c.resolve(raw);
        if r.Some? && |r.value| < TWO_TO_64 then Some(row[l.detail := Text(r.value)]) else None
      case _ => Some(row)
  }

  function AllOf(f: Row -> Option<Row>, rows: seq<Row>): (r: Option<seq<Row>>)
    ensures r.Some? ==> |r.value| == |rows| && forall i :: 0 <= i < |rows| ==> f(rows[i]) == Some(r.value[i])
    ensures r.None? <==> exists i :: 0 <= i < |rows| && f(rows[i]).None?
  {
    if rows == [] then Some([])
    else
      var n := |rows| - 1;
      var front, last := AllOf(f, rows[..n]), f(rows[n]);
      if front.None? then
        (var i :| 0 <= i < n && f(rows[..n][i]).None?;
         assert f(rows[i]).None?;
         None)
      else if last.None? then None
      else Some(front.value + [last.value])
  }

  function Copied(c: Codec, l: Layout, name: string, rows: seq<Row>): Option<seq<Row>> {
    AllOf(row => CopiedRow(c, l, name, row), rows)
  }

  function Resolved(c: Codec, l: Layout, name: string, rows: seq<Row>): Option<seq<Row>> {
    AllOf(row => ResolvedRow(c, l, name, row), rows)
  }

  function WithTable(db: Db, name: string, rows: seq<Row>): Db {
    db.(tables := db.tables[name := rows])
  }

  /** Every schema object is there unchanged, and every table, with details resolved, equals the
      source row for row. */
  ghost predicate Faithful(s: Source, c: Codec, db: Db) {
    && (forall name <- s.schema :: name in db.objects && db.objects[name] == s.schema[name])
    && forall i :: 0 <= i < |s.tables| ==> TableFaithful(s, c, db, s.tables[i])
  }

  ghost predicate TableFaithful(s: Source, c: Codec, db: Db, t: Table) {
    t.name in db.tables && Resolved(c, s.layout, t.name, db.tables[t.name]) == Some(t.rows)
  }

  // ---------------------------------------------------------------- exactly which journals migrate

  /** An event that comes back as it was: no bytes in its identity, and for a detail a text that is
      transformed, or one that resolves to itself, or nothing unless it would have to be transformed. */
  ghost predicate Migratable(c: Codec, l: Layout, row: Row)
    requires l.Fits(row)
  {
    && !(row[l.id].Blob? || row[l.ts].Blob? || row[l.kind].Blob? || row[l.subject].Blob?)
    && var transformed := row[l.kind] == Text(Ascii("market_provenance"));
       match row[l.detail]
       case Text(raw) => if transformed then |c.store(raw)| < TWO_TO_64 else c.resolve(raw) == Some(raw)
       case Null => !transformed
       case _ => false
  }

  ghost predicate MigratableSource(s: Source, c: Codec)
    requires ValidSource(s)
  {
    forall t <- s.tables :: t.name == EVENTS ==> forall row <- t.rows ::
      s.layout.Fits(row) && Migratable(c, s.layout, row)
  }

  lemma MigratableRow(c: Codec, l: Layout, row: Row)
    requires Lossless(c) && StorableRow(row) && l.Fits(row)
    ensures Migratable(c, l, row) <==>
      CopiedRow(c, l, EVENTS, row).Some? && ResolvedRow(c, l, EVENTS, CopiedRow(c, l, EVENTS, row).value) == Some(row)
  {
    assert Storable(row[l.detail]);
    if row[l.detail].Text? {
      var raw, d := row[l.detail].utf8, l.detail;
      assert row[d := Text(c.store(raw))][d := Text(raw)] == row;
      assert row[d := Text(raw)] == row;
      var r := c.resolve(raw);
      if r.Some? { assert row[d := Text(r.value)][d] == Text(r.value); }
    }
  }

  /** A table copies and reads back as itself exactly when each of its events is migratable. */
  lemma MigratableTable(s: Source, c: Codec, t: Table)
    requires Lossless(c) && ValidTable(s, t)
    ensures var out := Copied(c, s.layout, t.name, t.rows);
      (out.Some? && Resolved(c, s.layout, t.name, out.value) == Some(t.rows)) <==>
      (t.name == EVENTS ==> forall row <- t.rows :: Migratable(c, s.layout, row))
  {
    var out := Copied(c, s.layout, t.name, t.rows);
    hide CopiedRow, ResolvedRow, Migratable;
    if t.name == EVENTS {
      forall i | 0 <= i < |t.rows|
        ensures Migratable(c, s.layout, t.rows[i]) <==>
          CopiedRow(c, s.layout, t.name, t.rows[i]).Some?
          && ResolvedRow(c, s.layout, t.name, CopiedRow(c, s.layout, t.name, t.rows[i]).value) == Some(t.rows[i])
      {
        assert t.rows[i] in t.rows;
        MigratableRow(c, s.layout, t.rows[i]);
      }
      BackAgain(row => CopiedRow(c, s.layout, t.name, row), row => ResolvedRow(c, s.layout, t.name, row), t.rows);
    } else {
      OtherRows(s, c, t.name, t.rows);
    }
  }

  /** A journal of one event that cannot be copied. */
  lemma OneEventFails(c: Codec, l: Layout, row: Row)
    requires l.Apart() && l.Fits(row) && StorableRow(row)
    requires CopiedRow(c, l, EVENTS, row).None? && !Migratable(c, l, row)
    ensures var s := Source(map[], [Table(EVENTS, [row])], l);
      && ValidSource(s) && !MigratableSource(s, c) && Copied(c, s.layout, EVENTS, [row]).None?
  {
    var s := Source(map[], [Table(EVENTS, [row])], l);
    hide CopiedRow, Migratable, StorableRow;
    assert ValidTable(s, s.tables[0]);
    assert row in s.tables[0].rows && s.tables[0] in s.tables;
    assert CopiedRow(c, s.layout, EVENTS, [row][0]).None?;
  }

  const EVENT_LAYOUT := Layout(0, 1, 2, 3, 4)

  /** One provenance event without detail, as the table allows: no codec migrates that journal. */
  lemma BareProvenanceFails(c: Codec)
    ensures var row := [Integer(1), Text([97]), Text(PROVENANCE), Null, Null];
      var s := Source(map[], [Table(EVENTS, [row])], EVENT_LAYOUT);
      && ValidSource(s) && !MigratableSource(s, c) && Copied(c, s.layout, EVENTS, [row]).None?
  {
    var row := [Integer(1), Text([97]), Text(PROVENANCE), Null, Null];
    assert forall v <- row :: Storable(v);
    OneEventFails(c, EVENT_LAYOUT, row);
  }

  /** Nor one event whose subject is a blob, whatever its detail. */
  lemma BlobSubjectFails(c: Codec, detail: Value)
    requires Storable(detail)
    ensures var row := [Integer(1), Text([97]), Text([97]), Blob([0]), detail];
      var s := Source(map[], [Table(EVENTS, [row])], EVENT_LAYOUT);
      && ValidSource(s) && !MigratableSource(s, c) && Copied(c, s.layout, EVENTS, [row]).None?
  {
    var row := [Integer(1), Text([97]), Text([97]), Blob([0]), detail];
    assert forall v <- row :: Storable(v);
    OneEventFails(c, EVENT_LAYOUT, row);
  }

  lemma OtherRows(s: Source, c: Codec, name: string, rows: seq<Row>)
    requires name != EVENTS
    ensures Copied(c, s.layout, name, rows) == Some(rows) && Resolved(c, s.layout, name, rows) == Some(rows)
  {
    hide AllOf;
    var a, b := Copied(c, s.layout, name, rows), Resolved(c, s.layout, name, rows);
    assert a.Some? && b.Some?;
    assert a.value == rows && b.value == rows;
  }

  lemma BackAgain(f: Row -> Option<Row>, g: Row -> Option<Row>, rows: seq<Row>)
    ensures var out := AllOf(f, rows);
      (out.Some? && AllOf(g, out.value) == Some(rows)) <==>
      forall i :: 0 <= i < |rows| ==> f(rows[i]).Some? && g(f(rows[i]).value) == Some(rows[i])
  {
    hide AllOf;
    var out := AllOf(f, rows);
    if out.Some? && forall i :: 0 <= i < |rows| ==> g(f(rows[i]).value) == Some(rows[i]) {
      assert AllOf(g, out.value).Some?;
      assert AllOf(g, out.value).value == rows;
    }
  }

  // ---------------------------------------------------------------- streams

  lemma {:induction false} StreamMore(rows: seq<Row>, row: Row)
    requires (forall r <- rows :: StorableRow(r)) && StorableRow(row)
    ensures Stream(rows + [row]) == Stream(rows) + EncodeRow(row)
  {
    hide EncodeRow, StorableRow;
    if rows == [] {
      assert [row][1..] == [] && rows + [row] == [row];
    } else {
      StreamMore(rows[1..], row);
      assert (rows + [row])[1..] == rows[1..] + [row];
    }
  }

  lemma AllOfMore(f: Row -> Option<Row>, rows: seq<Row>, i: nat, done: seq<Row>)
    requires i < |rows| && AllOf(f, rows[..i]) == Some(done)
    ensures AllOf(f, rows[..i + 1]) == if f(rows[i]).Some? then Some(done + [f(rows[i]).value]) else None
    ensures f(rows[i]).None? ==> AllOf(f, rows).None?
  {
    assert rows[..i + 1][..i] == rows[..i];
  }

  lemma ResolvedStorable(c: Codec, l: Layout, name: string, row: Row)
    requires StorableRow(row) && ResolvedRow(c, l, name, row).Some?
    ensures StorableRow(ResolvedRow(c, l, name, row).value)
  {
  }

  lemma CopiedStorable(c: Codec, l: Layout, name: string, row: Row)
    requires StorableRow(row) && CopiedRow(c, l, name, row).Some?
    ensures StorableRow(CopiedRow(c, l, name, row).value)
  {
  }

  // ---------------------------------------------------------------- a requested stop

  /** The events that have been copied with row i of table j. */
  function EventsBy(tables: seq<Table>, j: nat, i: nat): nat
    requires j < |tables|
  {
    |EventRows(tables[..j])| + if tables[j].name == EVENTS then i + 1 else 0
  }

  /** Every row of the first j tables can be copied. */
  ghost predicate CopiedBefore(s: Source, c: Codec, j: nat)
    requires j <= |s.tables|
  {
    forall h :: 0 <= h < j ==> Copied(c, s.layout, s.tables[h].name, s.tables[h].rows).Some?
  }

  /** A stop after k events is reached with row i of table j: all rows up to it can be copied. */
  ghost predicate StopsAt(s: Source, c: Codec, k: nat, j: nat, i: nat)
    requires j < |s.tables| && i < |s.tables[j].rows|
  {
    && EventsBy(s.tables, j, i) >= k && CopiedBefore(s, c, j)
    && Copied(c, s.layout, s.tables[j].name, s.tables[j].rows[..i + 1]).Some?
  }

  ghost predicate StopsIn(s: Source, c: Codec, stop: Option<nat>, j: nat)
    requires j < |s.tables|
  {
    stop.Some? && exists i :: 0 <= i < |s.tables[j].rows| && StopsAt(s, c, stop.value, j, i)
  }

  ghost predicate Stopped(s: Source, c: Codec, stop: Option<nat>) {
    exists j :: 0 <= j < |s.tables| && StopsIn(s, c, stop, j)
  }

  /** The stop is not reached with any of the first i rows of table j. */
  ghost predicate NotYet(s: Source, c: Codec, stop: Option<nat>, j: nat, i: nat)
    requires j < |s.tables| && i <= |s.tables[j].rows|
  {
    stop.Some? ==> forall m :: 0 <= m < i ==> !StopsAt(s, c, stop.value, j, m)
  }

  /** Behind a row that cannot be copied no stop is reached. */
  lemma NoStopBehind(s: Source, c: Codec, stop: Option<nat>, j: nat, i: nat)
    requires j < |s.tables| && i < |s.tables[j].rows| && NotYet(s, c, stop, j, i)
    requires CopiedRow(c, s.layout, s.tables[j].name, s.tables[j].rows[i]).None?
    ensures !StopsIn(s, c, stop, j)
  {
    hide CopiedRow, CopiedBefore;
    var t := s.tables[j];
    if stop.Some? {
      forall m | i <= m < |t.rows| ensures !StopsAt(s, c, stop.value, j, m) {
        assert t.rows[..m + 1][i] == t.rows[i];
      }
    }
  }

  lemma StopsHere(s: Source, c: Codec, stop: Option<nat>, j: nat, i: nat)
    requires j < |s.tables| && i < |s.tables[j].rows| && CopiedBefore(s, c, j) && NotYet(s, c, stop, j, i)
    requires Copied(c, s.layout, s.tables[j].name, s.tables[j].rows[..i + 1]).Some?
    ensures stop.Some? && EventsBy(s.tables, j, i) >= stop.value ==> StopsIn(s, c, stop, j)
    ensures (stop.Some? && EventsBy(s.tables, j, i) >= stop.value) || NotYet(s, c, stop, j, i + 1)
  {
    hide Copied, CopiedBefore, EventsBy;
    if stop.Some? && EventsBy(s.tables, j, i) >= stop.value { assert StopsAt(s, c, stop.value, j, i); }
  }

  lemma NotAtAll(s: Source, c: Codec, stop: Option<nat>, j: nat)
    requires j < |s.tables|
    ensures NotYet(s, c, stop, j, 0)
    ensures NotYet(s, c, stop, j, |s.tables[j].rows|) ==> !StopsIn(s, c, stop, j)
  {
  }

  /** Tables behind one that cannot be copied have no stop. */
  lemma StopsOnlyIn(s: Source, c: Codec, stop: Option<nat>, j: nat)
    requires j < |s.tables|
    ensures Copied(c, s.layout, s.tables[j].name, s.tables[j].rows).None? ==>
      forall h :: j < h < |s.tables| ==> !StopsIn(s, c, stop, h)
  {
    hide Copied, EventsBy;
  }

  // ---------------------------------------------------------------- the migration

  class Migrator {
    const source: Source
    const codec: Codec
    const faults: nat -> Signal
    const stopAfter: Option<nat>
    var tick: nat
    ghost var harmed: bool
    ghost var killed: bool
    var manifest: Manifest
    var working: Db
    var committed: Db
    var digests: seq<Digest>
    var recorded: seq<Row>
    var events: nat

    constructor (source: Source, codec: Codec, faults: nat -> Signal, stopAfter: Option<nat>)
      ensures this.source == source && this.codec == codec && this.faults == faults && this.stopAfter == stopAfter
      ensures manifest == NoManifest && working == committed == Db(map[], map[], None)
      ensures digests == [] && recorded == [] && events == 0 && !harmed && !killed
    {
      this.source, this.codec, this.faults, this.stopAfter := source, codec, faults, stopAfter;
      tick, manifest, digests, recorded, events := 0, NoManifest, [], [], 0;
      harmed, killed := false, false;
      working, committed := Db(map[], map[], None), Db(map[], map[], None);
    }

    /** Nothing fails from outside; harmed and killed say whether something has. */
    ghost predicate Quiet() {
      forall t :: faults(t).Fine?
    }

    /** Nor is a requested stop ever reached. */
    ghost predicate Calm() {
      Quiet() && !Stopped(source, codec, stopAfter)
    }

    method Risk() returns (s: Signal)
      modifies this`tick, this`harmed, this`killed
      ensures s == faults(old(tick)) && tick == old(tick) + 1
      ensures harmed == (old(harmed) || !s.Fine?) && killed == (old(killed) || s.Kill?)
    {
      s := faults(tick);
      tick := tick + 1;
      harmed, killed := harmed || !s.Fine?, killed || s.Kill?;
    }

    method Commit() returns (s: Signal)
      modifies this`tick, this`harmed, this`killed, this`committed
      ensures if s.Fine? then committed == working else committed == old(committed)
      ensures s == faults(old(tick)) && killed == (old(killed) || s.Kill?) && (s.Fine? ==> harmed == old(harmed))
    {
      s := Risk();
      if s.Fine? { committed := working; }
    }

    method Dump(m: Manifest) returns (s: Signal)
      modifies this`tick, this`harmed, this`killed, this`manifest
      ensures manifest == if s.Fine? then m else old(manifest)
      ensures s == faults(old(tick)) && killed == (old(killed) || s.Kill?) && (s.Fine? ==> harmed == old(harmed))
    {
      s := Risk();
      if s.Fine? { manifest := m; }
    }

    /** While copying, neither database is marked VERIFIED, nor is the manifest. */
    predicate Unmarked()
      reads this
    {
      manifest != Verified && working.status != Some(RowVerified) && committed.status != Some(RowVerified)
    }

    /** Insert the n-th row of a table; every event is committed at once. */
    method InsertRow(name: string, n: nat, done: seq<Row>, row: Row, ghost start: Db) returns (s: Signal)
      requires working == WithTable(start, name, done) && Unmarked()
      modifies this`tick, this`harmed, this`killed, this`working, this`committed
      ensures Unmarked() && working.status == old(working).status && working.objects == old(working).objects
      ensures committed.status == old(committed).status || committed.status == working.status
      ensures s.Fine? ==> working == WithTable(start, name, done + [row])
      ensures s.Fine? && (name == EVENTS || n % 1000 == 0) ==> committed == working
      ensures Quiet() ==> s.Fine?
      ensures killed == (old(killed) || s.Kill?) && (s.Fine? ==> harmed == old(harmed))
    {
      s := Risk();
      if !s.Fine? { return; }
      Overwrite(start, name, done, done + [row]);
      working := WithTable(working, name, done + [row]);
      if name == EVENTS || n % 1000 == 0 { s := Commit(); }
    }

    /** The rows of a table: digest, record, insert, and look whether to stop. */
    method CopyRows(j: nat, t: Table) returns (s: Signal, fed: seq<Byte>)
      requires j < |source.tables| && t == source.tables[j] && ValidTable(source, t) && Unmarked()
      requires recorded == EventRows(source.tables[..j]) && events == |recorded| && CopiedBefore(source, codec, j)
      modifies this
      ensures Unmarked() && manifest == old(manifest) && digests == old(digests)
      ensures working.objects == old(working).objects && working.status == old(working).status
      ensures (committed.status == old(committed).status || committed.status == working.status)
      ensures s.Fine? ==> Copied(codec, source.layout, t.name, t.rows).Some? && fed == Stream(t.rows)
      ensures s.Fine? ==> working == WithTable(old(working), t.name, Copied(codec, source.layout, t.name, t.rows).value)
      ensures s.Fine? ==> recorded == old(recorded) + (if t.name == EVENTS then t.rows else []) && events == |recorded|
      ensures Quiet() ==> !s.Kill? && (s == Raise(true) <==> StopsIn(source, codec, stopAfter, j))
      ensures Quiet() ==>
        (s.Fine? <==> Copied(codec, source.layout, t.name, t.rows).Some? && !StopsIn(source, codec, stopAfter, j))
      ensures killed == (old(killed) || s.Kill?) && (s.Fine? ==> harmed == old(harmed))
    {
      hide CopiedRow, StorableRow, Stream, EncodeRow, AllOf, Copied, ValidTable, WithTable, EventRows, StopsIn,
        NotYet, CopiedBefore;
      fed := [];
      var h := new Hash();
      var done: seq<Row> := [];
      Storables(source, t);
      CopyEnds(codec, source.layout, t);
      NotAtAll(source, codec, stopAfter, j);
      Overwrite(working, t.name, [], []);
      working := WithTable(working, t.name, []);
      var i := 0;
      while i < |t.rows|
        invariant harmed == old(harmed) && killed == old(killed)
        invariant 0 <= i <= |t.rows|
        invariant Unmarked() && manifest == old(manifest) && working.status == old(working).status
        invariant committed.status == old(committed).status || committed.status == working.status
        invariant working == WithTable(old(working), t.name, done) && working.objects == old(working).objects
        invariant h.fed == Stream(t.rows[..i]) && digests == old(digests)
        invariant Copied(codec, source.layout, t.name, t.rows[..i]) == Some(done)
        invariant recorded == old(recorded) + if t.name == EVENTS then t.rows[..i] else []
        invariant events == |recorded|
        invariant NotYet(source, codec, stopAfter, j, i)
      {
        var row := t.rows[i];
        CopyStep(codec, source.layout, t, i, done);
        UpdateDigest(h, row);
        var out := CopiedRow(codec, source.layout, t.name, row);
        if out.None? {
          NoStopBehind(source, codec, stopAfter, j, i);
          return Raise(false), [];
        }
        if t.name == EVENTS {
          recorded := recorded + [row];
          events := events + 1;
        }
        s := InsertRow(t.name, i + 1, done, out.value, old(working));
        if !s.Fine? { return; }
        done := done + [out.value];
        StopsHere(source, codec, stopAfter, j, i);
        if stopAfter.Some? && events >= stopAfter.value { return Raise(true), []; }
        i := i + 1;
      }
      s, fed := Fine, h.fed;
    }

    method CopyTable(j: nat, t: Table) returns (s: Signal)
      requires j < |source.tables| && t == source.tables[j] && ValidTable(source, t)
      requires t.name !in working.tables && Unmarked()
      requires recorded == EventRows(source.tables[..j]) && events == |recorded| && CopiedBefore(source, codec, j)
      modifies this
      ensures Unmarked() && manifest == old(manifest) && working.objects == old(working).objects
      ensures working.status == old(working).status
      ensures (committed.status == old(committed).status || committed.status == working.status)
      ensures s.Fine? ==> committed == working
      ensures s.Fine? ==> Copied(codec, source.layout, t.name, t.rows).Some?
      ensures s.Fine? ==> working == WithTable(old(working), t.name, Copied(codec, source.layout, t.name, t.rows).value)
      ensures s.Fine? ==> digests == old(digests) + [Digest(|t.rows|, Stream(t.rows))]
      ensures s.Fine? ==> recorded == old(recorded) + (if t.name == EVENTS then t.rows else []) && events == |recorded|
      ensures Quiet() ==> !s.Kill? && (s == Raise(true) <==> StopsIn(source, codec, stopAfter, j))
      ensures Quiet() ==>
        (s.Fine? <==> Copied(codec, source.layout, t.name, t.rows).Some? && !StopsIn(source, codec, stopAfter, j))
      ensures killed == (old(killed) || s.Kill?) && (s.Fine? ==> harmed == old(harmed))
    {
      hide StorableRow, Stream, Copied, ValidTable, WithTable, EventRows, StopsIn, CopiedBefore;
      var fed;
      s, fed := CopyRows(j, t);
      if !s.Fine? { return; }
      s := Commit();
      if !s.Fine? { return; }
      digests := digests + [Digest(|t.rows|, fed)];
      s := Dump(manifest);
    }

    /** Compare count and stream of what a table resolves to with what was read from the source. */
    method VerifyTable(name: string, expected: Digest) returns (s: Signal)
      requires name in working.tables && forall row <- working.tables[name] :: StorableRow(row)
      modifies this`tick, this`harmed, this`killed
      ensures s.Fine? ==> exists rows ::
        Matches(rows, expected) && Resolved(codec, source.layout, name, working.tables[name]) == Some(rows)
      ensures Quiet() ==> Orderly(s)
      ensures Quiet() && s.Raise? ==>
        forall rows :: Resolved(codec, source.layout, name, working.tables[name]) == Some(rows) ==>
          !Matches(rows, expected)
      ensures killed == (old(killed) || s.Kill?) && (s.Fine? ==> harmed == old(harmed))
    {
      hide ResolvedRow, StorableRow, Stream, EncodeRow, AllOf, Resolved;
      var rows := working.tables[name];
      var h := new Hash();
      ghost var done: seq<Row> := [];
      VerifyEnds(codec, source.layout, name, rows);
      var i := 0;
      while i < |rows|
        invariant harmed == old(harmed) && killed == old(killed)
        invariant 0 <= i <= |rows|
        invariant Resolved(codec, source.layout, name, rows[..i]) == Some(done)
        invariant |done| == i && (forall row <- done :: StorableRow(row)) && h.fed == Stream(done)
      {
        VerifyStep(codec, source.layout, name, rows, i, done);
        var out := ResolvedRow(codec, source.layout, name, rows[i]);
        if out.None? { return Raise(false); }
        UpdateDigest(h, out.value);
        done := done + [out.value];
        i := i + 1;
        if i % 10000 == 0 {
          s := Risk();
          if !s.Fine? { return; }
        }
      }
      if |rows| != expected.count || h.fed != expected.fed { return Raise(false); }
      assert Matches(done, expected);
      s := Risk();
    }

    /** Look every recorded event up again by its id. */
    method VerifyEvents() returns (s: Signal)
      requires recorded != [] ==> EVENTS in working.tables
      modifies this`tick, this`harmed, this`killed
      ensures s.Fine? ==> forall r <- recorded :: EventMatches(codec, source.layout, working.tables[EVENTS], r)
      ensures Quiet() ==> Orderly(s)
      ensures Quiet() && s.Raise? ==>
        exists r <- recorded :: !EventMatches(codec, source.layout, working.tables[EVENTS], r)
      ensures killed == (old(killed) || s.Kill?) && (s.Fine? ==> harmed == old(harmed))
    {
      hide EventMatches;
      var i := 0;
      while i < |recorded|
        invariant harmed == old(harmed) && killed == old(killed)
        invariant 0 <= i <= |recorded|
        invariant forall j :: 0 <= j < i ==> EventMatches(codec, source.layout, working.tables[EVENTS], recorded[j])
      {
        if !EventMatches(codec, source.layout, working.tables[EVENTS], recorded[i]) { return Raise(false); }
        i := i + 1;
        if i % 50 == 0 {
          s := Risk();
          if !s.Fine? { return; }
        }
      }
      s := Risk();
    }

    /** What copying leaves for verification to check. */
    ghost predicate CopiedAll()
      reads this
    {
      && |digests| == |source.tables|
      && (forall i :: 0 <= i < |source.tables| ==> Matches(source.tables[i].rows, digests[i]))
      && (forall t <- source.tables ::
            t.name in working.tables && forall row <- working.tables[t.name] :: StorableRow(row))
      && recorded == EventRows(source.tables)
    }

    /** Accept the destination exactly when it is faithful, whatever is in it. */
    method Verify() returns (s: Signal)
      requires ValidSource(source) && CopiedAll()
      modifies this`tick, this`harmed, this`killed
      ensures s.Fine? ==> Faithful(source, codec, working)
      ensures Quiet() ==> Orderly(s) && (s.Fine? <==> Faithful(source, codec, working))
      ensures killed == (old(killed) || s.Kill?) && (s.Fine? ==> harmed == old(harmed))
    {
      hide ResolvedRow, StorableRow, Resolved, EventMatches, TableFaithful, ValidTable, Matches;
      if exists name <- source.schema :: name !in working.objects || working.objects[name] != source.schema[name] {
        return Raise(false);
      }
      var i := 0;
      while i < |source.tables|
        invariant harmed == old(harmed) && killed == old(killed)
        invariant 0 <= i <= |source.tables|
        invariant forall j :: 0 <= j < i ==> TableFaithful(source, codec, working, source.tables[j])
      {
        var t := source.tables[i];
        s := VerifyTable(t.name, digests[i]);
        VerifiedFaithful(source, codec, working, t, digests[i]);
        if !s.Fine? { return; }
        i := i + 1;
      }
      if recorded != [] { EventsCopied(source.tables); }
      if Faithful(source, codec, working) { EventsMatch(source, codec, working); }
      s := VerifyEvents();
      if !s.Fine? { return; }
      s := Risk();
    }

    method CopyTables() returns (s: Signal)
      requires ValidSource(source) && Unmarked() && working.tables == map[]
      requires working.status == committed.status == Some(RowBuilding)
      requires digests == [] && recorded == [] && events == 0
      modifies this
      ensures Unmarked() && manifest == old(manifest) && committed.status.Some?
      ensures working.objects == old(working).objects
      ensures s.Fine? ==> CopiedSoFar(|source.tables|) && working.status.Some?
      ensures Quiet() ==> !s.Kill? && (s == Raise(true) <==> Stopped(source, codec, stopAfter))
      ensures Quiet() ==>
        (s.Fine? <==> CopiedBefore(source, codec, |source.tables|) && !Stopped(source, codec, stopAfter))
      ensures killed == (old(killed) || s.Kill?) && (s.Fine? ==> harmed == old(harmed))
    {
      hide Copied, StopsIn, StorableRow, Matches, ValidTable, Stream, EventRows, AllOf, CopiedRow, SoFar;
      var i := 0;
      CopyStarts();
      while i < |source.tables|
        invariant harmed == old(harmed) && killed == old(killed)
        invariant 0 <= i <= |source.tables| && CopiedSoFar(i)
        invariant Unmarked() && working.status.Some? && committed.status.Some? && manifest == old(manifest)
        invariant working.objects == old(working).objects
        invariant events == |recorded|
        invariant CopiedBefore(source, codec, i)
        invariant Quiet() ==> forall j :: 0 <= j < i ==> !StopsIn(source, codec, stopAfter, j)
      {
        var t := source.tables[i];
        ghost var before, had, seen := working, digests, recorded;
        NameUnused(i);
        EventsSoFar(i);
        s := CopyTable(i, t);
        StopsOnlyIn(source, codec, stopAfter, i);
        if !s.Fine? { return; }
        CopyContinues(i, before, had, seen);
        i := i + 1;
      }
      s := Fine;
    }

    /** The first n tables are copied, digested and their events recorded, and no others. */
    ghost predicate CopiedSoFar(n: nat)
      reads this
    {
      n <= |source.tables| && SoFar(source, codec, working, digests, recorded, n)
    }

    lemma CopyStarts()
      requires working.tables == map[] && digests == [] && recorded == []
      ensures CopiedSoFar(0)
    {
    }

    lemma EventsSoFar(n: nat)
      requires CopiedSoFar(n)
      ensures recorded == EventRows(source.tables[..n])
    {
      hide EventRows;
    }

    lemma NameUnused(i: nat)
      requires ValidSource(source) && CopiedSoFar(i) && i < |source.tables|
      ensures source.tables[i].name !in working.tables
    {
      hide ValidTable;
    }

    lemma CopyContinues(i: nat, before: Db, had: seq<Digest>, seen: seq<Row>)
      requires ValidSource(source) && i < |source.tables| && SoFar(source, codec, before, had, seen, i)
      requires var t := source.tables[i];
        && Copied(codec, source.layout, t.name, t.rows).Some?
        && working == WithTable(before, t.name, Copied(codec, source.layout, t.name, t.rows).value)
        && digests == had + [Digest(|t.rows|, Stream(t.rows))]
        && recorded == seen + if t.name == EVENTS then t.rows else []
      ensures CopiedSoFar(i + 1)
    {
      hide *;
      SoFarNext(source, codec, before, working, had, seen, i);
      SoFarIs(i + 1);
    }

    lemma SoFarIs(n: nat)
      requires n <= |source.tables| && SoFar(source, codec, working, digests, recorded, n)
      ensures CopiedSoFar(n)
    {
    }

    /** The schema objects that are tables. */
    function TableObjects(): map<string, string> {
      map n | n in source.schema && exists t <- source.tables :: t.name == n :: source.schema[n]
    }

    /** Tables first, then every row, then the other schema objects. */
    method Copy() returns (s: Signal)
      requires ValidSource(source) && Unmarked() && committed.status.None?
      requires working.tables == map[] == committed.tables && digests == [] && recorded == [] && events == 0
      modifies this
      ensures Unmarked() && manifest == old(manifest) && (committed.status.None? ==> committed.tables == map[])
      ensures s.Fine? ==>
        CopiedAll() && AllCopied(source, codec, working) && working == committed && working.objects == source.schema
      ensures Quiet() ==> !s.Kill? && (s == Raise(true) <==> Stopped(source, codec, stopAfter))
      ensures Quiet() ==>
        (s.Fine? <==> CopiedBefore(source, codec, |source.tables|) && !Stopped(source, codec, stopAfter))
      ensures killed == (old(killed) || s.Kill?) && (s.Fine? ==> harmed == old(harmed))
    {
      hide Copied, Stopped, CopiedBefore, Migrator.TableObjects, StorableRow, Matches, ValidTable, Stream, EventRows,
        AllOf, CopiedRow;
      working := working.(objects := TableObjects());
      s := Commit();
      if !s.Fine? { return; }
      working := working.(status := Some(RowBuilding));
      s := Commit();
      if !s.Fine? { return; }
      s := CopyTables();
      if !s.Fine? { return; }
      assert source.tables[..|source.tables|] == source.tables;
      working := working.(objects := source.schema);
      CopiesStorable(source, codec, working);
      s := Commit();
    }

    /** What holds at every moment, killed or not: the manifest is never ahead of the database, and
        the database never ahead of what was completely copied and verified. */
    ghost predicate Safe()
      reads this
    {
      && (manifest == Verified ==> committed.status == Some(RowVerified))
      && (committed.status == Some(RowVerified) ==>
            Faithful(source, codec, committed) && AllCopied(source, codec, committed))
      && (committed.status.None? ==> committed.tables == map[])
    }

    ghost predicate Blank()
      reads this
    {
      manifest == NoManifest && working == committed == Db(map[], map[], None)
      && digests == [] && recorded == [] && events == 0 && !harmed && !killed
    }

    /** The steps under the handler. */
    method Attempt() returns (s: Signal)
      requires ValidSource(source) && manifest == Building && working == committed == Db(map[], map[], None)
      requires digests == [] && recorded == [] && events == 0
      modifies this
      ensures Safe() && (s.Fine? ==> manifest == Verified)
      ensures committed.status == Some(RowVerified) ==> manifest == CopiedUnverified || manifest == Verified
      ensures Quiet() ==> !s.Kill? && (s == Raise(true) <==> Stopped(source, codec, stopAfter))
      ensures Calm() && Lossless(codec) ==> (s.Fine? <==> MigratableSource(source, codec))
      ensures killed == (old(killed) || s.Kill?) && (s.Fine? ==> harmed == old(harmed))
    {
      hide Copied, Stopped, ValidTable, Faithful, AllCopied, Matches, EventRows, StorableRow, MigratableSource,
        Lossless;
      s := Copy();
      CopyDecides(source, codec);
      if !s.Fine? { return; }
      CopyFaithful(source, codec, working);
      s := Dump(CopiedUnverified);
      if !s.Fine? { return; }
      s := Verify();
      if !s.Fine? { return; }
      StatusAside(source, codec, working);
      working := working.(status := Some(RowVerified));
      s := Commit();
      if !s.Fine? { return; }
      s := Dump(Verified);
      if !s.Fine? { return; }
      s := Risk();
    }

    /** The whole migration. A new destination only; failures under way go to the manifest. */
    method Migrate(occupied: bool, fits: bool) returns (end: Ending)
      requires ValidSource(source) && Blank()
      modifies this
      ensures Safe()
      ensures manifest == Verified ==> AllCopied(source, codec, committed) && Faithful(source, codec, committed)
      ensures occupied || !fits ==> Blank() && end.Raised?
      ensures end.Returned? ==> manifest == Verified
      ensures end.Raised? && end.recorded ==> manifest == if end.interrupt then Interrupted else Failed
      ensures Calm() && !occupied && fits && Lossless(codec) ==>
        if MigratableSource(source, codec) then end == Returned && manifest == Verified
        else end == Raised(false, true) && manifest == Failed
      ensures Quiet() && !occupied && fits && Stopped(source, codec, stopAfter) ==>
        end == Raised(true, true) && manifest == Interrupted
      ensures (end.Killed? <==> killed) && (end.Returned? ==> !harmed)
      ensures end.Killed? && committed.status == Some(RowVerified) ==>
        manifest == CopiedUnverified || manifest == Verified
      ensures end.Raised? && end.recorded ==> working == committed
    {
      hide Stopped, Faithful, AllCopied, MigratableSource, Lossless, ValidTable;
      if occupied || !fits { return Raised(false, false); }
      var s := Dump(Building);
      if s.Kill? { return Killed; }
      if s.Raise? { return Raised(s.interrupt, false); }
      s := Attempt();
      if s.Kill? { return Killed; }
      if s.Fine? { return Returned; }
      working := committed;
      var written := Dump(if s.interrupt then Interrupted else Failed);
      if written.Kill? { return Killed; }
      end := Raised(s.interrupt, written.Fine?);
    }
  }

  lemma CopyDecides(s: Source, c: Codec)
    requires ValidSource(s)
    ensures Lossless(c) && MigratableSource(s, c) ==> CopiedBefore(s, c, |s.tables|)
  {
    hide Copied, Resolved, Migratable, Lossless;
    if Lossless(c) && MigratableSource(s, c) {
      forall t | t in s.tables ensures Copied(c, s.layout, t.name, t.rows).Some? {
        MigratableTable(s, c, t);
      }
    }
  }

  /** A complete copy is faithful exactly when every event is migratable. */
  lemma CopyFaithful(s: Source, c: Codec, db: Db)
    requires ValidSource(s) && AllCopied(s, c, db) && db.objects == s.schema
    ensures Lossless(c) ==> (Faithful(s, c, db) <==> MigratableSource(s, c))
  {
    hide Copied, Resolved, Migratable, Lossless;
    if Lossless(c) {
      forall j | 0 <= j < |s.tables|
        ensures TableFaithful(s, c, db, s.tables[j]) <==>
          (s.tables[j].name == EVENTS ==> forall row <- s.tables[j].rows ::
            s.layout.Fits(row) && Migratable(c, s.layout, row))
      {
        assert TableCopied(s, c, db, s.tables[j]);
        MigratableTable(s, c, s.tables[j]);
      }
    }
  }

  lemma StatusAside(s: Source, c: Codec, db: Db)
    ensures Faithful(s, c, db.(status := Some(RowVerified))) <==> Faithful(s, c, db)
    ensures AllCopied(s, c, db.(status := Some(RowVerified))) <==> AllCopied(s, c, db)
  {
    hide Copied, Resolved;
    forall t ensures TableFaithful(s, c, db.(status := Some(RowVerified)), t) <==> TableFaithful(s, c, db, t) {
    }
  }

  ghost predicate SoFar(s: Source, c: Codec, db: Db, digests: seq<Digest>, recorded: seq<Row>, n: nat)
    requires n <= |s.tables|
  {
    && |digests| == n && (forall j :: 0 <= j < n ==> Matches(s.tables[j].rows, digests[j]))
    && (forall name :: name in db.tables <==> exists j :: 0 <= j < n && s.tables[j].name == name)
    && (forall j :: 0 <= j < n ==> TableCopied(s, c, db, s.tables[j]))
    && recorded == EventRows(s.tables[..n])
  }

  lemma SoFarNext(s: Source, c: Codec, before: Db, after: Db, had: seq<Digest>, seen: seq<Row>, i: nat)
    requires ValidSource(s) && i < |s.tables| && SoFar(s, c, before, had, seen, i)
    requires var t := s.tables[i];
      Copied(c, s.layout, t.name, t.rows).Some?
      && after == WithTable(before, t.name, Copied(c, s.layout, t.name, t.rows).value)
    ensures var t := s.tables[i];
      var more := if t.name == EVENTS then t.rows else [];
      SoFar(s, c, after, had + [Digest(|t.rows|, Stream(t.rows))], seen + more, i + 1)
  {
    hide Copied, StorableRow, Matches, ValidTable, Stream;
    DigestMatches(s, s.tables[i]);
    assert s.tables[..i + 1][..i] == s.tables[..i];
  }

  ghost predicate TableCopied(s: Source, c: Codec, db: Db, t: Table) {
    t.name in db.tables && Copied(c, s.layout, t.name, t.rows) == Some(db.tables[t.name])
  }

  /** Every table holds the copied rows of the source. */
  ghost predicate AllCopied(s: Source, c: Codec, db: Db) {
    forall j :: 0 <= j < |s.tables| ==> TableCopied(s, c, db, s.tables[j])
  }

  lemma DigestMatches(s: Source, t: Table)
    requires ValidTable(s, t)
    ensures (forall row <- t.rows :: StorableRow(row)) && Matches(t.rows, Digest(|t.rows|, Stream(t.rows)))
  {
  }

  lemma CopiesStorable(s: Source, c: Codec, db: Db)
    requires ValidSource(s) && AllCopied(s, c, db)
    ensures forall t <- s.tables :: t.name in db.tables && forall row <- db.tables[t.name] :: StorableRow(row)
  {
    hide CopiedRow, StorableRow, AllOf;
    forall t | t in s.tables ensures t.name in db.tables && forall row <- db.tables[t.name] :: StorableRow(row) {
      var j :| 0 <= j < |s.tables| && s.tables[j] == t;
      DigestMatches(s, s.tables[j]);
      forall row | row in db.tables[t.name] ensures StorableRow(row) {
        var i :| 0 <= i < |db.tables[t.name]| && db.tables[t.name][i] == row;
        assert t.rows[i] in t.rows;
        CopiedStorable(c, s.layout, t.name, t.rows[i]);
      }
    }
  }

  /** The event rows, as recorded while copying. */
  function EventRows(tables: seq<Table>): seq<Row> {
    if tables == [] then []
    else
      var t := tables[|tables| - 1];
      EventRows(tables[..|tables| - 1]) + if t.name == EVENTS then t.rows else []
  }

  lemma {:induction false} EventsCopied(tables: seq<Table>)
    requires EventRows(tables) != []
    ensures exists t <- tables :: t.name == EVENTS
  {
    var n := |tables| - 1;
    if tables[n].name != EVENTS {
      EventsCopied(tables[..n]);
      var t :| t in tables[..n] && t.name == EVENTS;
      assert t in tables;
    } else {
      assert tables[n] in tables;
    }
  }

  function FindById(rows: seq<Row>, column: nat, id: Value): (r: Option<Row>)
    ensures r.Some? ==> r.value in rows && column < |r.value| && r.value[column] == id
    ensures r.None? ==> forall row <- rows :: column >= |row| || row[column] != id
  {
    if rows == [] then None
    else if column < |rows[0]| && rows[0][column] == id then Some(rows[0])
    else FindById(rows[1..], column, id)
  }

  /** The event with that id is still there, has the same identity and the same detail. */
  predicate EventMatches(c: Codec, l: Layout, rows: seq<Row>, r: Row) {
    l.id < |r| && l.detail < |r|
    && var found := FindById(rows, l.id, r[l.id]);
      && found.Some? && l.detail < |found.value|
      && found.value[l.detail := Null] == r[l.detail := Null]
      && ResolvedRow(c, l, EVENTS, found.value) == Some(r)
  }

  /** The row is the event in every column but the detail, and in that once it is resolved. */
  predicate Restores(c: Codec, l: Layout, row: Row, r: Row) {
    && |row| == |r| && l.id < |r| && l.detail < |r| && row[l.id] == r[l.id]
    && (forall i :: 0 <= i < |r| && i != l.detail ==> row[i] == r[i])
    && if row[l.detail].Text? then
         var resolved := c.resolve(row[l.detail].utf8);
         resolved.Some? && r[l.detail] == Text(resolved.value)
       else row[l.detail] == r[l.detail]
  }

  /** A match is found in a row that restores the event. */
  lemma MatchIs(c: Codec, l: Layout, rows: seq<Row>, r: Row)
    requires EventMatches(c, l, rows, r)
    ensures exists row: Row :: row in rows && Restores(c, l, row, r)
  {
    var row := FindById(rows, l.id, r[l.id]).value;
    assert ResolvedRow(c, l, EVENTS, row) == Some(r);
    var was, now := row[l.detail := Null], r[l.detail := Null];
    forall i | 0 <= i < |r| && i != l.detail ensures row[i] == r[i] {
      assert was[i] == now[i];
    }
  }

  /** In a faithful destination every event is found again: ids are distinct, and copying leaves
      everything but the detail alone. */
  lemma EventsMatch(s: Source, c: Codec, db: Db)
    requires ValidSource(s) && Faithful(s, c, db)
    ensures forall r <- EventRows(s.tables) :: EVENTS in db.tables && EventMatches(c, s.layout, db.tables[EVENTS], r)
  {
    hide EventMatches;
    forall r | r in EventRows(s.tables) ensures EVENTS in db.tables && EventMatches(c, s.layout, db.tables[EVENTS], r) {
      EventOrigin(s.tables, r);
      var t :| t in s.tables && t.name == EVENTS && r in t.rows;
      var i :| 0 <= i < |s.tables| && s.tables[i] == t;
      assert TableFaithful(s, c, db, s.tables[i]);
      var k :| 0 <= k < |t.rows| && t.rows[k] == r;
      EventFound(s, c, t, db.tables[EVENTS], k);
    }
  }

  lemma {:induction false} EventOrigin(tables: seq<Table>, r: Row)
    requires r in EventRows(tables)
    ensures exists t <- tables :: t.name == EVENTS && r in t.rows
  {
    var n := |tables| - 1;
    if tables[n].name == EVENTS && r in tables[n].rows {
      assert tables[n] in tables;
    } else {
      EventOrigin(tables[..n], r);
      var t :| t in tables[..n] && t.name == EVENTS && r in t.rows;
      assert t in tables;
    }
  }

  lemma ResolvedIdentity(c: Codec, l: Layout, row: Row)
    requires l.id != l.detail && ResolvedRow(c, l, EVENTS, row).Some?
    ensures var r := ResolvedRow(c, l, EVENTS, row).value;
      && |r| == |row| && l.detail < |row| && r[l.detail := Null] == row[l.detail := Null]
      && (l.id < |r| ==> r[l.id] == row[l.id])
  {
  }

  lemma EventFound(s: Source, c: Codec, t: Table, rows: seq<Row>, k: nat)
    requires ValidTable(s, t) && t.name == EVENTS && k < |t.rows| && s.layout.id != s.layout.detail
    requires Resolved(c, s.layout, EVENTS, rows) == Some(t.rows)
    ensures EventMatches(c, s.layout, rows, t.rows[k])
  {
    var l, r := s.layout, t.rows[k];
    hide ResolvedRow;
    forall i | 0 <= i < |rows|
      ensures ResolvedRow(c, l, EVENTS, rows[i]) == Some(t.rows[i])
      ensures l.id < |rows[i]| && rows[i][l.id] == t.rows[i][l.id]
    {
      ResolvedIdentity(c, l, rows[i]);
      assert t.rows[i] in t.rows;
    }
    assert rows[k] in rows;
    var found := FindById(rows, l.id, r[l.id]);
    var i :| 0 <= i < |rows| && rows[i] == found.value;
    assert i == k;
    ResolvedIdentity(c, l, rows[k]);
  }

  lemma VerifiedFaithful(s: Source, c: Codec, db: Db, t: Table, d: Digest)
    requires Matches(t.rows, d) && t.name in db.tables
    ensures TableFaithful(s, c, db, t) <==>
      exists rows :: Matches(rows, d) && Resolved(c, s.layout, t.name, db.tables[t.name]) == Some(rows)
  {
    hide Resolved, Stream, StorableRow;
    forall rows | Matches(rows, d) ensures rows == t.rows {
      StreamInjective(rows, t.rows);
    }
  }

  /** The rows have the count and the stream of the digest. */
  ghost predicate Matches(rows: seq<Row>, d: Digest) {
    (forall row <- rows :: StorableRow(row)) && d == Digest(|rows|, Stream(rows))
  }

  lemma VerifyEnds(c: Codec, l: Layout, name: string, rows: seq<Row>)
    ensures Resolved(c, l, name, rows[..0]) == Some([]) && Stream([]) == [] && rows[..|rows|] == rows
  {
  }

  lemma VerifyStep(c: Codec, l: Layout, name: string, rows: seq<Row>, i: nat, done: seq<Row>)
    requires i < |rows| && (forall row <- rows :: StorableRow(row)) && (forall row <- done :: StorableRow(row))
    requires Resolved(c, l, name, rows[..i]) == Some(done)
    ensures var out := ResolvedRow(c, l, name, rows[i]);
      if out.Some? then
        && Resolved(c, l, name, rows[..i + 1]) == Some(done + [out.value]) && StorableRow(out.value)
        && Stream(done + [out.value]) == Stream(done) + EncodeRow(out.value)
      else Resolved(c, l, name, rows).None?
  {
    hide ResolvedRow, StorableRow, Stream, EncodeRow;
    assert rows[i] in rows;
    AllOfMore(row => ResolvedRow(c, l, name, row), rows, i, done);
    if ResolvedRow(c, l, name, rows[i]).Some? {
      ResolvedStorable(c, l, name, rows[i]);
      StreamMore(done, ResolvedRow(c, l, name, rows[i]).value);
    }
  }

  lemma Overwrite(db: Db, name: string, a: seq<Row>, b: seq<Row>)
    ensures WithTable(WithTable(db, name, a), name, b) == WithTable(db, name, b)
    ensures WithTable(db, name, b).status == db.status && WithTable(db, name, b).objects == db.objects
    ensures WithTable(db, name, a).status == db.status && WithTable(db, name, a).objects == db.objects
  {
  }

  lemma Storables(s: Source, t: Table)
    requires ValidTable(s, t)
    ensures forall row <- t.rows :: StorableRow(row)
  {
  }

  lemma CopyEnds(c: Codec, l: Layout, t: Table)
    requires forall row <- t.rows :: StorableRow(row)
    ensures Copied(c, l, t.name, t.rows[..0]) == Some([]) && Stream(t.rows[..0]) == [] && t.rows[..0] == []
    ensures t.rows[..|t.rows|] == t.rows
  {
  }

  lemma CopyStep(c: Codec, l: Layout, t: Table, i: nat, done: seq<Row>)
    requires i < |t.rows| && (forall row <- t.rows :: StorableRow(row))
    requires Copied(c, l, t.name, t.rows[..i]) == Some(done)
    ensures StorableRow(t.rows[i]) && Stream(t.rows[..i + 1]) == Stream(t.rows[..i]) + EncodeRow(t.rows[i])
    ensures t.rows[..i + 1] == t.rows[..i] + [t.rows[i]]
    ensures var out := CopiedRow(c, l, t.name, t.rows[i]);
      if out.Some? then Copied(c, l, t.name, t.rows[..i + 1]) == Some(done + [out.value])
      else Copied(c, l, t.name, t.rows).None?
  {
    hide CopiedRow, StorableRow, Stream, EncodeRow;
    assert t.rows[..i + 1] == t.rows[..i] + [t.rows[i]];
    assert t.rows[i] in t.rows;
    StreamMore(t.rows[..i], t.rows[i]);
    AllOfMore(row => CopiedRow(c, l, t.name, row), t.rows, i, done);
  }
}
