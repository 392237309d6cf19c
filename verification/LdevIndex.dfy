/** The two-way index between Hitachi LDEV numbers and volume rows of one array. */
module LdevIndex {
  import opened Model

  /** A volume row in creation order, with the LDEV number in its vendor metadata. */
  datatype Row = Row(id: Id, ldev: Option<int>)

  /** `_ldev_to_vol` and `_vol_to_ldev`. */
  datatype Maps = Maps(vol: map<int, Id>, ldev: map<Id, int>)

  const NO_MAPS := Maps(map[], map[])

  function Max(a: int, b: int): int { if a < b then b else a }

  // ---- Rebuilding from the rows -------------------------------------------------------------

  /** The counter after `rows`, and the number the next row gets. */
  function Next(rows: seq<Row>): int
    decreases |rows|, 0
  {
    if rows == [] then 0 else Max(Next(rows[..|rows| - 1]), NumberOf(rows[..|rows| - 1], rows[|rows| - 1])) + 1
  }

  function NumberOf(before: seq<Row>, row: Row): int
    decreases |before|, 1
  {
    if row.ldev.Some? then row.ldev.value else Next(before)
  }

  function Registered(m: Maps, ldev: int, volume: Id): Maps {
    Maps(m.vol[ldev := volume], m.ldev[volume := ldev])
  }

  function Unregistered(m: Maps, volume: Id): Maps {
    if volume !in m.ldev then m else Maps(m.vol - {m.ldev[volume]}, m.ldev - {volume})
  }

  /** The maps a rebuild leaves; a later row takes over a number. */
  function MapsOf(rows: seq<Row>): Maps {
    if rows == [] then NO_MAPS
    else
      var k := |rows| - 1;
      Registered(MapsOf(rows[..k]), NumberOf(rows[..k], rows[k]), rows[k].id)
  }

  /** The rows a rebuild leaves: every row carries its number. */
  function Persisted(rows: seq<Row>): (r: seq<Row>)
    ensures |r| == |rows|
  {
    if rows == [] then []
    else
      var k := |rows| - 1;
      Persisted(rows[..k]) + [Row(rows[k].id, Some(NumberOf(rows[..k], rows[k])))]
  }

  /** From any rows, a second rebuild finds the numbers of the first: same rows, same maps. */
  lemma {:induction false} RebuildTwice(rows: seq<Row>)
    ensures Persisted(Persisted(rows)) == Persisted(rows)
    ensures MapsOf(Persisted(rows)) == MapsOf(rows)
    ensures Next(Persisted(rows)) == Next(rows)
    decreases |rows|
  {
    if rows != [] {
      var k := |rows| - 1;
      RebuildTwice(rows[..k]);
      assert Persisted(rows)[..k] == Persisted(rows[..k]);
    }
  }

  // ---- When the maps are inverse to each other ------------------------------------------------

  ghost predicate Inverse(m: Maps) {
    && (forall n :: n in m.vol ==> m.vol[n] in m.ldev && m.ldev[m.vol[n]] == n)
    && (forall v :: v in m.ldev ==> m.ldev[v] in m.vol && m.vol[m.ldev[v]] == v)
  }

  ghost predicate DistinctRows(rows: seq<Row>) {
    forall i, j :: 0 <= i < j < |rows| ==> rows[i].id != rows[j].id
  }

  function Number(rows: seq<Row>, i: nat): int
    requires i < |rows|
  {
    NumberOf(rows[..i], rows[i])
  }

  /** No stored number repeats the number an older row has, or gets. */
  ghost predicate NoStoredClash(rows: seq<Row>) {
    forall i, j :: 0 <= i < j < |rows| && rows[j].ldev.Some? ==> Number(rows, i) != rows[j].ldev.value
  }

  lemma {:induction false} NextAbove(rows: seq<Row>, i: nat)
    requires i < |rows|
    ensures Number(rows, i) < Next(rows)
    decreases |rows|
  {
    var k := |rows| - 1;
    if i < k {
      NextAbove(rows[..k], i);
      assert rows[..k][..i] == rows[..i];
    }
  }

  /** Numbers differ exactly when no stored number clashes: a counter never repeats a number. */
  lemma NumbersDiffer(rows: seq<Row>)
    ensures NoStoredClash(rows) <==> forall i, j :: 0 <= i < j < |rows| ==> Number(rows, i) != Number(rows, j)
  {
    if NoStoredClash(rows) {
      forall i, j | 0 <= i < j < |rows|
        ensures Number(rows, i) != Number(rows, j)
      {
        if rows[j].ldev.None? {
          NextAbove(rows[..j], i);
          assert rows[..j][..i] == rows[..i];
        }
      }
    }
    assert forall j :: 0 <= j < |rows| && rows[j].ldev.Some? ==> Number(rows, j) == rows[j].ldev.value;
  }

  lemma NumberPrefix(rows: seq<Row>, k: nat, i: nat)
    requires i < k <= |rows|
    ensures Number(rows[..k], i) == Number(rows, i)
  {
    assert rows[..k][..i] == rows[..i];
  }

  /** The counter has passed `c` after `n` rows: at least one per row, and beyond every number so far. */
  ghost predicate Passed(numbers: seq<int>, n: nat, c: int)
    requires n <= |numbers|
  {
    && c >= n && (forall j :: 0 <= j < n ==> c >= numbers[j] + n - j)
    && (c == n || exists j :: 0 <= j < n && c == numbers[j] + n - j)
  }

  function Stored(rows: seq<Row>): (r: seq<int>)
    ensures |r| == |rows|
    ensures forall i :: 0 <= i < |rows| ==> r[i] == Number(rows, i)
  {
    seq(|rows|, i requires 0 <= i < |rows| => Number(rows, i))
  }

  lemma {:induction false} NextPassed(rows: seq<Row>, n: nat)
    requires n <= |rows|
    ensures Passed(Stored(rows), n, Next(rows[..n]))
    decreases n
  {
    if n > 0 {
      var k := n - 1;
      var numbers, before := Stored(rows), Next(rows[..k]);
      NextPassed(rows, k);
      assert rows[..n][..k] == rows[..k];
      var c := Next(rows[..n]);
      assert c == Max(before, numbers[k]) + 1;
      if c == numbers[k] + 1 {
        assert c == numbers[k] + n - k;
      } else if before != k {
        var j :| 0 <= j < k && before == numbers[j] + k - j;
        assert c == numbers[j] + n - j;
      }
    }
  }

  /** A rebuild keeps every stored number and every id; a row without one gets a number beyond all older
      ones, counting up by at least one for each older row. */
  lemma {:induction false} RebuildNumbers(rows: seq<Row>, i: nat)
    requires i < |rows|
    ensures var stored := Persisted(rows);
      && stored[i].id == rows[i].id && stored[i].ldev.Some? && stored[i].ldev.value == Number(rows, i)
      && (rows[i].ldev.Some? ==> stored[i].ldev == rows[i].ldev)
      && (rows[i].ldev.None? ==> Passed(Stored(rows), i, stored[i].ldev.value))
    decreases |rows|
  {
    var k := |rows| - 1;
    if i < k {
      RebuildNumbers(rows[..k], i);
      NumberPrefix(rows, k, i);
    }
    if rows[i].ldev.None? {
      NextPassed(rows, i);
    }
  }

  /** Each row is under its number. */
  lemma {:induction false} RowIndexed(rows: seq<Row>, i: nat)
    requires DistinctRows(rows) && i < |rows|
    ensures var m := MapsOf(rows);
      rows[i].id in m.ldev && m.ldev[rows[i].id] == Number(rows, i)
      && Number(rows, i) in m.vol
    decreases |rows|
  {
    var k := |rows| - 1;
    if i < k {
      RowIndexed(rows[..k], i);
      NumberPrefix(rows, k, i);
      hide NumberOf, Number;
    }
  }

  lemma {:induction false} IndexedRow(rows: seq<Row>, v: Id) returns (i: nat)
    requires v in MapsOf(rows).ldev
    ensures i < |rows| && rows[i].id == v
    decreases |rows|
  {
    var k := |rows| - 1;
    if v == rows[k].id { return k; }
    i := IndexedRow(rows[..k], v);
  }

  /** `rows[i]` is the newest row with number `n`. */
  ghost predicate Newest(rows: seq<Row>, n: int, i: int) {
    0 <= i < |rows| && Number(rows, i) == n && forall j :: i < j < |rows| ==> Number(rows, j) != n
  }

  /** Under each number is the newest row that has it. */
  lemma {:induction false} NewestIndexed(rows: seq<Row>, n: int) returns (i: nat)
    requires n in MapsOf(rows).vol
    ensures Newest(rows, n, i) && MapsOf(rows).vol[n] == rows[i].id
    decreases |rows|
  {
    var k := |rows| - 1;
    if n == Number(rows, k) { return k; }
    i := NewestIndexed(rows[..k], n);
    NumberPrefix(rows, k, i);
    forall j | i < j < k
      ensures Number(rows, j) != n
    {
      NumberPrefix(rows, k, j);
    }
  }

  /** A rebuild leaves maps inverse to each other if and only if no stored number repeats the
      number of an older row. */
  lemma RebuildInverseIff(rows: seq<Row>)
    requires DistinctRows(rows)
    ensures Inverse(MapsOf(rows)) <==> NoStoredClash(rows)
  {
    NumbersDiffer(rows);
    var m := MapsOf(rows);
    hide MapsOf, NoStoredClash, Number;
    if Inverse(m) {
      forall i, j | 0 <= i < j < |rows|
        ensures Number(rows, i) != Number(rows, j)
      {
        RowIndexed(rows, i);
        RowIndexed(rows, j);
      }
    }
    if forall i, j :: 0 <= i < j < |rows| ==> Number(rows, i) != Number(rows, j) {
      forall n | n in m.vol
        ensures m.vol[n] in m.ldev && m.ldev[m.vol[n]] == n
      {
        var i := NewestIndexed(rows, n);
        RowIndexed(rows, i);
      }
      forall v | v in m.ldev
        ensures m.ldev[v] in m.vol && m.vol[m.ldev[v]] == v
      {
        var i := IndexedRow(rows, v);
        RowIndexed(rows, i);
        var j := NewestIndexed(rows, m.ldev[v]);
        assert Number(rows, i) == Number(rows, j);
      }
    }
  }

  /** It suffices that the stored numbers are distinct and the rows without one are the newest. */
  lemma NewestUnnumbered(rows: seq<Row>, k: nat)
    requires k <= |rows|
    requires forall i :: 0 <= i < |rows| ==> (rows[i].ldev.Some? <==> i < k)
    requires forall i, j :: 0 <= i < j < k ==> rows[i].ldev != rows[j].ldev
    ensures NoStoredClash(rows)
  {
  }

  /** A row without a number before a stored 0: both get 0, and the maps lose the older row. */
  lemma UnnumberedBeforeZero(a: Id, b: Id)
    requires a != b
    ensures var m := MapsOf([Row(a, None), Row(b, Some(0))]);
      !Inverse(m) && m.ldev == map[a := 0, b := 0] && m.vol == map[0 := b]
  {
    var rows := [Row(a, None), Row(b, Some(0))];
    MapsAppend([], Row(a, None));
    MapsAppend([Row(a, None)], Row(b, Some(0)));
    assert a in MapsOf(rows).ldev;
    assert [] + [Row(a, None)] == [Row(a, None)] && [Row(a, None)] + [Row(b, Some(0))] == rows;
  }

  // ---- The routes: the index is kept up to date step by step ------------------------------------

  predicate IsMax(x: int, s: set<int>) { x in s && forall y :: y in s ==> y <= x }

  lemma Pick<T>(s: set<T>) returns (x: T)
    requires s != {}
    ensures x in s
  {
    x :| x in s;
  }

  lemma {:induction false} HasMax(s: set<int>)
    requires s != {}
    ensures exists m :: IsMax(m, s)
  {
    var x := Pick(s);
    if s == {x} {
      assert IsMax(x, s);
    } else {
      var rest := s - {x};
      HasMax(rest);
      var m :| IsMax(m, rest);
      assert forall y :: y in s ==> y == x || y in rest;
      assert IsMax(Max(m, x), s);
    }
  }

  function NextLdev(m: Maps): (n: int)
    ensures n !in m.vol
    ensures if m.vol == map[] then n == 0 else IsMax(n - 1, m.vol.Keys)
  {
    if m.vol == map[] then 0
    else
      assert |m.vol| != 0 && |m.vol.Keys| != 0;
      HasMax(m.vol.Keys);
      MaxUnique(m.vol.Keys);
      var x :| IsMax(x, m.vol.Keys);
      x + 1
  }

  lemma MaxUnique(s: set<int>)
    ensures forall x, y :: IsMax(x, s) && IsMax(y, s) ==> x == y
  {
  }

  /** The rows of the array and the in-memory maps. */
  datatype State = State(rows: seq<Row>, maps: Maps)

  function Without(rows: seq<Row>, id: Id): seq<Row> {
    if rows == [] then []
    else
      var k := |rows| - 1;
      if rows[k].id == id then Without(rows[..k], id) else Without(rows[..k], id) + [rows[k]]
  }

  /** `made` is the new row when the volume service creates one, `ok` says whether it deletes the row,
      or whether the query of a refresh succeeds.  A failed creation or deletion leaves rows and maps
      alone; a failed refresh has cleared the maps already. */
  datatype Step = Create(number: Option<int>, made: Option<Id>) | Delete(ldev: int, ok: bool) | Refresh(ok: bool)

  function Chosen(s: State, number: Option<int>): int {
    if number.Some? then number.value else NextLdev(s.maps)
  }

  function Stepped(s: State, step: Step): State {
    match step
    case Create(number, made) =>
      if made.None? then s
      else State(s.rows + [Row(made.value, Some(Chosen(s, number)))], Registered(s.maps, Chosen(s, number), made.value))
    case Delete(ldev, ok) =>
      if ldev !in s.maps.vol || !ok then s
      else s.(rows := Without(s.rows, s.maps.vol[ldev]), maps := Unregistered(s.maps, s.maps.vol[ldev]))
    case Refresh(ok) => if ok then s.(rows := Persisted(s.rows), maps := MapsOf(s.rows)) else s.(maps := NO_MAPS)
  }

  function Ran(s: State, steps: seq<Step>): State {
    if steps == [] then s else Stepped(Ran(s, steps[..|steps| - 1]), steps[|steps| - 1])
  }

  ghost predicate NewRow(rows: seq<Row>, id: Id) { forall i :: 0 <= i < |rows| ==> rows[i].id != id }

  /** A created row is new, an explicit number is one no LDEV has, and a refresh gets its rows. */
  ghost predicate Regular(s: State, step: Step) {
    && (step.Create? && step.made.Some? ==> NewRow(s.rows, step.made.value))
    && (step.Create? && step.number.Some? ==> step.number.value !in s.maps.vol)
    && (step.Refresh? ==> step.ok)
  }

  ghost predicate RegularRun(s: State, steps: seq<Step>) {
    forall k :: 0 <= k < |steps| ==> Regular(Ran(s, steps[..k]), steps[k])
  }

  /** Every row is numbered, the numbers differ, and the maps are what a rebuild would leave. */
  ghost predicate Agrees(s: State) {
    && (forall i :: 0 <= i < |s.rows| ==> s.rows[i].ldev.Some?)
    && DistinctRows(s.rows) && NoStoredClash(s.rows)
    && s.maps == MapsOf(s.rows)
  }

  lemma {:induction false} PersistedSame(rows: seq<Row>)
    requires forall i :: 0 <= i < |rows| ==> rows[i].ldev.Some?
    ensures Persisted(rows) == rows
    decreases |rows|
  {
    if rows != [] {
      PersistedSame(rows[..|rows| - 1]);
    }
  }

  lemma CreateAgrees(s: State, n: int, id: Id)
    requires Agrees(s) && n !in s.maps.vol && NewRow(s.rows, id)
    ensures Agrees(State(s.rows + [Row(id, Some(n))], Registered(s.maps, n, id)))
  {
    var rows := s.rows + [Row(id, Some(n))];
    var k := |s.rows|;
    assert rows[..k] == s.rows;
    MapsAppend(s.rows, Row(id, Some(n)));
    hide MapsOf, Number;
    forall i, j | 0 <= i < j < |rows| && rows[j].ldev.Some?
      ensures Number(rows, i) != rows[j].ldev.value
    {
      NumberPrefix(rows, k, i);
      RowIndexed(s.rows, i);
    }
  }

  /** One creation keeps the agreement if and only if no LDEV has its number yet. */
  lemma CreateAgreesIff(s: State, number: Option<int>, id: Id)
    requires Agrees(s) && NewRow(s.rows, id)
    ensures Agrees(Stepped(s, Create(number, Some(id)))) <==> Chosen(s, number) !in s.maps.vol
  {
    var n := Chosen(s, number);
    var rows := s.rows + [Row(id, Some(n))];
    if n in s.maps.vol {
      var i := NewestIndexed(s.rows, n);
      assert rows[..|s.rows|] == s.rows;
      NumberPrefix(rows, |s.rows|, i);
    } else {
      CreateAgrees(s, n, id);
    }
  }

  /** A requested number is the number of the new volume, stored in its row and entered in both maps;
      every other entry and row stays. */
  lemma RequestedNumber(s: State, n: int, id: Id)
    ensures var t := Stepped(s, Create(Some(n), Some(id)));
      && t.rows == s.rows + [Row(id, Some(n))]
      && t.maps == Maps(s.maps.vol[n := id], s.maps.ldev[id := n])
  {
  }

  /** Without a request the number is 0 on an empty index, and one above the largest otherwise. */
  lemma AutomaticNumber(s: State, id: Id) returns (n: int)
    ensures if s.maps.vol == map[] then n == 0 else n - 1 in s.maps.vol && forall k :: k in s.maps.vol ==> k < n
    ensures Stepped(s, Create(None, Some(id))) == Stepped(s, Create(Some(n), Some(id)))
  {
    n := NextLdev(s.maps);
  }

  /** A served deletion removes exactly the volume's row and its two entries. */
  lemma DeletedNumber(s: State, n: int)
    requires Agrees(s) && n in s.maps.vol
    ensures var t, id := Stepped(s, Delete(n, true)), s.maps.vol[n];
      && t.maps == Maps(s.maps.vol - {n}, s.maps.ldev - {id})
      && (forall r :: r in t.rows <==> r in s.rows && r.id != id) && |t.rows| == |s.rows| - 1
  {
    var id := s.maps.vol[n];
    AgreesInverse(s);
    WithoutRows(s.rows, id);
    var i := NewestIndexed(s.rows, n);
    hide Agrees;
    WithoutOne(s.rows, i);
  }

  lemma {:induction false} WithoutOne(rows: seq<Row>, i: nat)
    requires DistinctRows(rows) && i < |rows|
    ensures Without(rows, rows[i].id) == rows[..i] + rows[i + 1..]
    decreases |rows|
  {
    var k := |rows| - 1;
    if i < k {
      WithoutOne(rows[..k], i);
      assert rows[i + 1..] == rows[i + 1..k] + [rows[k]];
    } else {
      WithoutNone(rows[..k], rows[k].id);
    }
  }

  lemma {:induction false} WithoutNone(rows: seq<Row>, id: Id)
    requires forall i :: 0 <= i < |rows| ==> rows[i].id != id
    ensures Without(rows, id) == rows
    decreases |rows|
  {
    if rows != [] {
      WithoutNone(rows[..|rows| - 1], id);
    }
  }

  lemma MapsAppend(rows: seq<Row>, row: Row)
    ensures MapsOf(rows + [row]) == Registered(MapsOf(rows), NumberOf(rows, row), row.id)
  {
  }

  lemma StoredRow(rows: seq<Row>, row: Row)
    requires row.ldev.Some?
    ensures MapsOf(rows + [row]) == Registered(MapsOf(rows), row.ldev.value, row.id)
  {
  }

  lemma {:induction false} WithoutRows(rows: seq<Row>, id: Id)
    requires DistinctRows(rows)
    ensures forall r :: r in Without(rows, id) <==> r in rows && r.id != id
    ensures DistinctRows(Without(rows, id))
    decreases |rows|
  {
    if rows != [] {
      var k := |rows| - 1;
      var kept := Without(rows[..k], id);
      WithoutRows(rows[..k], id);
      assert rows == rows[..k] + [rows[k]];
      forall r | r in kept
        ensures r.id != rows[k].id
      {
        assert r in rows[..k];
        var i :| 0 <= i < k && rows[i] == r;
      }
      hide Without;
      DistinctAppend(kept, rows[k]);
    }
  }

  lemma DistinctAppend(rows: seq<Row>, row: Row)
    requires DistinctRows(rows) && forall r :: r in rows ==> r.id != row.id
    ensures DistinctRows(rows + [row])
  {
  }

  /** Deleting a row from numbered rows: the maps follow, and no number clashes. */
  lemma {:induction false} DeleteAgrees(rows: seq<Row>, id: Id)
    requires forall i :: 0 <= i < |rows| ==> rows[i].ldev.Some?
    requires DistinctRows(rows) && NoStoredClash(rows)
    ensures MapsOf(Without(rows, id)) == Unregistered(MapsOf(rows), id)
    ensures NoStoredClash(Without(rows, id))
    decreases |rows|
  {
    if rows != [] {
      var k := |rows| - 1;
      StoredPrefix(rows);
      assert DistinctRows(rows[..k]);
      WithoutRows(rows[..k], id);
      DeleteAgrees(rows[..k], id);
      hide MapsOf, Registered, Unregistered, NoStoredClash, NumberOf, DistinctRows;
      RowGone(rows, id);
      StoredRow(rows[..k], rows[k]);
      assert rows == rows[..k] + [rows[k]];
      if rows[k].id != id {
        StoredRow(Without(rows[..k], id), rows[k]);
        StoredAppend(Without(rows[..k], id), rows[k], rows);
      }
    }
  }

  /** With all numbers stored, no clash means the numbers are pairwise different. */
  ghost predicate StoredDistinct(rows: seq<Row>) {
    forall i, j :: 0 <= i < j < |rows| ==> rows[i].ldev != rows[j].ldev
  }

  lemma StoredClash(rows: seq<Row>)
    requires forall i :: 0 <= i < |rows| ==> rows[i].ldev.Some?
    ensures NoStoredClash(rows) <==> StoredDistinct(rows)
  {
    assert forall i :: 0 <= i < |rows| ==> Number(rows, i) == rows[i].ldev.value;
    hide Number;
  }

  lemma StoredPrefix(rows: seq<Row>)
    requires rows != [] && forall i :: 0 <= i < |rows| ==> rows[i].ldev.Some?
    requires NoStoredClash(rows)
    ensures NoStoredClash(rows[..|rows| - 1])
  {
    StoredClash(rows);
    StoredClash(rows[..|rows| - 1]);
  }

  lemma StoredAppend(kept: seq<Row>, row: Row, rows: seq<Row>)
    requires rows != [] && rows[|rows| - 1] == row && forall i :: 0 <= i < |rows| ==> rows[i].ldev.Some?
    requires NoStoredClash(rows) && NoStoredClash(kept) && forall r :: r in kept ==> r in rows[..|rows| - 1]
    ensures NoStoredClash(kept + [row])
  {
    forall i | 0 <= i < |kept|
      ensures kept[i].ldev.Some? && kept[i].ldev != row.ldev
    {
      assert kept[i] in kept;
      StoredClash(rows);
    }
    StoredClash(kept);
    StoredClash(kept + [row]);
  }

  /** Dropping a row from the maps of all rows, seen from its last row. */
  lemma RowGone(rows: seq<Row>, id: Id)
    requires rows != [] && forall i :: 0 <= i < |rows| ==> rows[i].ldev.Some?
    requires DistinctRows(rows) && NoStoredClash(rows)
    ensures var k := |rows| - 1;
      var before, n := MapsOf(rows[..k]), rows[k].ldev.value;
      && (rows[k].id == id ==> Unregistered(Registered(before, n, id), id) == before
                               && Unregistered(before, id) == before)
      && (rows[k].id != id ==>
            Unregistered(Registered(before, n, rows[k].id), id) == Registered(Unregistered(before, id), n, rows[k].id))
  {
    var k := |rows| - 1;
    var before, n, v := MapsOf(rows[..k]), rows[k].ldev.value, rows[k].id;
    StoredPrefix(rows);
    RebuildInverseIff(rows[..k]);
    StoredClash(rows);
    hide MapsOf, NoStoredClash, Inverse;
    if n in before.vol {
      var i := NewestIndexed(rows[..k], n);
    }
    if v in before.ldev {
      var i := IndexedRow(rows[..k], v);
    }
    hide StoredDistinct, DistinctRows;
    RegisterCommutes(before, n, v, id);
  }

  lemma RegisterCommutes(m: Maps, n: int, v: Id, id: Id)
    requires Inverse(m) && n !in m.vol && v !in m.ldev
    ensures Unregistered(Registered(m, n, v), v) == m && Unregistered(m, v) == m
    ensures v != id ==> Unregistered(Registered(m, n, v), id) == Registered(Unregistered(m, id), n, v)
  {
  }

  lemma StepAgrees(s: State, step: Step)
    requires Agrees(s) && Regular(s, step)
    ensures Agrees(Stepped(s, step))
  {
    match step
    case Create(number, made) => if made.Some? { CreateAgrees(s, Chosen(s, number), made.value); }
    case Delete(ldev, ok) =>
      if ldev in s.maps.vol && ok {
        DeleteAgrees(s.rows, s.maps.vol[ldev]);
        WithoutRows(s.rows, s.maps.vol[ldev]);
        var rows := Without(s.rows, s.maps.vol[ldev]);
        forall i | 0 <= i < |rows|
          ensures rows[i].ldev.Some?
        {
          assert rows[i] in s.rows;
        }
      }
    case Refresh(_) =>
      PersistedSame(s.rows);
  }

  /** Over any sequence of creations (numbered automatically or with an unused number), deletions
      and refreshes, failing or not: the maps stay inverse to each other, equal what a rebuild from
      the rows computes, and a refresh changes nothing. */
  lemma {:induction false} IndexEqualsRebuild(s: State, steps: seq<Step>)
    requires Agrees(s) && RegularRun(s, steps)
    ensures Agrees(Ran(s, steps)) && Inverse(Ran(s, steps).maps)
    ensures Stepped(Ran(s, steps), Refresh(true)) == Ran(s, steps)
    decreases |steps|
  {
    if steps != [] {
      var k := |steps| - 1;
      assert forall j :: 0 <= j < k ==> steps[..k][..j] == steps[..j];
      IndexEqualsRebuild(s, steps[..k]);
      hide Stepped, Agrees, Inverse, Regular;
      StepAgrees(Ran(s, steps[..k]), steps[k]);
    }
    AgreesInverse(Ran(s, steps));
  }

  lemma AgreesInverse(s: State)
    requires Agrees(s)
    ensures Inverse(s.maps) && Stepped(s, Refresh(true)) == s
  {
    RebuildInverseIff(s.rows);
    PersistedSame(s.rows);
  }

  /** A failed refresh keeps the agreement if and only if the array has no volume. */
  lemma FailedRefreshAgreesIff(s: State)
    requires Agrees(s)
    ensures Agrees(Stepped(s, Refresh(false))) <==> s.rows == []
  {
    if s.rows != [] {
      RowIndexed(s.rows, 0);
    }
  }

  /** After a failed refresh the next automatic number is 0 again.  The rebuilds after that creation
      give inverse maps if and only if no volume had 0. */
  lemma FailedRefreshReusesIff(s: State, id: Id)
    requires Agrees(s) && NewRow(s.rows, id)
    ensures var rows := Stepped(Stepped(s, Refresh(false)), Create(None, Some(id))).rows;
      && rows == s.rows + [Row(id, Some(0))]
      && (Inverse(MapsOf(rows)) <==> forall i :: 0 <= i < |s.rows| ==> s.rows[i].ldev != Some(0))
  {
    var rows := s.rows + [Row(id, Some(0))];
    assert Stepped(s, Refresh(false)).maps.vol == map[];
    StoredClash(s.rows);
    StoredClash(rows);
    hide MapsOf, NoStoredClash;
    RebuildInverseIff(rows);
    assert rows[|s.rows|].ldev == Some(0);
    assert forall i :: 0 <= i < |s.rows| ==> rows[i] == s.rows[i];
  }
}
