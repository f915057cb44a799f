/**
 The dashboard's client table: keyed reconciliation of table rows with the latest client list.

 Rows are objects that stay the same as long as their client does; the table body is a mutable
 list of them. Client ids come from a map's keys, so they are distinct; the empty id marks a row
 without one.
 */
module Table {
  import opened Wrappers

  /** One element of the server's reply: the row's key and what the row shows. */
  datatype Client = Client(id: string, shown: string)

  class Row {
    const id: string          // data-id; empty for the placeholder
    const placeholder: bool
    var shown: string

    constructor (id: string, placeholder: bool, shown: string)
      ensures this.id == id && this.placeholder == placeholder && this.shown == shown
    {
      this.id, this.placeholder, this.shown := id, placeholder, shown;
    }
  }

  // ----- list operations of the table body -----

  predicate Distinct<T(==)>(s: seq<T>) {
    forall i, j :: 0 <= i < j < |s| ==> s[i] != s[j]
  }

  function Position<T(==)>(s: seq<T>, x: T): (i: nat)
    requires x in s
    ensures i < |s| && s[i] == x
  {
    if s[0] == x then 0 else 1 + Position(s[1..], x)
  }

  function Without<T(==)>(s: seq<T>, x: T): seq<T> {
    if x in s then var i := Position(s, x); s[..i] + s[i + 1..] else s
  }

  /** insertBefore: a row already in the list moves; no reference row means append. */
  function InsertedBefore<T(==)>(s: seq<T>, x: T, before: Option<T>): seq<T>
    requires before.Some? ==> before.value in s && before.value != x
  {
    var rest := Without(s, x);
    if before.None? then rest + [x]
    else
      WithoutKeeps(s, x, before.value);
      var i := Position(rest, before.value); rest[..i] + [x] + rest[i..]
  }

  lemma WithoutKeeps<T>(s: seq<T>, x: T, y: T)
    requires x != y
    ensures y in Without(s, x) <==> y in s
  {
    if x in s {
      var i := Position(s, x);
      assert s == s[..i] + [x] + s[i + 1..];
    }
  }

  lemma PositionIs<T>(s: seq<T>, i: nat)
    requires i < |s| && Distinct(s)
    ensures Position(s, s[i]) == i
  {
  }

  lemma DistinctCut<T>(s: seq<T>, n: nat)
    requires Distinct(s) && n < |s|
    ensures Without(s, s[n]) == s[..n] + s[n + 1..]
    ensures Distinct(s[..n] + s[n + 1..]) && s[n] !in s[..n] + s[n + 1..]
  {
    PositionIs(s, n);
    var rest := s[..n] + s[n + 1..];
    assert forall i :: 0 <= i < |rest| ==> rest[i] == s[if i < n then i else i + 1];
  }

  lemma WithoutLater<T>(placed: seq<T>, a: seq<T>, x: T, b: seq<T>)
    requires Distinct(placed + a + [x] + b)
    ensures Without(placed + a + [x] + b, x) == placed + a + b
    ensures Distinct(placed + a + b) && x !in placed + a + b
  {
    var s, n := placed + a + [x] + b, |placed| + |a|;
    assert s[n] == x && s[..n] == placed + a && s[n + 1..] == b;
    DistinctCut(s, n);
  }

  lemma InsertAt<T>(p: seq<T>, x: T, q: seq<T>)
    requires Distinct(p + q) && x !in p + q
    ensures Distinct(p + [x] + q)
    ensures InsertedBefore(p + q, x, if q == [] then None else Some(q[0])) == p + [x] + q
  {
    var s, r := p + q, p + [x] + q;
    assert Without(s, x) == s;
    if q != [] {
      assert s[|p|] == q[0];
      PositionIs(s, |p|);
      assert s[..|p|] == p && s[|p|..] == q;
    }
    forall i, j | 0 <= i < j < |r| ensures r[i] != r[j] {
      assert i != |p| ==> r[i] == s[if i < |p| then i else i - 1] && r[i] in s;
      assert j != |p| ==> r[j] == s[if j < |p| then j else j - 1] && r[j] in s;
    }
  }

  /** Moving a later row to the front of the part not yet placed. */
  lemma PlaceExisting<T>(placed: seq<T>, a: seq<T>, x: T, b: seq<T>)
    requires a != [] && a[0] != x && Distinct(placed + a + [x] + b)
    ensures a[0] in placed + a + [x] + b
    ensures InsertedBefore(placed + a + [x] + b, x, Some(a[0])) == placed + [x] + a + b
    ensures Distinct(placed + [x] + a + b)
  {
    var s, rest := placed + a + [x] + b, placed + a + b;
    assert s[|placed|] == a[0];
    WithoutLater(placed, a, x, b);
    assert rest == placed + (a + b) && placed + [x] + (a + b) == placed + [x] + a + b;
    InsertAt(placed, x, a + b);
    assert Without(rest, x) == rest;
  }

  lemma SplitAt<T>(s: seq<T>, x: T) returns (a: seq<T>, b: seq<T>)
    requires x in s
    ensures s == a + [x] + b && Without(s, x) == a + b
  {
    var i := Position(s, x);
    a, b := s[..i], s[i + 1..];
  }

  lemma PlaceMoves<T>(placed: seq<T>, rest: seq<T>, x: T)
    requires Distinct(placed + rest) && x !in placed && (rest != [] ==> rest[0] != x)
    ensures rest != [] ==> rest[0] in placed + rest
    ensures InsertedBefore(placed + rest, x, if rest == [] then None else Some(rest[0]))
         == placed + [x] + Without(rest, x)
    ensures Distinct(placed + [x] + Without(rest, x))
  {
    if x in rest {
      var a, b := SplitAt(rest, x);
      assert a != [] && a[0] == rest[0];
      assert placed + rest == placed + a + [x] + b;
      assert placed + [x] + a + b == placed + [x] + (a + b);
      PlaceExisting(placed, a, x, b);
    } else {
      InsertAt(placed, x, rest);
    }
  }

  lemma PlaceStays<T>(placed: seq<T>, rest: seq<T>)
    requires rest != []
    ensures Without(rest, rest[0]) == rest[1..] && placed + [rest[0]] + rest[1..] == placed + rest
  {
  }

  lemma WithoutFromTail<T>(placed: seq<T>, rest: seq<T>, x: T)
    requires Distinct(placed + rest) && x in rest
    ensures Without(placed + rest, x) == placed + Without(rest, x) && Distinct(placed + Without(rest, x))
  {
    var a, b := SplitAt(rest, x);
    assert placed + rest == placed + a + [x] + b && placed + a + b == placed + (a + b);
    WithoutLater(placed, a, x, b);
  }

  // ----- the table body -----

  predicate UniqueIds(clients: seq<Client>) {
    && (forall i :: 0 <= i < |clients| ==> clients[i].id != "")
    && (forall i, j :: 0 <= i < j < |clients| ==> clients[i].id != clients[j].id)
  }

  /** The rows not yet placed are exactly the ones still listed by id. */
  ghost predicate Listed(rest: seq<Row>, existing: map<string, Row>) {
    && (forall r <- rest :: r.id in existing && existing[r.id] == r)
    && (forall id <- existing :: existing[id] in rest && existing[id].id == id)
  }

  /** The first n rows already show the first n clients, in order. */
  predicate SameStart(rows: seq<Row>, clients: seq<Client>, n: nat) {
    n <= |rows| && n <= |clients| && forall k :: 0 <= k < n ==> rows[k].id == clients[k].id
  }

  /** The part of a table built so far: row i belongs to client i, and is the old row if there was one. */
  ghost predicate Built(old_: seq<Row>, placed: seq<Row>, clients: seq<Client>)
    reads placed
  {
    && |placed| <= |clients|
    && (forall k :: 0 <= k < |placed| ==>
          placed[k].id == clients[k].id && placed[k].shown == clients[k].shown && !placed[k].placeholder)
    && (forall k, r :: 0 <= k < |placed| && r in old_ && r.id == clients[k].id ==> placed[k] == r)
  }

  lemma TailDistinct<T>(p: seq<T>, q: seq<T>)
    requires Distinct(p + q)
    ensures Distinct(p) && Distinct(q)
    ensures forall x :: x in q ==> x !in p
  {
    forall i, j | 0 <= i < j < |q| ensures q[i] != q[j] {
      assert q[i] == (p + q)[|p| + i] && q[j] == (p + q)[|p| + j];
    }
    forall i, j | 0 <= i < |p| && 0 <= j < |q| ensures p[i] != q[j] {
      assert p[i] == (p + q)[i] && q[j] == (p + q)[|p| + j];
    }
    forall i, j | 0 <= i < j < |p| ensures p[i] != p[j] {
      assert p[i] == (p + q)[i] && p[j] == (p + q)[j];
    }
  }

  lemma WithoutMembers<T>(s: seq<T>, x: T)
    ensures forall y :: y in Without(s, x) ==> y in s
    ensures forall y :: y in s && y != x ==> y in Without(s, x)
    ensures Distinct(s) ==> x !in Without(s, x)
  {
    if x in s {
      var a, b := SplitAt(s, x);
      assert forall y :: y in a + b <==> y in a || y in b;
      assert forall y :: y in s <==> y in a || y == x || y in b;
      if Distinct(s) {
        TailDistinct(a + [x], b);
        TailDistinct(a, [x]);
      }
    }
  }

  lemma ListedWithout(rest: seq<Row>, existing: map<string, Row>, id: string)
    requires Distinct(rest) && Listed(rest, existing) && id in existing
    ensures Listed(Without(rest, existing[id]), existing - {id})
  {
    WithoutMembers(rest, existing[id]);
  }

  lemma ListedMeansSome(rest: seq<Row>, existing: map<string, Row>)
    requires Listed(rest, existing)
    ensures rest != [] ==> existing != map[]
  {
    if rest != [] {
      assert rest[0] in rest;
      assert rest[0].id in existing;
    }
  }

  lemma BuiltSnoc(start: seq<Row>, placed: seq<Row>, clients: seq<Client>, tr: Row)
    requires Built(start, placed, clients) && |placed| < |clients|
    requires var c := clients[|placed|];
      && tr.id == c.id && tr.shown == c.shown && !tr.placeholder
      && forall r :: r in start && r.id == c.id ==> tr == r
    ensures Built(start, placed + [tr], clients)
  {
  }

  /** A row still to be placed, or one whose client was placed already. */
  ghost predicate Accounted(start: seq<Row>, clients: seq<Client>, n: nat, rest: seq<Row>)
    requires n <= |clients|
  {
    && (forall r <- rest :: !r.placeholder && r in start)
    && (forall r <- start :: r in rest || exists k :: 0 <= k < n && clients[k].id == r.id)
  }

  lemma AccountedSnoc(start: seq<Row>, clients: seq<Client>, n: nat, rest: seq<Row>, tr: Row)
    requires n < |clients| && Accounted(start, clients, n, rest) && tr.id == clients[n].id
    ensures Accounted(start, clients, n + 1, Without(rest, tr))
  {
    WithoutMembers(rest, tr);
    forall r | r in start ensures r in Without(rest, tr) || exists k :: 0 <= k < n + 1 && clients[k].id == r.id {
      if r in rest {
        assert r == tr ==> clients[n].id == r.id;
      } else {
        var k :| 0 <= k < n && clients[k].id == r.id;
        assert k < n + 1;
      }
    }
  }

  /** The row chosen for the next client is the right one: its old row if it had one. */
  lemma NextIsRight(
      start: seq<Row>, clients: seq<Client>, existing: map<string, Row>, placed: seq<Row>, rest: seq<Row>, tr: Row)
    requires Built(start, placed, clients) && UniqueIds(clients) && |placed| < |clients|
    requires Accounted(start, clients, |placed|, rest) && Listed(rest, existing)
    requires var c := clients[|placed|];
      && tr.id == c.id && tr.shown == c.shown && !tr.placeholder
      && (c.id in existing ==> tr == existing[c.id])
    ensures Built(start, placed + [tr], clients)
    ensures Accounted(start, clients, |placed| + 1, Without(rest, tr))
  {
    BuiltSnoc(start, placed, clients, tr);
    AccountedSnoc(start, clients, |placed|, rest, tr);
  }

  /** insertBefore is not called while the ids agree with the old order, then at most once a row. */
  ghost predicate Frugal(start: seq<Row>, clients: seq<Client>, i: nat, rest: seq<Row>, calls: nat) {
    forall n: nat :: SameStart(start, clients, n) ==>
      if i <= n then calls == 0 && rest == start[i..] else calls <= i - n
  }

  lemma FrugalSnoc(start: seq<Row>, clients: seq<Client>, i: nat, rest: seq<Row>, calls: nat, tr: Row)
    requires i < |clients| && Frugal(start, clients, i, rest, calls)
    requires rest != [] && rest[0].id == clients[i].id ==> tr == rest[0]
    ensures Frugal(start, clients, i + 1, Without(rest, tr), calls + if rest != [] && rest[0] == tr then 0 else 1)
  {
    forall n: nat | SameStart(start, clients, n) && i < n
      ensures rest != [] && rest[0] == tr && calls == 0 && Without(rest, tr) == start[i + 1..]
    {
      assert rest == start[i..] && rest[0] == start[i];
      PlaceStays([], rest);
    }
  }

  class Body {
    var rows: seq<Row>
    var insertions: nat   // insertBefore calls so far

    ghost predicate Valid()
      reads this
    {
      && Distinct(rows)
      && ((|rows| == 1 && rows[0].placeholder && rows[0].id == "")
          || (forall r <- rows :: !r.placeholder && r.id != ""))
      && (forall i, j :: 0 <= i < j < |rows| ==> rows[i].id != rows[j].id)
    }

    constructor ()
      ensures Valid() && |rows| == 1 && rows[0].placeholder && fresh(rows[0])
    {
      var r := new Row("", true, "No clients connected");
      rows, insertions := [r], 0;
    }

    method InsertBefore(x: Row, before: Option<Row>)
      requires before.Some? ==> before.value in rows && before.value != x
      modifies this
      ensures rows == InsertedBefore(old(rows), x, before)
      ensures insertions == old(insertions) + 1
    {
      rows := InsertedBefore(rows, x, before);
      insertions := insertions + 1;
    }

    method NextSibling(x: Row) returns (next: Option<Row>)
      requires x in rows
      ensures var i := Position(rows, x); next == if i + 1 < |rows| then Some(rows[i + 1]) else None
    {
      var i := Position(rows, x);
      next := if i + 1 < |rows| then Some(rows[i + 1]) else None;
    }

    /** Index the rows that carry an id. */
    method Existing() returns (existing: map<string, Row>)
      requires Valid() && forall r <- rows :: !r.placeholder
      ensures Listed(rows, existing)
    {
      existing := map[];
      for i := 0 to |rows|
        invariant Listed(rows[..i], existing)
      {
        assert rows[..i + 1] == rows[..i] + [rows[i]];
        if rows[i].id != "" {
          existing := existing[rows[i].id := rows[i]];
        }
      }
      assert rows[..|rows|] == rows;
    }

    /** The row after the last one placed, or the first child. */
    method Following(last: Option<Row>, ghost placed: seq<Row>, ghost rest: seq<Row>) returns (sibling: Option<Row>)
      requires rows == placed + rest && Distinct(rows)
      requires last == if placed == [] then None else Some(placed[|placed| - 1])
      ensures sibling == if rest == [] then None else Some(rest[0])
    {
      if last.Some? {
        assert rows[|placed| - 1] == last.value;
        PositionIs(rows, |placed| - 1);
        sibling := NextSibling(last.value);
      } else {
        sibling := if rows == [] then None else Some(rows[0]);
      }
      assert rest != [] ==> rows[|placed|] == rest[0];
    }

    /** One step of the placement loop: make `tr` the next row after those already placed. */
    method Place(tr: Row, last: Option<Row>, ghost placed: seq<Row>, ghost rest: seq<Row>)
      requires rows == placed + rest && Distinct(rows)
      requires last == if placed == [] then None else Some(placed[|placed| - 1])
      requires tr !in placed
      modifies this
      ensures rows == placed + [tr] + Without(rest, tr) && Distinct(rows)
      ensures insertions == old(insertions) + if rest != [] && rest[0] == tr then 0 else 1
    {
      var sibling := Following(last, placed, rest);
      if sibling != Some(tr) {
        PlaceMoves(placed, rest, tr);
        InsertBefore(tr, sibling);
      } else {
        PlaceStays(placed, rest);
      }
    }
  
    /** The row for a client: its old row, no longer listed, or a new one. */
    method RowFor(c: Client, existing: map<string, Row>, ghost rest: seq<Row>)
      returns (tr: Row, remaining: map<string, Row>)
      requires Listed(rest, existing) && Distinct(rest) && c.id != "" && forall r <- rest :: !r.placeholder
      modifies if c.id in existing then {existing[c.id]} else {}
      ensures tr.id == c.id && tr.shown == c.shown && !tr.placeholder
      ensures if c.id in existing then tr == existing[c.id] else fresh(tr)
      ensures remaining == existing - {c.id} && Listed(Without(rest, tr), remaining)
    {
      remaining := existing - {c.id};
      if c.id in existing {
        tr := existing[c.id];
        tr.shown := c.shown;
        ListedWithout(rest, existing, c.id);
      } else {
        tr := new Row(c.id, false, c.shown);
        assert Without(rest, tr) == rest;
        assert remaining == existing;
      }
    }

    /** What holds between two iterations of the placement loop. */
    ghost predicate Progress(
        start: seq<Row>, clients: seq<Client>, existing: map<string, Row>, placed: seq<Row>, rest: seq<Row>)
      reads this, placed
    {
      && rows == placed + rest && Distinct(rows)
      && Listed(rest, existing)
      && Built(start, placed, clients)
      && Accounted(start, clients, |placed|, rest)
    }

    method PlaceNext(
        ghost start: seq<Row>, ghost clients: seq<Client>, c: Client, existing: map<string, Row>,
        last: Option<Row>, ghost placed: seq<Row>, ghost rest: seq<Row>)
      returns (tr: Row, remaining: map<string, Row>)
      requires Progress(start, clients, existing, placed, rest) && UniqueIds(clients)
      requires |placed| < |clients| && clients[|placed|] == c
      requires last == if placed == [] then None else Some(placed[|placed| - 1])
      modifies this, set r <- rest
      ensures Progress(start, clients, remaining, placed + [tr], Without(rest, tr))
      ensures tr in rest || fresh(tr)
      ensures insertions == old(insertions) + if rest != [] && rest[0] == tr then 0 else 1
      ensures rest != [] && rest[0].id == c.id ==> tr == rest[0]
    {
      TailDistinct(placed, rest);
      tr, remaining := RowFor(c, existing, rest);
      NextIsRight(start, clients, existing, placed, rest, tr);
      Place(tr, last, placed, rest);
    }
  
    /** The placement loop over the new client list. */
    method PlaceAll(clients: seq<Client>, existing0: map<string, Row>)
      returns (existing: map<string, Row>, ghost placed: seq<Row>, ghost rest: seq<Row>)
      requires Distinct(rows) && Listed(rows, existing0) && UniqueIds(clients)
      requires forall r <- rows :: !r.placeholder
      modifies this, set r <- rows
      ensures Progress(old(rows), clients, existing, placed, rest) && |placed| == |clients|
      ensures forall r <- placed :: r in old(rows) || fresh(r)
      ensures forall n: nat :: SameStart(old(rows), clients, n) ==> insertions <= old(insertions) + |clients| - n
    {
      existing, placed, rest := existing0, [], rows;
      ghost var start := rows;
      var last: Option<Row> := None;
      assert Progress(start, clients, existing, placed, rest);
      for i := 0 to |clients|
        invariant |placed| == i && Progress(start, clients, existing, placed, rest)
        invariant last == if placed == [] then None else Some(placed[|placed| - 1])
        invariant forall r <- placed :: r in start || fresh(r)
        invariant insertions >= old(insertions) && Frugal(start, clients, i, rest, insertions - old(insertions))
      {
        var tr;
        ghost var calls := insertions - old(insertions);
        tr, existing := PlaceNext(start, clients, clients[i], existing, last, placed, rest);
        FrugalSnoc(start, clients, i, rest, calls, tr);
        placed, rest := placed + [tr], Without(rest, tr);
        last := Some(tr);
      }
    }

    /** Remove the rows whose client is gone. */
    method RemoveAll(existing0: map<string, Row>, ghost placed: seq<Row>, ghost rest0: seq<Row>)
      requires rows == placed + rest0 && Distinct(rows) && Listed(rest0, existing0)
      modifies this`rows
      ensures rows == placed
    {
      var existing := existing0;
      ghost var rest := rest0;
      while existing != map[]
        invariant rows == placed + rest && Distinct(rows) && Listed(rest, existing)
        decreases |existing|
      {
        var id :| id in existing;
        TailDistinct(placed, rest);
        ListedWithout(rest, existing, id);
        WithoutFromTail(placed, rest, existing[id]);
        rows := Without(rows, existing[id]);
        rest := Without(rest, existing[id]);
        existing := existing - {id};
      }
      ListedMeansSome(rest, existing);
    }

    /** The rows show exactly these clients, or the placeholder when there are none. */
    ghost predicate Shows(clients: seq<Client>)
      reads this, rows
    {
      if clients == [] then |rows| == 1 && rows[0].placeholder
      else
        && |rows| == |clients|
        && forall i :: 0 <= i < |rows| ==>
             rows[i].id == clients[i].id && rows[i].shown == clients[i].shown && !rows[i].placeholder
    }

    /** One refresh with the latest client list. */
    method Refresh(clients: seq<Client>)
      requires Valid() && UniqueIds(clients)
      modifies this, set r <- rows
      ensures Valid() && Shows(clients)
      // a client that was shown before keeps its row object
      ensures forall i, r :: 0 <= i < |clients| && r in old(rows) && r.id == clients[i].id ==> rows[i] == r
      ensures forall r <- rows :: r in old(rows) || fresh(r)
      // no row moves within the part of the order that did not change
      ensures clients == [] ==> insertions == old(insertions)
      ensures forall n: nat :: SameStart(old(rows), clients, n) ==> insertions <= old(insertions) + |clients| - n
    {
      if clients == [] {
        var tr := new Row("", true, "No clients connected");
        rows := [tr];
        return;
      }
      Reconcile(clients);
    }

    /** A refresh with at least one client. */
    method Reconcile(clients: seq<Client>)
      requires Valid() && UniqueIds(clients) && clients != []
      modifies this, set r <- rows
      ensures Distinct(rows) && |rows| == |clients| && Built(old(rows), rows, clients)
      ensures forall r <- rows :: r in old(rows) || fresh(r)
      ensures forall n: nat :: SameStart(old(rows), clients, n) ==> insertions <= old(insertions) + |clients| - n
    {
      ghost var before := rows;
      if exists r <- rows :: r.placeholder {
        assert before[0].id == "";
        rows := [];
      }
      assert forall n: nat :: SameStart(before, clients, n) ==> SameStart(rows, clients, n);
      var existing := Existing();
      ghost var placed, rest;
      existing, placed, rest := PlaceAll(clients, existing);
      RemoveAll(existing, placed, rest);
    }

    /** The dashboard's life: one refresh per response; a client in every response keeps its row throughout. */
    method RefreshAll(responses: seq<seq<Client>>)
      requires Valid() && forall i :: 0 <= i < |responses| ==> UniqueIds(responses[i])
      modifies this, set r <- rows
      ensures Valid() && (responses != [] ==> Shows(responses[|responses| - 1]))
      ensures forall r <- rows :: r in old(rows) || fresh(r)
      ensures forall r ::
        r in old(rows) && (forall i :: 0 <= i < |responses| ==> Lists(responses[i], r.id)) ==> r in rows
    {
      for i := 0 to |responses|
        invariant Valid() && (i > 0 ==> Shows(responses[i - 1]))
        invariant forall r <- rows :: r in old(rows) || fresh(r)
        invariant forall r :: r in old(rows) && (forall k :: 0 <= k < i ==> Lists(responses[k], r.id)) ==> r in rows
      {
        Refresh(responses[i]);
      }
    }
  }

  predicate Lists(clients: seq<Client>, id: string) {
    exists k :: 0 <= k < |clients| && clients[k].id == id
  }
}
