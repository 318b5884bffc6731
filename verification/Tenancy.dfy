/** The tenant wrapper of the database client: it rewrites every query over a shared table so
    that the table behaves like a private one per tenant. */
module Tenancy {
  import opened Sums

  type TenantId = string
  type UserId = string

  // ---------------------------------------------------------------- rows and filters

  datatype Value = Text(text: string) | Number(number: int)

  datatype Row = Row(
    id: nat, tenant: TenantId, createdBy: Option<UserId>, updatedBy: Option<UserId>, cols: map<string, Value>)

  function Field(r: Row, name: string): Option<Value>
  {
    if name == "id" then Some(Number(r.id))
    else if name == "tenantId" then Some(Text(r.tenant))
    else if name in r.cols then Some(r.cols[name])
    else None
  }

  datatype Cond = Equals(v: Value) | OneOf(vs: seq<Value>) | AtLeast(n: int) | Below(n: int) | IsNot(c: Cond)

  predicate Holds(c: Cond, v: Option<Value>)
  {
    match c
    case Equals(x) => v == Some(x)
    case OneOf(xs) => v.Some? && v.value in xs
    case AtLeast(n) => v.Some? && v.value.Number? && v.value.number >= n
    case Below(n) => v.Some? && v.value.Number? && v.value.number < n
    case IsNot(d) => !Holds(d, v)
  }

  /** A filter: conditions by field name, and AND, OR, NOT clauses over further filters. */
  datatype Where = Where(fields: map<string, Cond>, clauses: seq<Clause>)

  datatype Clause = AllOf(all: seq<Where>) | AnyOf(any: seq<Where>) | NoneOf(none: seq<Where>)

  predicate FieldsHold(fields: map<string, Cond>, r: Row)
  {
    forall k :: k in fields ==> Holds(fields[k], Field(r, k))
  }

  predicate Matches(w: Where, r: Row)
  {
    && FieldsHold(w.fields, r)
    && (forall i :: 0 <= i < |w.clauses| ==> Satisfies(w.clauses[i], r))
  }

  predicate Satisfies(c: Clause, r: Row)
  {
    match c
    case AllOf(ws) => forall i :: 0 <= i < |ws| ==> Matches(ws[i], r)
    case AnyOf(ws) => exists i :: 0 <= i < |ws| && Matches(ws[i], r)
    case NoneOf(ws) => forall i :: 0 <= i < |ws| ==> !Matches(ws[i], r)
  }

  /** { ...where, tenantId }: the tenant's id replaces any top-level condition on tenantId. */
  function Scoped(w: Where, t: TenantId): Where
  {
    w.(fields := w.fields["tenantId" := Equals(Text(t))])
  }

  /** The caller's own top-level condition on tenantId, if any, is true of tenant `t`. */
  predicate Admits(w: Where, t: TenantId)
  {
    "tenantId" in w.fields ==> Holds(w.fields["tenantId"], Some(Text(t)))
  }

  // ---------------------------------------------------------------- plain operations on a table

  function Filter(rows: seq<Row>, p: Row -> bool): seq<Row>
  {
    if rows == [] then []
    else if p(rows[|rows| - 1]) then Filter(rows[..|rows| - 1], p) + [rows[|rows| - 1]]
    else Filter(rows[..|rows| - 1], p)
  }

  function Matching(w: Where): Row -> bool
  {
    (r: Row) => Matches(w, r)
  }

  function NotMatching(w: Where): Row -> bool
  {
    (r: Row) => !Matches(w, r)
  }

  function OwnedBy(t: TenantId): Row -> bool
  {
    (r: Row) => r.tenant == t
  }

  /** The tenant's private table. */
  function Partition(rows: seq<Row>, t: TenantId): seq<Row>
  {
    Filter(rows, OwnedBy(t))
  }

  function FindMany(rows: seq<Row>, w: Where): seq<Row>
  {
    Filter(rows, Matching(w))
  }

  /** Column values to write; an absent stamp leaves the row's own. */
  datatype Data = Data(cols: map<string, Value>, createdBy: Option<UserId>, updatedBy: Option<UserId>)

  function Written(r: Row, data: Data): Row
  {
    r.(cols := r.cols + data.cols,
       createdBy := if data.createdBy.Some? then data.createdBy else r.createdBy,
       updatedBy := if data.updatedBy.Some? then data.updatedBy else r.updatedBy)
  }

  function UpdateMany(rows: seq<Row>, w: Where, data: Data): seq<Row>
  {
    if rows == [] then []
    else
      var last := rows[|rows| - 1];
      UpdateMany(rows[..|rows| - 1], w, data) + [if Matches(w, last) then Written(last, data) else last]
  }

  function DeleteMany(rows: seq<Row>, w: Where): seq<Row>
  {
    Filter(rows, NotMatching(w))
  }

  /** A row to create, with the id the database gives it. */
  datatype NewRow = NewRow(id: nat, data: Data)

  function RowOf(t: TenantId, r: NewRow): Row
  {
    Row(r.id, t, r.data.createdBy, r.data.updatedBy, r.data.cols)
  }

  function CreateMany(rows: seq<Row>, t: TenantId, news: seq<NewRow>): seq<Row>
  {
    if news == [] then rows
    else CreateMany(rows, t, news[..|news| - 1]) + [RowOf(t, news[|news| - 1])]
  }

  /** What a read does with the rows it selects. */
  datatype Reading = Many | First | Unique | Count | SumOf(column: string) | CountBy(column: string, value: Value)

  datatype Answer =
    | Rows(rows: seq<Row>) | One(row: Option<Row>) | Amount(amount: int) | Changed(count: nat) | RecordNotFound

  function SumColumn(rows: seq<Row>, column: string): int
  {
    if rows == [] then 0
    else
      SumColumn(rows[..|rows| - 1], column)
      + match Field(rows[|rows| - 1], column)
        case Some(Number(n)) => n
        case _ => 0
  }

  function Present(reading: Reading, rows: seq<Row>): Answer
  {
    match reading
    case Many => Rows(rows)
    case First => One(if rows == [] then None else Some(rows[0]))
    case Unique => One(if rows == [] then None else Some(rows[0]))
    case Count => Amount(|rows|)
    case SumOf(column) => Amount(SumColumn(rows, column))
    case CountBy(column, value) => Amount(|FindMany(rows, Where(map[column := Equals(value)], []))|)
  }

  datatype Op =
    | Read(reading: Reading, w: Where)
    | Create(news: seq<NewRow>)
    | Update(w: Where, data: Data)
    | UpdateAll(w: Where, data: Data)
    | Delete(w: Where)
    | DeleteAll(w: Where)

  /** An operation as the unwrapped client of tenant `t` performs it on a table of its own. */
  function Plain(rows: seq<Row>, t: TenantId, op: Op): (seq<Row>, Answer)
  {
    match op
    case Read(reading, w) => (rows, Present(reading, FindMany(rows, w)))
    case Create(news) => (CreateMany(rows, t, news), Changed(|news|))
    case Update(w, data) =>
      if FindMany(rows, w) == [] then (rows, RecordNotFound) else (UpdateMany(rows, w, data), Changed(1))
    case UpdateAll(w, data) => (UpdateMany(rows, w, data), Changed(|FindMany(rows, w)|))
    case Delete(w) => if FindMany(rows, w) == [] then (rows, RecordNotFound) else (DeleteMany(rows, w), Changed(1))
    case DeleteAll(w) => (DeleteMany(rows, w), Changed(|FindMany(rows, w)|))
  }

  // ---------------------------------------------------------------- the wrapper

  const TENANTED := {
    "Ticket", "Customer", "Part", "Invoice", "POSSale", "Payment", "Notification", "CashTransaction",
    "PurchaseOrder", "AuditLog", "ServiceTemplate", "CashRegister", "TenantSettings", "POSQuotation",
    "CreditNote", "User", "SessionLog", "UserPresence"}

  const WITH_CREATED_BY := {
    "User", "Customer", "Ticket", "Part", "PurchaseOrder", "ServiceTemplate", "Invoice", "CashTransaction",
    "POSSale", "POSQuotation", "CreditNote"}

  const WITH_UPDATED_BY := {
    "User", "Customer", "Ticket", "Part", "PurchaseOrder", "ServiceTemplate", "Invoice"}

  datatype Actor = Actor(tenant: TenantId, user: Option<UserId>)

  function StampUpdate(model: string, actor: Actor, data: Data): Data
  {
    if actor.user.Some? && model in WITH_UPDATED_BY then data.(updatedBy := actor.user) else data
  }

  function StampCreate(model: string, actor: Actor, data: Data): Data
  {
    var created := if actor.user.Some? && model in WITH_CREATED_BY then data.(createdBy := actor.user) else data;
    StampUpdate(model, actor, created)
  }

  function StampNews(model: string, actor: Actor, news: seq<NewRow>): (stamped: seq<NewRow>)
    ensures |stamped| == |news|
    ensures forall i :: 0 <= i < |news| ==>
      stamped[i] == NewRow(news[i].id, StampCreate(model, actor, news[i].data))
  {
    seq(|news|, i requires 0 <= i < |news| => NewRow(news[i].id, StampCreate(model, actor, news[i].data)))
  }

  /** The operation with the actor's stamps on what it writes. */
  function Stamped(model: string, actor: Actor, op: Op): Op
  {
    match op
    case Create(news) => Create(StampNews(model, actor, news))
    case Update(w, data) => Update(w, StampUpdate(model, actor, data))
    case UpdateAll(w, data) => UpdateAll(w, StampUpdate(model, actor, data))
    case _ => op
  }

  /** The wrapped operation on the shared table. Operations on a model without tenants pass through.
      Otherwise reads and the operations on many rows get a scoped filter; update and delete first
      look the row up in the tenant's scope, then run with the caller's own filter. */
  function Wrapped(rows: seq<Row>, model: string, actor: Actor, op: Op): (seq<Row>, Answer)
  {
    if model in TENANTED then Intercepted(rows, model, actor, op) else Plain(rows, actor.tenant, op)
  }

  function Intercepted(rows: seq<Row>, model: string, actor: Actor, op: Op): (seq<Row>, Answer)
  {
    var t := actor.tenant;
    match Stamped(model, actor, op)
    case Read(reading, w) => Plain(rows, t, Read(reading, Scoped(w, t)))
    case Create(news) => Plain(rows, t, Create(news))
    case Update(w, data) =>
      if FindMany(rows, Scoped(w, t)) == [] then (rows, RecordNotFound) else Plain(rows, t, Update(w, data))
    case UpdateAll(w, data) => Plain(rows, t, UpdateAll(Scoped(w, t), data))
    case Delete(w) =>
      if FindMany(rows, Scoped(w, t)) == [] then (rows, RecordNotFound) else Plain(rows, t, Delete(w))
    case DeleteAll(w) => Plain(rows, t, DeleteAll(Scoped(w, t)))
  }

  // ---------------------------------------------------------------- filters and partitions

  /** What a scoped filter selects: the tenant's rows that match the rest of the filter. */
  function Unscoped(w: Where): Where
  {
    w.(fields := w.fields - {"tenantId"})
  }

  /** A field's own condition and those on the other fields. */
  lemma FieldApart(fields: map<string, Cond>, name: string, r: Row)
    ensures FieldsHold(fields, r) <==>
      FieldsHold(fields - {name}, r) && (name in fields ==> Holds(fields[name], Field(r, name)))
  {
    var others := fields - {name};
    if FieldsHold(others, r) && (name in fields ==> Holds(fields[name], Field(r, name))) {
      forall k | k in fields
        ensures Holds(fields[k], Field(r, k))
      {
        assert k != name ==> k in others;
      }
    }
  }

  lemma ScopedMatches(w: Where, t: TenantId, r: Row)
    ensures Matches(Scoped(w, t), r) <==> r.tenant == t && Matches(Unscoped(w), r)
    ensures Matches(w, r) <==>
      Matches(Unscoped(w), r) && ("tenantId" in w.fields ==> Holds(w.fields["tenantId"], Some(Text(r.tenant))))
  {
    FieldApart(w.fields, "tenantId", r);
    FieldApart(Scoped(w, t).fields, "tenantId", r);
    assert Scoped(w, t).fields - {"tenantId"} == Unscoped(w).fields;
  }

  lemma FilterAppend(rows: seq<Row>, r: Row, p: Row -> bool)
    ensures Filter(rows + [r], p) == if p(r) then Filter(rows, p) + [r] else Filter(rows, p)
  {
    assert (rows + [r])[..|rows|] == rows;
  }

  lemma UpdateAppend(rows: seq<Row>, r: Row, w: Where, data: Data)
    ensures UpdateMany(rows + [r], w, data) ==
      UpdateMany(rows, w, data) + [if Matches(w, r) then Written(r, data) else r]
  {
    assert (rows + [r])[..|rows|] == rows;
  }

  lemma {:induction false} FilterTwice(rows: seq<Row>, p: Row -> bool, q: Row -> bool, both: Row -> bool)
    requires forall r :: both(r) <==> p(r) && q(r)
    ensures Filter(Filter(rows, p), q) == Filter(rows, both)
  {
    if rows == [] {
    } else {
      var n := |rows| - 1;
      FilterTwice(rows[..n], p, q, both);
      FilterAppend(Filter(rows[..n], p), rows[n], q);
    }
  }

  lemma {:induction false} FilterNothing(rows: seq<Row>, p: Row -> bool)
    requires forall i :: 0 <= i < |rows| ==> !p(rows[i])
    ensures Filter(rows, p) == []
  {
    if rows == [] {
    } else {
      FilterNothing(rows[..|rows| - 1], p);
    }
  }

  lemma {:induction false} FilterMembers(rows: seq<Row>, p: Row -> bool)
    ensures forall r :: r in Filter(rows, p) <==> r in rows && p(r)
  {
    if rows == [] {
    } else {
      FilterMembers(rows[..|rows| - 1], p);
    }
  }

  /** A scoped search of the shared table is a search of the private table, whatever the filter:
      only a top-level tenantId condition of the caller's own is dropped. */
  lemma ScopedSearch(rows: seq<Row>, w: Where, t: TenantId)
    ensures FindMany(rows, Scoped(w, t)) == FindMany(Partition(rows, t), Unscoped(w))
    ensures Admits(w, t) ==> FindMany(rows, Scoped(w, t)) == FindMany(Partition(rows, t), w)
  {
    forall r: Row
      ensures Matches(Scoped(w, t), r) <==> r.tenant == t && Matches(Unscoped(w), r)
      ensures Admits(w, t) ==> (Matches(Scoped(w, t), r) <==> r.tenant == t && Matches(w, r))
    {
      ScopedMatches(w, t, r);
    }
    FilterTwice(rows, OwnedBy(t), Matching(Unscoped(w)), Matching(Scoped(w, t)));
    if Admits(w, t) {
      FilterTwice(rows, OwnedBy(t), Matching(w), Matching(Scoped(w, t)));
    }
  }

  /** A filter that excludes the caller's own tenant: the plain search of the private table finds
      nothing, the wrapper ignores the exclusion. They agree exactly when nothing matches the rest. */
  lemma ExcludedTenantIgnored(rows: seq<Row>, w: Where, t: TenantId)
    requires !Admits(w, t)
    ensures FindMany(Partition(rows, t), w) == []
    ensures FindMany(rows, Scoped(w, t)) == FindMany(Partition(rows, t), w)
      <==> FindMany(Partition(rows, t), Unscoped(w)) == []
  {
    ScopedSearch(rows, w, t);
    FilterMembers(rows, OwnedBy(t));
    forall i | 0 <= i < |Partition(rows, t)|
      ensures !Matches(w, Partition(rows, t)[i])
    {
      assert Partition(rows, t)[i] in Partition(rows, t);
      ScopedMatches(w, t, Partition(rows, t)[i]);
    }
    FilterNothing(Partition(rows, t), Matching(w));
  }

  // ---------------------------------------------------------------- writes and partitions

  /** `w` on the shared table and `v` on the private one select the same rows of tenant `t`. */
  ghost predicate SameFor(w: Where, v: Where, t: TenantId)
  {
    forall r: Row :: r.tenant == t ==> (Matches(w, r) <==> Matches(v, r))
  }

  lemma {:induction false} UpdatePartition(rows: seq<Row>, w: Where, v: Where, data: Data, t: TenantId)
    requires SameFor(w, v, t)
    ensures Partition(UpdateMany(rows, w, data), t) == UpdateMany(Partition(rows, t), v, data)
  {
    if rows == [] {
    } else {
      var n := |rows| - 1;
      var last := if Matches(w, rows[n]) then Written(rows[n], data) else rows[n];
      UpdatePartition(rows[..n], w, v, data, t);
      FilterAppend(UpdateMany(rows[..n], w, data), last, OwnedBy(t));
      UpdateAppend(Partition(rows[..n], t), rows[n], v, data);
    }
  }

  lemma {:induction false} UpdateLength(rows: seq<Row>, w: Where, data: Data)
    ensures |UpdateMany(rows, w, data)| == |rows|
    ensures forall i :: 0 <= i < |rows| ==>
      UpdateMany(rows, w, data)[i] == if Matches(w, rows[i]) then Written(rows[i], data) else rows[i]
  {
    if rows == [] {
    } else {
      UpdateLength(rows[..|rows| - 1], w, data);
    }
  }

  lemma {:induction false} DeletePartition(rows: seq<Row>, w: Where, v: Where, t: TenantId)
    requires SameFor(w, v, t)
    ensures Partition(DeleteMany(rows, w), t) == DeleteMany(Partition(rows, t), v)
  {
    if rows == [] {
    } else {
      var n := |rows| - 1;
      DeletePartition(rows[..n], w, v, t);
      FilterAppend(DeleteMany(rows[..n], w), rows[n], OwnedBy(t));
      FilterAppend(Partition(rows[..n], t), rows[n], NotMatching(v));
    }
  }

  lemma {:induction false} CreatePartition(rows: seq<Row>, news: seq<NewRow>, t: TenantId, o: TenantId)
    ensures Partition(CreateMany(rows, t, news), o) ==
      if o == t then CreateMany(Partition(rows, t), t, news) else Partition(rows, o)
  {
    if news == [] {
    } else {
      var n := |news| - 1;
      CreatePartition(rows, news[..n], t, o);
      var now := CreateMany(rows, t, news);
      assert now[..|now| - 1] == CreateMany(rows, t, news[..n]);
    }
  }

  /** Ids are unique in a table: the primary key. */
  predicate UniqueIds(rows: seq<Row>)
  {
    forall i, j :: 0 <= i < j < |rows| ==> rows[i].id != rows[j].id
  }

  /** A unique index on a field: no two rows hold the same value. */
  predicate UniqueField(rows: seq<Row>, name: string)
  {
    forall i, j :: 0 <= i < j < |rows| && Field(rows[i], name).Some? ==> Field(rows[i], name) != Field(rows[j], name)
  }

  lemma IdIsUnique(rows: seq<Row>)
    requires UniqueIds(rows)
    ensures UniqueField(rows, "id")
  {
  }

  /** The filter names a row by a value of the given field. */
  predicate KeyedBy(w: Where, name: string)
  {
    name in w.fields && w.fields[name].Equals?
  }

  lemma KeyedMatch(w: Where, name: string, r: Row)
    requires KeyedBy(w, name) && Matches(w, r)
    ensures Field(r, name) == Some(w.fields[name].v)
  {
    assert Holds(w.fields[name], Field(r, name));
  }

  /** When the scoped look-up of a filter with a unique key finds a row, only rows of the tenant match
      the caller's own filter; unless the key is tenantId, which the look-up overwrites. */
  lemma OnlyOwnRowMatches(rows: seq<Row>, w: Where, name: string, t: TenantId, i: nat)
    requires UniqueField(rows, name) && KeyedBy(w, name) && name != "tenantId"
    requires i < |rows| && Matches(w, rows[i]) && FindMany(rows, Scoped(w, t)) != []
    ensures rows[i].tenant == t
  {
    var j := FoundRow(rows, Scoped(w, t));
    KeyedMatch(Scoped(w, t), name, rows[j]);
    KeyedMatch(w, name, rows[i]);
    ScopedMatches(w, t, rows[j]);
    assert Field(rows[i], name) == Field(rows[j], name);
  }

  lemma {:induction false} PartitionMembers(rows: seq<Row>, t: TenantId, w: Where)
    requires FindMany(Partition(rows, t), w) != []
    ensures exists i :: 0 <= i < |rows| && rows[i].tenant == t && Matches(w, rows[i])
    ensures FindMany(rows, w) != []
  {
    FilterMembers(rows, OwnedBy(t));
    FilterMembers(Partition(rows, t), Matching(w));
    FilterMembers(rows, Matching(w));
    var r := FindMany(Partition(rows, t), w)[0];
    assert r in FindMany(Partition(rows, t), w);
    var i :| 0 <= i < |rows| && rows[i] == r;
    assert r in FindMany(rows, w);
  }

  lemma FoundRow(rows: seq<Row>, w: Where) returns (i: nat)
    requires FindMany(rows, w) != []
    ensures i < |rows| && Matches(w, rows[i])
  {
    FilterMembers(rows, Matching(w));
    var r := FindMany(rows, w)[0];
    assert r in FindMany(rows, w);
    i :| 0 <= i < |rows| && rows[i] == r;
  }

  lemma RowFound(rows: seq<Row>, w: Where, t: TenantId, i: nat)
    requires i < |rows| && Matches(w, rows[i])
    ensures FindMany(rows, w) != []
    ensures rows[i].tenant == t ==> FindMany(Partition(rows, t), w) != []
  {
    FilterMembers(rows, Matching(w));
    FilterMembers(rows, OwnedBy(t));
    FilterMembers(Partition(rows, t), Matching(w));
    assert rows[i] in FindMany(rows, w);
    assert rows[i].tenant == t ==> rows[i] in FindMany(Partition(rows, t), w);
  }

  /** Where a filter with a unique key finds anything: the wrapper's two look-ups together succeed
      exactly when the plain look-up of the private table does. */
  lemma KeyedLookup(rows: seq<Row>, w: Where, name: string, t: TenantId)
    requires UniqueField(rows, name) && KeyedBy(w, name) && (name != "tenantId" || Admits(w, t))
    ensures FindMany(Partition(rows, t), w) != [] <==> FindMany(rows, Scoped(w, t)) != [] && FindMany(rows, w) != []
  {
    if FindMany(Partition(rows, t), w) != [] {
      PartitionMembers(rows, t, w);
      var i: nat :| i < |rows| && rows[i].tenant == t && Matches(w, rows[i]);
      ScopedMatches(w, t, rows[i]);
      RowFound(rows, Scoped(w, t), t, i);
    }
    if FindMany(rows, Scoped(w, t)) != [] && FindMany(rows, w) != [] {
      var i := FoundRow(rows, w);
      MatchIsOwn(rows, w, name, t, i);
      RowFound(rows, w, t, i);
    }
  }

  lemma MatchIsOwn(rows: seq<Row>, w: Where, name: string, t: TenantId, i: nat)
    requires UniqueField(rows, name) && KeyedBy(w, name) && (name != "tenantId" || Admits(w, t))
    requires i < |rows| && Matches(w, rows[i]) && FindMany(rows, Scoped(w, t)) != []
    ensures rows[i].tenant == t
  {
    if name != "tenantId" {
      OnlyOwnRowMatches(rows, w, name, t, i);
    } else {
      KeyedMatch(w, name, rows[i]);
    }
  }

  // ---------------------------------------------------------------- refinement

  /** From `before` to `now` with `answer`, the operation went as the plain one would on the rows of the
      actor's tenant alone, and touched the rows of no other tenant. */
  ghost predicate Isolated(before: seq<Row>, now: seq<Row>, answer: Answer, model: string, actor: Actor, op: Op)
  {
    && (Partition(now, actor.tenant), answer) ==
       Plain(Partition(before, actor.tenant), actor.tenant, Stamped(model, actor, op))
    && forall o :: o != actor.tenant ==> Partition(now, o) == Partition(before, o)
  }

  ghost predicate Refines(rows: seq<Row>, model: string, actor: Actor, op: Op)
  {
    var (now, answer) := Wrapped(rows, model, actor, op);
    Isolated(rows, now, answer, model, actor, op)
  }

  lemma ScopedSame(w: Where, t: TenantId, o: TenantId)
    requires Admits(w, t)
    ensures SameFor(Scoped(w, t), w, t)
    ensures o != t ==> forall r: Row :: r.tenant == o ==> !Matches(Scoped(w, t), r)
  {
    forall r: Row
      ensures Matches(Scoped(w, t), r) <==> r.tenant == t && Matches(w, r)
    {
      ScopedMatches(w, t, r);
    }
  }

  lemma ForeignUntouched(rows: seq<Row>, w: Where, data: Data, o: TenantId)
    requires forall i :: 0 <= i < |rows| && rows[i].tenant == o ==> !Matches(w, rows[i])
    ensures Partition(UpdateMany(rows, w, data), o) == Partition(rows, o)
    ensures Partition(DeleteMany(rows, w), o) == Partition(rows, o)
  {
    UpdateForeign(rows, w, data, o);
    DeleteForeign(rows, w, o);
  }

  lemma {:induction false} UpdateForeign(rows: seq<Row>, w: Where, data: Data, o: TenantId)
    requires forall i :: 0 <= i < |rows| && rows[i].tenant == o ==> !Matches(w, rows[i])
    ensures Partition(UpdateMany(rows, w, data), o) == Partition(rows, o)
  {
    if rows == [] {
    } else {
      var n := |rows| - 1;
      var last := if Matches(w, rows[n]) then Written(rows[n], data) else rows[n];
      UpdateForeign(rows[..n], w, data, o);
      FilterAppend(UpdateMany(rows[..n], w, data), last, OwnedBy(o));
    }
  }

  lemma {:induction false} DeleteForeign(rows: seq<Row>, w: Where, o: TenantId)
    requires forall i :: 0 <= i < |rows| && rows[i].tenant == o ==> !Matches(w, rows[i])
    ensures Partition(DeleteMany(rows, w), o) == Partition(rows, o)
  {
    if rows == [] {
    } else {
      var n := |rows| - 1;
      DeleteForeign(rows[..n], w, o);
      FilterAppend(DeleteMany(rows[..n], w), rows[n], OwnedBy(o));
    }
  }

  lemma ManyRefines(rows: seq<Row>, model: string, actor: Actor, op: Op)
    requires model in TENANTED && (op.Read? || op.UpdateAll? || op.DeleteAll?) && Admits(op.w, actor.tenant)
    ensures Refines(rows, model, actor, op)
  {
    var t, w := actor.tenant, op.w;
    ScopedSearch(rows, w, t);
    ScopedSame(w, t, t);
    var data := if op.UpdateAll? then StampUpdate(model, actor, op.data) else Data(map[], None, None);
    UpdatePartition(rows, Scoped(w, t), w, data, t);
    DeletePartition(rows, Scoped(w, t), w, t);
    forall o | o != t
      ensures Partition(UpdateMany(rows, Scoped(w, t), data), o) == Partition(rows, o)
      ensures Partition(DeleteMany(rows, Scoped(w, t)), o) == Partition(rows, o)
    {
      ScopedSame(w, t, o);
      ForeignUntouched(rows, Scoped(w, t), data, o);
    }
  }

  lemma {:induction false} NothingChanges(rows: seq<Row>, w: Where, data: Data)
    requires FindMany(rows, w) == []
    ensures UpdateMany(rows, w, data) == rows && DeleteMany(rows, w) == rows
  {
    if rows == [] {
    } else {
      var n := |rows| - 1;
      assert !Matches(w, rows[n]) && FindMany(rows[..n], w) == [];
      NothingChanges(rows[..n], w, data);
      assert rows == rows[..n] + [rows[n]];
    }
  }

  /** The filter matches no row of the tenant, its own top-level tenantId condition aside. */
  predicate SelectsNothing(rows: seq<Row>, w: Where, t: TenantId)
  {
    FindMany(Partition(rows, t), Unscoped(w)) == []
  }

  /** A filter that excludes the actor's own tenant but matches none of its rows anyway. */
  lemma EmptyRefines(rows: seq<Row>, model: string, actor: Actor, op: Op)
    requires model in TENANTED && (op.Read? || op.UpdateAll? || op.DeleteAll?)
    requires !Admits(op.w, actor.tenant) && SelectsNothing(rows, op.w, actor.tenant)
    ensures Refines(rows, model, actor, op)
  {
    var t, w := actor.tenant, op.w;
    ExcludedTenantIgnored(rows, w, t);
    var data := if op.UpdateAll? then StampUpdate(model, actor, op.data) else Data(map[], None, None);
    NothingChanges(rows, Scoped(w, t), data);
    NothingChanges(Partition(rows, t), w, data);
  }

  /** Whether the answer tells how many rows there were: all but the sums, which can agree by chance. */
  predicate Tells(op: Op)
  {
    op.Read? ==> !op.reading.SumOf? && !op.reading.CountBy?
  }

  /** Reads and the operations on many rows refine the plain ones if the filter admits the actor's tenant
      or selects nothing of it; and, where the answer tells, exactly then. */
  lemma FilteredRefines(rows: seq<Row>, model: string, actor: Actor, op: Op)
    requires model in TENANTED && (op.Read? || op.UpdateAll? || op.DeleteAll?)
    ensures Admits(op.w, actor.tenant) || SelectsNothing(rows, op.w, actor.tenant) ==> Refines(rows, model, actor, op)
    ensures Tells(op) && Refines(rows, model, actor, op) ==>
      Admits(op.w, actor.tenant) || SelectsNothing(rows, op.w, actor.tenant)
  {
    if Admits(op.w, actor.tenant) {
      ManyRefines(rows, model, actor, op);
    } else if SelectsNothing(rows, op.w, actor.tenant) {
      EmptyRefines(rows, model, actor, op);
    } else {
      ScopedSearch(rows, op.w, actor.tenant);
      ExcludedTenantIgnored(rows, op.w, actor.tenant);
    }
  }

  lemma CreateRefines(rows: seq<Row>, model: string, actor: Actor, news: seq<NewRow>)
    requires model in TENANTED
    ensures Refines(rows, model, actor, Create(news))
  {
    var stamped := StampNews(model, actor, news);
    CreatePartition(rows, stamped, actor.tenant, actor.tenant);
    forall o | o != actor.tenant
      ensures Partition(CreateMany(rows, actor.tenant, stamped), o) == Partition(rows, o)
    {
      CreatePartition(rows, stamped, actor.tenant, o);
    }
  }

  lemma OwnKeyRefines(rows: seq<Row>, model: string, actor: Actor, op: Op, name: string)
    requires model in TENANTED && (op.Update? || op.Delete?) && UniqueField(rows, name) && KeyedBy(op.w, name)
    requires name != "tenantId" || Admits(op.w, actor.tenant)
    ensures Refines(rows, model, actor, op)
  {
    var t, w := actor.tenant, op.w;
    KeyedLookup(rows, w, name, t);
    if FindMany(rows, Scoped(w, t)) != [] {
      var data := if op.Update? then StampUpdate(model, actor, op.data) else Data(map[], None, None);
      UpdatePartition(rows, w, w, data, t);
      DeletePartition(rows, w, w, t);
      forall o | o != t
        ensures Partition(UpdateMany(rows, w, data), o) == Partition(rows, o)
        ensures Partition(DeleteMany(rows, w), o) == Partition(rows, o)
      {
        forall i | 0 <= i < |rows| && rows[i].tenant == o
          ensures !Matches(w, rows[i])
        {
          if Matches(w, rows[i]) {
            MatchIsOwn(rows, w, name, t, i);
          }
        }
        ForeignUntouched(rows, w, data, o);
      }
    }
  }

  /** One of the two look-ups of an update or delete finds nothing, so that it fails. */
  predicate FindsNothing(rows: seq<Row>, w: Where, t: TenantId)
  {
    FindMany(rows, Scoped(w, t)) == [] || FindMany(rows, w) == []
  }

  /** With a key of somebody else's tenant the wrapped operation refines the plain one exactly when it
      fails: the plain one finds no such row of its own. */
  lemma ForeignTenantKey(rows: seq<Row>, model: string, actor: Actor, op: Op)
    requires model in TENANTED && (op.Update? || op.Delete?) && !Admits(op.w, actor.tenant)
    ensures Refines(rows, model, actor, op) <==> FindsNothing(rows, op.w, actor.tenant)
  {
    ExcludedTenantIgnored(rows, op.w, actor.tenant);
  }

  /** Update and delete by a unique key refine the plain operation for every key but tenantId; and for
      a tenantId key exactly when it admits the actor's own tenant or the operation fails. */
  lemma KeyedRefines(rows: seq<Row>, model: string, actor: Actor, op: Op, name: string)
    requires model in TENANTED && (op.Update? || op.Delete?) && UniqueField(rows, name) && KeyedBy(op.w, name)
    ensures Refines(rows, model, actor, op) <==>
      name != "tenantId" || Admits(op.w, actor.tenant) || FindsNothing(rows, op.w, actor.tenant)
  {
    if name != "tenantId" || Admits(op.w, actor.tenant) {
      OwnKeyRefines(rows, model, actor, op, name);
    } else {
      ForeignTenantKey(rows, model, actor, op);
    }
  }

  /** What callers are assumed to do: update and delete name a row by a unique field, and by tenantId
      only their own tenant's; the other filters do not exclude their own tenant, or select nothing. */
  predicate KeySuits(rows: seq<Row>, w: Where, t: TenantId, name: string)
  {
    UniqueField(rows, name) && KeyedBy(w, name) && (name != "tenantId" || Admits(w, t) || FindsNothing(rows, w, t))
  }

  ghost predicate Proper(rows: seq<Row>, op: Op, t: TenantId)
  {
    match op
    case Create(_) => true
    case Update(w, _) => exists name :: KeySuits(rows, w, t, name)
    case Delete(w) => exists name :: KeySuits(rows, w, t, name)
    case _ => Admits(op.w, t) || SelectsNothing(rows, op.w, t)
  }

  /** Every wrapped operation on a tenanted model answers as the plain one would on the tenant's rows
      alone, leaves the tenant with exactly the rows the plain one would leave, stamps included, and
      leaves every other tenant's rows as they were. */
  lemma WrapperRefines(rows: seq<Row>, model: string, actor: Actor, op: Op)
    requires model in TENANTED && Proper(rows, op, actor.tenant)
    ensures Refines(rows, model, actor, op)
  {
    match op
    case Create(news) => CreateRefines(rows, model, actor, news);
    case Update(w, _) =>
      var name :| KeySuits(rows, w, actor.tenant, name);
      KeyedRefines(rows, model, actor, op, name);
    case Delete(w) =>
      var name :| KeySuits(rows, w, actor.tenant, name);
      KeyedRefines(rows, model, actor, op, name);
    case _ => FilteredRefines(rows, model, actor, op);
  }

  // ---------------------------------------------------------------- where isolation ends

  const BY_TENANT_A := Where(map["tenantId" := Equals(Text("a"))], [])

  function Settings(id: nat, t: TenantId): Row
  {
    Row(id, t, None, None, map["taxRate" := Number(12)])
  }

  lemma TwoTenants(p: Row -> bool)
    ensures
      var a, b := Settings(0, "a"), Settings(1, "b");
      Filter([a, b], p) == (if p(a) then [a] else []) + if p(b) then [b] else []
  {
    var a, b := Settings(0, "a"), Settings(1, "b");
    FilterAppend([], a, p);
    FilterAppend([a], b, p);
    assert [] + [a] == [a] && [a] + [b] == [a, b];
  }

  lemma ForeignKeyMatches()
    ensures
      var a, b := Settings(0, "a"), Settings(1, "b");
      && Matches(BY_TENANT_A, a) && !Matches(BY_TENANT_A, b)
      && !Matches(Scoped(BY_TENANT_A, "b"), a) && Matches(Scoped(BY_TENANT_A, "b"), b)
  {
    var a, b := Settings(0, "a"), Settings(1, "b");
    var w := BY_TENANT_A;
    assert "tenantId" in w.fields && Field(a, "tenantId") == Some(Text("a")) && Field(b, "tenantId") == Some(Text("b"));
    ScopedMatches(w, "b", a);
    ScopedMatches(w, "b", b);
    assert w.fields - {"tenantId"} == map[];
    assert Matches(Unscoped(w), b);
  }

  lemma SettingsUpdated(data: Data)
    ensures
      var a, b := Settings(0, "a"), Settings(1, "b");
      UpdateMany([a, b], BY_TENANT_A, data) == [Written(a, data), b]
  {
    var a, b := Settings(0, "a"), Settings(1, "b");
    ForeignKeyMatches();
    UpdateAppend([], a, BY_TENANT_A, data);
    UpdateAppend([a], b, BY_TENANT_A, data);
    assert [] + [a] == [a] && [a] + [b] == [a, b];
  }

  lemma FirstIsOwn(a: Row, b: Row)
    requires a.tenant == "a" && b.tenant == "b"
    ensures Partition([a, b], "a") == [a]
  {
    FilterAppend([], a, OwnedBy("a"));
    FilterAppend([a], b, OwnedBy("a"));
    assert [] + [a] == [a] && [a] + [b] == [a, b];
  }

  lemma TaxRateWritten(data: Data)
    requires data.cols == map["taxRate" := Number(0)]
    ensures Written(Settings(0, "a"), data) != Settings(0, "a")
  {
    assert Written(Settings(0, "a"), data).cols["taxRate"] == Number(0);
    assert Settings(0, "a").cols["taxRate"] == Number(12);
  }

  /** Tenant b updates the settings of tenant a, whose id it gives as the key. */
  lemma ForeignUpdate(data: Data)
    requires data.cols == map["taxRate" := Number(0)]
    ensures
      var a, b := Settings(0, "a"), Settings(1, "b");
      var (now, answer) := Wrapped([a, b], "TenantSettings", Actor("b", None), Update(BY_TENANT_A, data));
      && answer == Changed(1) && now == [Written(a, data), b] && Partition(now, "a") != Partition([a, b], "a")
  {
    ForeignKeyMatches();
    TwoTenants(Matching(BY_TENANT_A));
    TwoTenants(Matching(Scoped(BY_TENANT_A, "b")));
    SettingsUpdated(data);
    TaxRateWritten(data);
    var a, b := Settings(0, "a"), Settings(1, "b");
    FirstIsOwn(a, b);
    FirstIsOwn(Written(a, data), b);
  }

  /** Tenant b deletes the settings of tenant a the same way. */
  lemma ForeignDelete()
    ensures
      var a, b := Settings(0, "a"), Settings(1, "b");
      var (now, answer) := Wrapped([a, b], "TenantSettings", Actor("b", None), Delete(BY_TENANT_A));
      answer == Changed(1) && now == [b] && Partition([a, b], "a") == [a] && Partition(now, "a") == []
  {
    var a, b := Settings(0, "a"), Settings(1, "b");
    var w := BY_TENANT_A;
    ForeignKeyMatches();
    TwoTenants(Matching(w));
    TwoTenants(NotMatching(w));
    TwoTenants(Matching(Scoped(w, "b")));
    TwoTenants(OwnedBy("a"));
    assert [b][..0] == [];
  }

  /** A search that excludes the caller's own tenant returns that tenant's rows. */
  lemma ExclusionReturnsRows()
    ensures
      var a, b := Settings(0, "a"), Settings(1, "b");
      var w := Where(map["tenantId" := IsNot(Equals(Text("b")))], []);
      && !Admits(w, "b") && FindMany(Partition([a, b], "b"), w) == []
      && Wrapped([a, b], "TenantSettings", Actor("b", None), Read(Many, w)).1 == Rows([b])
  {
    var a, b := Settings(0, "a"), Settings(1, "b");
    var w := Where(map["tenantId" := IsNot(Equals(Text("b")))], []);
    assert !Admits(w, "b");
    ExcludedTenantIgnored([a, b], w, "b");
    ScopedMatches(w, "b", a);
    ScopedMatches(w, "b", b);
    assert w.fields - {"tenantId"} == map[];
    assert Matches(Unscoped(w), b);
    TwoTenants(Matching(Scoped(w, "b")));
  }

  // ---------------------------------------------------------------- the shared table

  lemma ScopedTwice(w: Where, t: TenantId)
    ensures Scoped(Unscoped(w), t) == Scoped(w, t) && Admits(Unscoped(w), t)
  {
    assert Scoped(Unscoped(w), t).fields == Scoped(w, t).fields;
  }

  class SharedTable {
    var rows: seq<Row>
    const model: string

    predicate Valid()
    {
      model in TENANTED
    }

    constructor (name: string)
      requires name in TENANTED
      ensures Valid() && rows == [] && model == name
    {
      rows, model := [], name;
    }

    /** Whatever the filter, a read answers from the tenant's own rows; only a top-level tenantId
        condition of the caller is dropped. */
    method FindRows(actor: Actor, reading: Reading, w: Where) returns (answer: Answer)
      requires Valid()
      ensures Isolated(rows, rows, answer, model, actor, Read(reading, Unscoped(w)))
    {
      ScopedTwice(w, actor.tenant);
      WrapperRefines(rows, model, actor, Read(reading, Unscoped(w)));
      return Present(reading, FindMany(rows, w.(fields := w.fields["tenantId" := Equals(Text(actor.tenant))])));
    }

    method CreateRows(actor: Actor, news: seq<NewRow>) returns (answer: Answer)
      requires Valid()
      modifies this
      ensures Isolated(old(rows), rows, answer, model, actor, Create(news))
    {
      ghost var stamped := StampNews(model, actor, news);
      for i := 0 to |news|
        invariant rows == CreateMany(old(rows), actor.tenant, stamped[..i])
      {
        assert stamped[..i + 1][..i] == stamped[..i];
        var data := news[i].data;
        if actor.user.Some? && model in WITH_CREATED_BY {
          data := data.(createdBy := actor.user);
        }
        if actor.user.Some? && model in WITH_UPDATED_BY {
          data := data.(updatedBy := actor.user);
        }
        rows := rows + [Row(news[i].id, actor.tenant, data.createdBy, data.updatedBy, data.cols)];
      }
      assert stamped[..|news|] == stamped;
      CreateRefines(old(rows), model, actor, news);
      return Changed(|news|);
    }

    /** Isolated for every unique key but a foreign tenantId. */
    method UpdateRow(actor: Actor, w: Where, data: Data, ghost name: string) returns (answer: Answer)
      requires Valid() && UniqueField(rows, name) && KeyedBy(w, name)
      modifies this
      ensures Isolated(old(rows), rows, answer, model, actor, Update(w, data)) <==>
        name != "tenantId" || Admits(w, actor.tenant) || FindsNothing(old(rows), w, actor.tenant)
    {
      KeyedRefines(rows, model, actor, Update(w, data), name);
      if FindMany(rows, Scoped(w, actor.tenant)) == [] { return RecordNotFound; }
      if FindMany(rows, w) == [] { return RecordNotFound; }
      rows := UpdateMany(rows, w, StampUpdate(model, actor, data));
      return Changed(1);
    }

    method UpdateRows(actor: Actor, w: Where, data: Data) returns (answer: Answer)
      requires Valid()
      modifies this
      ensures Isolated(old(rows), rows, answer, model, actor, UpdateAll(Unscoped(w), data))
    {
      ScopedTwice(w, actor.tenant);
      WrapperRefines(rows, model, actor, UpdateAll(Unscoped(w), data));
      var scoped := Scoped(w, actor.tenant);
      var count := |FindMany(rows, scoped)|;
      rows := UpdateMany(rows, scoped, StampUpdate(model, actor, data));
      return Changed(count);
    }

    /** Isolated for every unique key but a foreign tenantId. */
    method DeleteRow(actor: Actor, w: Where, ghost name: string) returns (answer: Answer)
      requires Valid() && UniqueField(rows, name) && KeyedBy(w, name)
      modifies this
      ensures Isolated(old(rows), rows, answer, model, actor, Delete(w)) <==>
        name != "tenantId" || Admits(w, actor.tenant) || FindsNothing(old(rows), w, actor.tenant)
    {
      KeyedRefines(rows, model, actor, Delete(w), name);
      if FindMany(rows, Scoped(w, actor.tenant)) == [] { return RecordNotFound; }
      if FindMany(rows, w) == [] { return RecordNotFound; }
      rows := DeleteMany(rows, w);
      return Changed(1);
    }

    method DeleteRows(actor: Actor, w: Where) returns (answer: Answer)
      requires Valid()
      modifies this
      ensures Isolated(old(rows), rows, answer, model, actor, DeleteAll(Unscoped(w)))
    {
      ScopedTwice(w, actor.tenant);
      WrapperRefines(rows, model, actor, DeleteAll(Unscoped(w)));
      var scoped := Scoped(w, actor.tenant);
      var count := |FindMany(rows, scoped)|;
      rows := DeleteMany(rows, scoped);
      return Changed(count);
    }
  }

  // ---------------------------------------------------------------- runs of many tenants

  datatype Call = Call(actor: Actor, op: Op)

  /** New ids are new to the whole table, as generated ids are. */
  predicate FreshIds(rows: seq<Row>, op: Op)
  {
    op.Create? ==>
      && (forall i, j :: 0 <= i < j < |op.news| ==> op.news[i].id != op.news[j].id)
      && (forall i, j :: 0 <= i < |op.news| && 0 <= j < |rows| ==> op.news[i].id != rows[j].id)
  }

  function After(rows: seq<Row>, model: string, calls: seq<Call>): seq<Row>
  {
    if calls == [] then rows
    else
      var last := calls[|calls| - 1];
      Wrapped(After(rows, model, calls[..|calls| - 1]), model, last.actor, last.op).0
  }

  /** Every call of the run is proper in the state before it. */
  ghost predicate ProperRun(rows: seq<Row>, model: string, calls: seq<Call>)
  {
    calls != [] ==>
      var init, last := calls[..|calls| - 1], calls[|calls| - 1];
      ProperRun(rows, model, init) && Proper(After(rows, model, init), last.op, last.actor.tenant)
  }

  /** A call as most are: update and delete by id, and filters that admit the actor's tenant. */
  predicate Ordinary(op: Op, t: TenantId)
  {
    match op
    case Create(_) => true
    case Update(w, _) => KeyedBy(w, "id")
    case Delete(w) => KeyedBy(w, "id")
    case _ => Admits(op.w, t)
  }

  /** Ordinary calls, whose new ids are new. */
  predicate OrdinaryRun(rows: seq<Row>, model: string, calls: seq<Call>)
  {
    calls != [] ==>
      var init, last := calls[..|calls| - 1], calls[|calls| - 1];
      && OrdinaryRun(rows, model, init)
      && Ordinary(last.op, last.actor.tenant) && FreshIds(After(rows, model, init), last.op)
  }

  /** The answers tenant `t` gets in a run on the shared table. */
  function Answers(rows: seq<Row>, model: string, calls: seq<Call>, t: TenantId): seq<Answer>
  {
    if calls == [] then []
    else
      var init, last := calls[..|calls| - 1], calls[|calls| - 1];
      Answers(rows, model, init, t)
      + if last.actor.tenant == t then [Wrapped(After(rows, model, init), model, last.actor, last.op).1] else []
  }

  /** The same run for tenant `t` alone, on a private table. */
  function PrivateAfter(own: seq<Row>, model: string, calls: seq<Call>, t: TenantId): seq<Row>
  {
    if calls == [] then own
    else
      var init, last := calls[..|calls| - 1], calls[|calls| - 1];
      var now := PrivateAfter(own, model, init, t);
      if last.actor.tenant == t then Plain(now, t, Stamped(model, last.actor, last.op)).0 else now
  }

  function PrivateAnswers(own: seq<Row>, model: string, calls: seq<Call>, t: TenantId): seq<Answer>
  {
    if calls == [] then []
    else
      var init, last := calls[..|calls| - 1], calls[|calls| - 1];
      PrivateAnswers(own, model, init, t)
      + if last.actor.tenant == t
        then [Plain(PrivateAfter(own, model, init, t), t, Stamped(model, last.actor, last.op)).1] else []
  }

  lemma {:induction false} FilterUnique(rows: seq<Row>, p: Row -> bool)
    requires UniqueIds(rows)
    ensures UniqueIds(Filter(rows, p))
  {
    if rows == [] {
    } else {
      var n := |rows| - 1;
      FilterUnique(rows[..n], p);
      FilterMembers(rows[..n], p);
      forall i | 0 <= i < |Filter(rows[..n], p)|
        ensures Filter(rows[..n], p)[i].id != rows[n].id
      {
        assert Filter(rows[..n], p)[i] in rows[..n];
      }
    }
  }

  lemma {:induction false} CreatedIds(rows: seq<Row>, t: TenantId, news: seq<NewRow>)
    ensures |CreateMany(rows, t, news)| == |rows| + |news|
    ensures forall i :: 0 <= i < |rows| ==> CreateMany(rows, t, news)[i] == rows[i]
    ensures forall i :: 0 <= i < |news| ==> CreateMany(rows, t, news)[|rows| + i] == RowOf(t, news[i])
  {
    if news == [] {
    } else {
      CreatedIds(rows, t, news[..|news| - 1]);
    }
  }

  lemma CreateUnique(rows: seq<Row>, t: TenantId, news: seq<NewRow>)
    requires UniqueIds(rows) && FreshIds(rows, Create(news))
    ensures UniqueIds(CreateMany(rows, t, news))
  {
    CreatedIds(rows, t, news);
    var now := CreateMany(rows, t, news);
    forall i, j | 0 <= i < j < |now|
      ensures now[i].id != now[j].id
    {
      assert j >= |rows| ==> now[|rows| + (j - |rows|)] == RowOf(t, news[j - |rows|]);
      assert i >= |rows| ==> now[|rows| + (i - |rows|)] == RowOf(t, news[i - |rows|]);
    }
  }

  lemma WrappedUnique(rows: seq<Row>, model: string, actor: Actor, op: Op)
    requires model in TENANTED && UniqueIds(rows) && FreshIds(rows, op)
    ensures UniqueIds(Wrapped(rows, model, actor, op).0)
  {
    var t := actor.tenant;
    match Stamped(model, actor, op)
    case Create(news) => CreateUnique(rows, t, news);
    case Update(w, data) => UpdateLength(rows, w, data);
    case UpdateAll(w, data) => UpdateLength(rows, Scoped(w, t), data);
    case Delete(w) => FilterUnique(rows, NotMatching(w));
    case DeleteAll(w) => FilterUnique(rows, NotMatching(Scoped(w, t)));
    case Read(_, _) =>
  }

  /** Isolation over every run: whatever other tenants do in between, a tenant gets the answers,
      and is left with the rows, of a run of its own calls on a private table. */
  lemma {:induction false} RunsAreIsolated(rows: seq<Row>, model: string, calls: seq<Call>, t: TenantId)
    requires model in TENANTED && ProperRun(rows, model, calls)
    ensures Partition(After(rows, model, calls), t) == PrivateAfter(Partition(rows, t), model, calls, t)
    ensures Answers(rows, model, calls, t) == PrivateAnswers(Partition(rows, t), model, calls, t)
  {
    if calls == [] {
    } else {
      var init, last := calls[..|calls| - 1], calls[|calls| - 1];
      RunsAreIsolated(rows, model, init, t);
      WrapperRefines(After(rows, model, init), model, last.actor, last.op);
    }
  }

  lemma OrdinaryIsProper(rows: seq<Row>, op: Op, t: TenantId)
    requires UniqueIds(rows) && Ordinary(op, t)
    ensures Proper(rows, op, t)
  {
    IdIsUnique(rows);
    if op.Update? || op.Delete? {
      assert KeySuits(rows, op.w, t, "id");
    }
  }

  /** The primary key of the first state is enough for ordinary calls: ids stay unique, and every call is
      proper in its state. */
  lemma {:induction false} OrdinaryRunsAreProper(rows: seq<Row>, model: string, calls: seq<Call>)
    requires model in TENANTED && UniqueIds(rows) && OrdinaryRun(rows, model, calls)
    ensures UniqueIds(After(rows, model, calls)) && ProperRun(rows, model, calls)
  {
    if calls == [] {
    } else {
      var init, last := calls[..|calls| - 1], calls[|calls| - 1];
      OrdinaryRunsAreProper(rows, model, init);
      WrappedUnique(After(rows, model, init), model, last.actor, last.op);
      OrdinaryIsProper(After(rows, model, init), last.op, last.actor.tenant);
    }
  }

  /** So ordinary runs are isolated with nothing assumed but unique ids at the start and new ids for new
      rows. */
  lemma OrdinaryRunsAreIsolated(rows: seq<Row>, model: string, calls: seq<Call>, t: TenantId)
    requires model in TENANTED && UniqueIds(rows) && OrdinaryRun(rows, model, calls)
    ensures Partition(After(rows, model, calls), t) == PrivateAfter(Partition(rows, t), model, calls, t)
    ensures Answers(rows, model, calls, t) == PrivateAnswers(Partition(rows, t), model, calls, t)
  {
    OrdinaryRunsAreProper(rows, model, calls);
    RunsAreIsolated(rows, model, calls, t);
  }

  // ---------------------------------------------------------------- what the rows then hold

  /** Every row a tenant creates carries its tenant id, its values, and its user where the model records
      one; the rows before it stay. */
  lemma CreatedRowsStamped(rows: seq<Row>, model: string, actor: Actor, news: seq<NewRow>, i: nat)
    requires model in TENANTED && i < |news|
    ensures
      var (now, answer) := Wrapped(rows, model, actor, Create(news));
      && answer == Changed(|news|) && |now| == |rows| + |news| && now[..|rows|] == rows
      && now[|rows| + i].tenant == actor.tenant && now[|rows| + i].id == news[i].id
      && now[|rows| + i].cols == news[i].data.cols
      && now[|rows| + i].createdBy ==
         (if actor.user.Some? && model in WITH_CREATED_BY then actor.user else news[i].data.createdBy)
      && now[|rows| + i].updatedBy ==
         (if actor.user.Some? && model in WITH_UPDATED_BY then actor.user else news[i].data.updatedBy)
  {
    var stamped := StampNews(model, actor, news);
    CreatedIds(rows, actor.tenant, stamped);
    assert CreateMany(rows, actor.tenant, stamped)[|rows| + i] == RowOf(actor.tenant, stamped[i]);
  }

  /** A row as an update of the actor leaves it: the values written over its own, the actor's user as the
      last to update it where the model records one, and the rest its own. */
  predicate UpdatedBy(before: Row, now: Row, model: string, actor: Actor, data: Data)
  {
    && now.id == before.id && now.tenant == before.tenant && now.cols == before.cols + data.cols
    && now.createdBy == (if data.createdBy.Some? then data.createdBy else before.createdBy)
    && now.updatedBy ==
       (if actor.user.Some? && model in WITH_UPDATED_BY then actor.user
        else if data.updatedBy.Some? then data.updatedBy else before.updatedBy)
  }

  /** The row is the tenant's own and matches the filter, its top-level tenantId condition aside. */
  predicate OwnMatch(w: Where, t: TenantId, r: Row)
  {
    r.tenant == t && Matches(Unscoped(w), r)
  }

  lemma FoundExactly(rows: seq<Row>, w: Where, t: TenantId)
    ensures FindMany(rows, w) != [] <==> exists i :: 0 <= i < |rows| && Matches(w, rows[i])
    ensures FindMany(rows, Scoped(w, t)) != [] <==> exists i :: 0 <= i < |rows| && OwnMatch(w, t, rows[i])
  {
    forall i: nat | i < |rows|
      ensures Matches(Scoped(w, t), rows[i]) <==> OwnMatch(w, t, rows[i])
    {
      ScopedMatches(w, t, rows[i]);
    }
    if FindMany(rows, w) != [] {
      var i := FoundRow(rows, w);
    }
    if FindMany(rows, Scoped(w, t)) != [] {
      var i := FoundRow(rows, Scoped(w, t));
      assert OwnMatch(w, t, rows[i]);
    }
    forall i: nat | i < |rows|
      ensures Matches(w, rows[i]) ==> FindMany(rows, w) != []
      ensures OwnMatch(w, t, rows[i]) ==> FindMany(rows, Scoped(w, t)) != []
    {
      if Matches(w, rows[i]) {
        RowFound(rows, w, t, i);
      }
      if OwnMatch(w, t, rows[i]) {
        RowFound(rows, Scoped(w, t), t, i);
      }
    }
  }

  /** An update succeeds exactly when some own row and some row at all match; it then writes the values and
      the actor's user into every row that matches and leaves the others, and otherwise all of them. */
  lemma UpdatedRowsStamped(rows: seq<Row>, model: string, actor: Actor, w: Where, data: Data)
    requires model in TENANTED
    ensures
      var (now, answer) := Wrapped(rows, model, actor, Update(w, data));
      && (answer == Changed(1) || answer == RecordNotFound)
      && (answer == Changed(1) <==>
          && (exists i :: 0 <= i < |rows| && OwnMatch(w, actor.tenant, rows[i]))
          && (exists i :: 0 <= i < |rows| && Matches(w, rows[i])))
      && |now| == |rows|
      && forall i :: 0 <= i < |rows| ==>
          if answer == Changed(1) && Matches(w, rows[i]) then UpdatedBy(rows[i], now[i], model, actor, data)
          else now[i] == rows[i]
  {
    FoundExactly(rows, w, actor.tenant);
    UpdateLength(rows, w, StampUpdate(model, actor, data));
  }

  /** An update of many rows writes the values and the actor's user into exactly the own rows that match,
      and tells how many there were. */
  lemma UpdatedAllRowsStamped(rows: seq<Row>, model: string, actor: Actor, w: Where, data: Data)
    requires model in TENANTED
    ensures
      var (now, answer) := Wrapped(rows, model, actor, UpdateAll(w, data));
      && |now| == |rows| && answer == Changed(CountOwn(rows, w, actor.tenant))
      && forall i :: 0 <= i < |rows| ==>
          if OwnMatch(w, actor.tenant, rows[i]) then UpdatedBy(rows[i], now[i], model, actor, data)
          else now[i] == rows[i]
  {
    var t := actor.tenant;
    UpdateLength(rows, Scoped(w, t), StampUpdate(model, actor, data));
    ScopedCount(rows, w, t);
    forall i: nat | i < |rows|
      ensures Matches(Scoped(w, t), rows[i]) <==> OwnMatch(w, t, rows[i])
    {
      ScopedMatches(w, t, rows[i]);
    }
  }

  /** How many of the rows are own and match. */
  function CountOwn(rows: seq<Row>, w: Where, t: TenantId): nat
  {
    if rows == [] then 0
    else CountOwn(rows[..|rows| - 1], w, t) + if OwnMatch(w, t, rows[|rows| - 1]) then 1 else 0
  }

  lemma {:induction false} ScopedCount(rows: seq<Row>, w: Where, t: TenantId)
    ensures |FindMany(rows, Scoped(w, t))| == CountOwn(rows, w, t)
    ensures |DeleteMany(rows, Scoped(w, t))| == |rows| - CountOwn(rows, w, t)
  {
    if rows == [] {
    } else {
      ScopedCount(rows[..|rows| - 1], w, t);
      ScopedMatches(w, t, rows[|rows| - 1]);
    }
  }

  /** A deletion succeeds exactly when an update would; it removes exactly the rows that match. */
  lemma DeletedRowsGone(rows: seq<Row>, model: string, actor: Actor, w: Where)
    requires model in TENANTED
    ensures
      var (now, answer) := Wrapped(rows, model, actor, Delete(w));
      && (answer == Changed(1) || (answer == RecordNotFound && now == rows))
      && (answer == Changed(1) <==>
          && (exists i :: 0 <= i < |rows| && OwnMatch(w, actor.tenant, rows[i]))
          && (exists i :: 0 <= i < |rows| && Matches(w, rows[i])))
      && (answer == Changed(1) ==> forall r :: r in now <==> r in rows && !Matches(w, r))
  {
    FoundExactly(rows, w, actor.tenant);
    FilterMembers(rows, NotMatching(w));
  }

  /** A deletion of many rows removes exactly the own rows that match, as many as it tells. */
  lemma DeletedAllRowsGone(rows: seq<Row>, model: string, actor: Actor, w: Where)
    requires model in TENANTED
    ensures
      var (now, answer) := Wrapped(rows, model, actor, DeleteAll(w));
      && answer == Changed(CountOwn(rows, w, actor.tenant)) && |now| == |rows| - CountOwn(rows, w, actor.tenant)
      && forall r :: r in now <==> r in rows && !OwnMatch(w, actor.tenant, r)
  {
    var t := actor.tenant;
    ScopedCount(rows, w, t);
    FilterMembers(rows, NotMatching(Scoped(w, t)));
    forall r: Row
      ensures Matches(Scoped(w, t), r) <==> OwnMatch(w, t, r)
    {
      ScopedMatches(w, t, r);
    }
  }

  /** A read finds exactly the own rows that match, as many as a count tells; a search for one row finds
      one of them, and none exactly when there is none. */
  lemma ReadRowsExactly(rows: seq<Row>, model: string, actor: Actor, w: Where)
    requires model in TENANTED
    ensures
      var many, count := Wrapped(rows, model, actor, Read(Many, w)).1, Wrapped(rows, model, actor, Read(Count, w)).1;
      && many.Rows? && (forall r :: r in many.rows <==> r in rows && OwnMatch(w, actor.tenant, r))
      && |many.rows| == CountOwn(rows, w, actor.tenant) && count == Amount(|many.rows|)
    ensures
      var first := Wrapped(rows, model, actor, Read(First, w)).1;
      && first.One? && first == Wrapped(rows, model, actor, Read(Unique, w)).1
      && (first.row.Some? ==> first.row.value in rows && OwnMatch(w, actor.tenant, first.row.value))
      && (first.row.None? <==> forall i :: 0 <= i < |rows| ==> !OwnMatch(w, actor.tenant, rows[i]))
  {
    var t := actor.tenant;
    ScopedCount(rows, w, t);
    FoundExactly(rows, w, t);
    var found := FindMany(rows, Scoped(w, t));
    FilterMembers(rows, Matching(Scoped(w, t)));
    forall r: Row
      ensures Matches(Scoped(w, t), r) <==> OwnMatch(w, t, r)
    {
      ScopedMatches(w, t, r);
    }
    if found != [] {
      assert found[0] in found;
    }
  }

  /** On a model without tenants, such as the parts used on tickets, a read finds the rows of every tenant
      and an update stamps nothing. */
  lemma OtherModelsPassThrough(rows: seq<Row>, actor: Actor, w: Where, data: Data)
    ensures
      var many := Wrapped(rows, "PartUsage", actor, Read(Many, w)).1;
      many.Rows? && forall r :: r in many.rows <==> r in rows && Matches(w, r)
    ensures
      var now := Wrapped(rows, "PartUsage", actor, UpdateAll(w, data)).0;
      && |now| == |rows|
      && forall i :: 0 <= i < |rows| ==>
          if Matches(w, rows[i]) then UpdatedBy(rows[i], now[i], "PartUsage", Actor(actor.tenant, None), data)
          else now[i] == rows[i]
  {
    FilterMembers(rows, Matching(w));
    UpdateLength(rows, w, data);
  }
}
