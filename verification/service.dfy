/**
 * The note service: for each kind, a list, create, update and delete handler
 * over that kind's table. The row store is a map from id to row per kind;
 * whether a statement throws is the input `storeFails`, and the fresh id and
 * creation time a create would take from `crypto.randomUUID` and `Date` are
 * inputs too.
 */
module Service {
  import opened Wire
  import opened Ordering

  type Table = map<Id, Row>

  /** A row has the shape of its kind's table. */
  predicate Fits(k: Kind, r: Row) {
    r.CalendarRow? <==> k == Calendar
  }

  /** Every row is stored under its own id and has its table's shape. */
  predicate WellFormed(k: Kind, t: Table) {
    forall id | id in t :: t[id].id == id && Fits(k, t[id])
  }

  /** The required-field check a create or update makes before touching the table. */
  predicate Accepts(k: Kind, b: Body) {
    TruthyText(b.text) && (k == Calendar ==> TruthyText(b.date) && TruthyNumber(b.person))
  }

  function RequiredMessage(k: Kind): string {
    if k == Calendar then "Text, date, and person are required" else "Text is required"
  }

  const NotFoundMessage := "Note not found"

  function ListFailure(k: Kind): string {
    "Failed to fetch " + Noun(k) + "s"
  }

  function HandlerFailure(verb: string, k: Kind): string {
    "Failed to " + verb + " " + Noun(k)
  }

  /** The row a create inserts: the body's fields under the minted id and time. */
  function NewRow(k: Kind, id: Id, b: Body, now: string): (r: Row)
    requires Accepts(k, b)
    ensures Fits(k, r)
    ensures r.id == id && r.text == b.text.value && r.createdAt == now
    ensures k == Calendar ==> r.date == b.date.value && r.person == b.person.value
  {
    if k == Calendar then CalendarRow(id, b.text.value, b.date.value, b.person.value, now)
    else Row(id, b.text.value, now)
  }

  /**
   * The row an update leaves: `text` replaced (and `date`, `person` for a
   * calendar row); `id` and `created_at` kept.
   */
  function Revised(k: Kind, r: Row, b: Body): (r': Row)
    requires Fits(k, r) && Accepts(k, b)
    ensures Fits(k, r')
    ensures r'.id == r.id && r'.createdAt == r.createdAt && r'.text == b.text.value
    ensures k == Calendar ==> r'.date == b.date.value && r'.person == b.person.value
  {
    match r
    case Row(id, _, createdAt) => Row(id, b.text.value, createdAt)
    case CalendarRow(id, _, _, _, createdAt) => CalendarRow(id, b.text.value, b.date.value, b.person.value, createdAt)
  }

  /** The fields an update echoes back: the path id and the body's fields, not a re-read row. */
  function EchoOf(k: Kind, id: Id, b: Body): Payload
    requires Accepts(k, b)
  {
    if k == Calendar then Echo(id, b.text.value, b.date, b.person)
    else Echo(id, b.text.value, None, None)
  }

  /**
   * `rows` holds every row of `t` exactly once and nothing else: a
   * permutation of the table's rows.
   */
  ghost predicate Enumerates(rows: seq<Row>, t: Table) {
    forall x: Row :: multiset(rows)[x] == if x.id in t && t[x.id] == x then 1 else 0
  }

  lemma RepeatCounted(rows: seq<Row>, i: nat, j: nat)
    requires i < j < |rows|
    ensures rows[i] == rows[j] ==> multiset(rows)[rows[i]] >= 2
  {
    if rows[i] == rows[j] {
      var x := rows[i];
      assert rows == rows[..i] + [x] + rows[i + 1..j] + [x] + rows[j + 1..];
    }
  }

  lemma EnumeratesMembers(k: Kind, rows: seq<Row>, t: Table)
    requires WellFormed(k, t) && Enumerates(rows, t)
    ensures forall id | id in t :: t[id] in rows
    ensures forall i | 0 <= i < |rows| :: rows[i].id in t && t[rows[i].id] == rows[i]
    ensures forall i, j | 0 <= i < j < |rows| :: rows[i] != rows[j]
  {
    forall id | id in t
      ensures t[id] in rows
    {
      assert multiset(rows)[t[id]] == 1;
    }
    forall i | 0 <= i < |rows|
      ensures rows[i].id in t && t[rows[i].id] == rows[i]
    {
      assert rows[i] in multiset(rows);
    }
    forall i, j | 0 <= i < j < |rows|
      ensures rows[i] != rows[j]
    {
      RepeatCounted(rows, i, j);
    }
  }

  class NoteService {
    /** One table per kind. */
    var tables: map<Kind, Table>

    ghost predicate Valid()
      reads this
    {
      forall k: Kind :: k in tables && WellFormed(k, tables[k])
    }

    constructor (initial: map<Kind, Table>)
      requires forall k: Kind :: k in initial && WellFormed(k, initial[k])
      ensures Valid() && tables == initial
    {
      tables := initial;
    }

    /** GET /api/{kind}: every row of the kind's table, latest sort key first. */
    method List(k: Kind, storeFails: bool) returns (resp: Response)
      requires Valid()
      ensures storeFails ==> resp == Response(500, Error(ListFailure(k)))
      ensures !storeFails ==>
        && resp.status == 200 && resp.payload.Rows?
        && Enumerates(resp.payload.rows, tables[k])
        && SortedDesc(resp.payload.rows)
    {
      if storeFails {
        return Response(500, Error(ListFailure(k)));
      }
      var t := tables[k];
      var rest := t.Keys;
      var scanned: seq<Row> := [];
      while rest != {}
        invariant rest <= t.Keys
        invariant forall x: Row ::
                    multiset(scanned)[x] == if x.id in t && x.id !in rest && t[x.id] == x then 1 else 0
        decreases rest
      {
        var id :| id in rest;
        scanned := scanned + [t[id]];
        rest := rest - {id};
      }
      resp := Response(200, Rows(SortDesc(scanned)));
    }

    /**
     * POST /api/{kind}. `body` is `None` when the request body is not JSON;
     * `freshId` and `now` stand for `crypto.randomUUID()` and `new Date()`.
     */
    method Create(k: Kind, body: Option<Body>, storeFails: bool, freshId: Id, now: string)
      returns (resp: Response)
      requires Valid() && freshId !in tables[k]
      modifies this
      ensures Valid()
      ensures body.None? ==>
        resp == Response(500, Error(HandlerFailure("create", k))) && tables == old(tables)
      ensures body.Some? && !Accepts(k, body.value) ==>
        resp == Response(400, Error(RequiredMessage(k))) && tables == old(tables)
      ensures body.Some? && Accepts(k, body.value) && storeFails ==>
        resp == Response(500, Error(HandlerFailure("create", k))) && tables == old(tables)
      ensures body.Some? && Accepts(k, body.value) && !storeFails ==>
        var row := NewRow(k, freshId, body.value, now);
        && resp == Response(201, Created(row))
        && tables == old(tables)[k := old(tables)[k][freshId := row]]
    {
      if body.None? {
        return Response(500, Error(HandlerFailure("create", k)));
      }
      var b := body.value;
      if !Accepts(k, b) {
        return Response(400, Error(RequiredMessage(k)));
      }
      if storeFails {
        return Response(500, Error(HandlerFailure("create", k)));
      }
      var row := NewRow(k, freshId, b, now);
      tables := tables[k := tables[k][freshId := row]];
      resp := Response(201, Created(row));
    }

    /** PUT /api/{kind}/:id. */
    method Update(k: Kind, id: Id, body: Option<Body>, storeFails: bool) returns (resp: Response)
      requires Valid()
      modifies this
      ensures Valid()
      ensures body.None? ==>
        resp == Response(500, Error(HandlerFailure("update", k))) && tables == old(tables)
      ensures body.Some? && !Accepts(k, body.value) ==>
        resp == Response(400, Error(RequiredMessage(k))) && tables == old(tables)
      ensures body.Some? && Accepts(k, body.value) && storeFails ==>
        resp == Response(500, Error(HandlerFailure("update", k))) && tables == old(tables)
      ensures body.Some? && Accepts(k, body.value) && !storeFails && id !in old(tables)[k] ==>
        resp == Response(404, Error(NotFoundMessage)) && tables == old(tables)
      ensures body.Some? && Accepts(k, body.value) && !storeFails && id in old(tables)[k] ==>
        && resp == Response(200, EchoOf(k, id, body.value))
        && tables == old(tables)[k := old(tables)[k][id := Revised(k, old(tables)[k][id], body.value)]]
    {
      if body.None? {
        return Response(500, Error(HandlerFailure("update", k)));
      }
      var b := body.value;
      if !Accepts(k, b) {
        return Response(400, Error(RequiredMessage(k)));
      }
      if storeFails {
        return Response(500, Error(HandlerFailure("update", k)));
      }
      var t := tables[k];
      if id !in t {
        // zero rows changed
        return Response(404, Error(NotFoundMessage));
      }
      tables := tables[k := t[id := Revised(k, t[id], b)]];
      resp := Response(200, EchoOf(k, id, b));
    }

    /** DELETE /api/{kind}/:id. */
    method Delete(k: Kind, id: Id, storeFails: bool) returns (resp: Response)
      requires Valid()
      modifies this
      ensures Valid()
      ensures storeFails ==>
        resp == Response(500, Error(HandlerFailure("delete", k))) && tables == old(tables)
      ensures !storeFails && id !in old(tables)[k] ==>
        resp == Response(404, Error(NotFoundMessage)) && tables == old(tables)
      ensures !storeFails && id in old(tables)[k] ==>
        resp == Response(200, Deleted) && tables == old(tables)[k := old(tables)[k] - {id}]
    {
      if storeFails {
        return Response(500, Error(HandlerFailure("delete", k)));
      }
      var t := tables[k];
      if id !in t {
        // zero rows changed
        return Response(404, Error(NotFoundMessage));
      }
      tables := tables[k := t - {id}];
      resp := Response(200, Deleted);
    }
  }

  /** Deleting the same present id twice: success, then not found; the row is gone. */
  method DeleteTwice(s: NoteService, k: Kind, id: Id) returns (first: Response, second: Response)
    requires s.Valid() && id in s.tables[k]
    modifies s
    ensures s.Valid()
    ensures first == Response(200, Deleted)
    ensures second == Response(404, Error(NotFoundMessage))
    ensures s.tables == old(s.tables)[k := old(s.tables)[k] - {id}]
  {
    first := s.Delete(k, id, false);
    second := s.Delete(k, id, false);
  }

  /** A successful create is seen by the next listing of its kind. */
  method CreateThenList(s: NoteService, k: Kind, b: Body, freshId: Id, now: string)
    returns (created: Response, listed: Response)
    requires s.Valid() && freshId !in s.tables[k] && Accepts(k, b)
    modifies s
    ensures created == Response(201, Created(NewRow(k, freshId, b, now)))
    ensures listed.status == 200 && listed.payload.Rows?
    ensures created.payload.row in listed.payload.rows
    ensures forall id | id in old(s.tables)[k] :: old(s.tables)[k][id] in listed.payload.rows
  {
    created := s.Create(k, Some(b), false, freshId, now);
    listed := s.List(k, false);
    EnumeratesMembers(k, listed.payload.rows, s.tables[k]);
    assert s.tables[k][freshId] == created.payload.row;
    forall id | id in old(s.tables)[k]
      ensures old(s.tables)[k][id] in listed.payload.rows
    {
      assert s.tables[k][id] == old(s.tables)[k][id];
    }
  }
}
