/** The handlers of routes/views.js, routes/actions.js and routes/goals.js
    that touch one record or change the collection: get, create, update and
    delete by id, over a collection of one kind. The list and summary handlers
    are the read-only queries of `Listing` and `Stats`; the two objects the
    handlers build key by key (the list filter and the update document) are
    built here by `BuildFilter` and `BuildPatch`. */
module Controller {
  import opened Values
  import opened Text
  import opened Schema
  import Listing

  /** An HTTP reply: its status and, for 200 and 201, its body. */
  datatype Reply<+T> =
    | Done(value: T)     // 200
    | Created(value: T)  // 201
    | BadRequest         // 400
    | NotFound           // 404
    | ServerError        // 500

  /** The create handler's own check: every required field of the body is
      truthy (`if (!source || !url || !visitor)`, plus `action` or `goal`). */
  predicate RequiredFilled(kind: Kind, body: Fields)
    ensures RequiredFilled(kind, body) <==> forall f :: f in TextFields(kind) ==> Filled(FieldText(body, f))
  {
    assert FieldText(body, Source) == body.source && FieldText(body, Url) == body.url;
    assert FieldText(body, Tag) == body.tag && FieldText(body, Visitor) == body.visitor;
    Filled(body.source) && Filled(body.url) && (kind.HasTag() ==> Filled(body.tag)) && Filled(body.visitor)
  }

  /** The object the create handler passes to the model constructor: the
      required fields as received and `meta || {}`. */
  function Draft(kind: Kind, body: Fields): (d: Fields)
    ensures forall f :: f in TextFields(kind) ==> FieldText(d, f) == FieldText(body, f)
    ensures !kind.HasTag() ==> d.tag == None
    ensures d.meta.Some? && Truthy(d.meta)
    ensures Truthy(body.meta) ==> d.meta == body.meta
  {
    Fields(body.source, body.url, if kind.HasTag() then body.tag else None, body.visitor, Some(OrEmpty(body.meta)))
  }

  /** The update document the update handler builds: each field of the body
      that is truthy, `meta` included, and nothing else. */
  function PatchOf(kind: Kind, body: Fields): (u: Fields)
    ensures forall f :: f in TextFields(kind) ==>
      FieldText(u, f) == if Filled(FieldText(body, f)) then FieldText(body, f) else None
    ensures forall f :: FieldText(u, f).Some? ==> Filled(FieldText(u, f))
    ensures !kind.HasTag() ==> u.tag == None
    ensures u.meta.Some? ==> Truthy(u.meta)
    ensures Truthy(body.meta) ==> u.meta == body.meta
  {
    Fields(
      if Filled(body.source) then body.source else None,
      if Filled(body.url) then body.url else None,
      if kind.HasTag() && Filled(body.tag) then body.tag else None,
      if Filled(body.visitor) then body.visitor else None,
      if Truthy(body.meta) then body.meta else None)
  }

  /** Builds the update document one key at a time, as the handlers do. */
  method BuildPatch(kind: Kind, body: Fields) returns (u: Fields)
    ensures u == PatchOf(kind, body)
  {
    u := NoFields;
    if Filled(body.source) {
      u := u.(source := body.source);
    }
    if Filled(body.url) {
      u := u.(url := body.url);
    }
    if kind.HasTag() && Filled(body.tag) {
      u := u.(tag := body.tag);
    }
    if Filled(body.visitor) {
      u := u.(visitor := body.visitor);
    }
    if Truthy(body.meta) {
      u := u.(meta := body.meta);
    }
  }

  /** Builds the list filter one key at a time, as the handlers do. */
  method BuildFilter(kind: Kind, q: Listing.Query) returns (filter: map<Field, string>)
    ensures filter == Listing.QueryFilter(kind, q)
  {
    filter := map[];
    if Filled(q.source) {
      filter := filter[Source := q.source.value];
    }
    if Filled(q.visitor) {
      filter := filter[Visitor := q.visitor.value];
    }
    if kind.HasTag() && Filled(q.tag) {
      filter := filter[Tag := q.tag.value];
    }
    if Filled(q.url) {
      filter := filter[Url := q.url.value];
    }
    forall f ensures f in filter <==> f in TextFields(kind) && Filled(Listing.QueryText(q, f)) {
      match f
      case Source =>
      case Url =>
      case Tag =>
      case Visitor =>
      case Meta =>
    }
    Listing.FilterByFields(kind, q, filter);
  }

  /** An update overwrites exactly the fields supplied with truthy values
      (trimmed, `meta` whole), keeps every other field and `createdAt`, and
      leaves the record within its schema. */
  lemma {:induction false} UpdateOnlySupplied(kind: Kind, r: Record, body: Fields)
    requires WellFormed(kind, r)
    requires CastUpdate(kind, PatchOf(kind, body)).Ok?
    ensures var n := Apply(r, CastUpdate(kind, PatchOf(kind, body)).value);
      && n.source == (if Filled(body.source) then Trim(body.source.value) else r.source)
      && n.url == (if Filled(body.url) then Trim(body.url.value) else r.url)
      && n.visitor == (if Filled(body.visitor) then Trim(body.visitor.value) else r.visitor)
      && n.tag == (if kind.HasTag() && Filled(body.tag) then Some(Trim(body.tag.value)) else r.tag)
      && n.createdAt == r.createdAt
      && n.meta == (if Truthy(body.meta) then body.meta.value else r.meta)
      && WellFormed(kind, n)
  {
    ApplyKeepsWellFormed(kind, r, PatchOf(kind, body));
  }

  /** A supplied field that is nothing but whitespace passes the handler's
      truthiness test, then trims to empty and fails validation; that is the
      only way an update document is rejected. */
  lemma {:induction false} UpdateRejected(kind: Kind, body: Fields)
    ensures CastUpdate(kind, PatchOf(kind, body)).Err? <==>
      || (Filled(body.source) && AllSpace(body.source.value))
      || (Filled(body.url) && AllSpace(body.url.value))
      || (kind.HasTag() && Filled(body.tag) && AllSpace(body.tag.value))
      || (Filled(body.visitor) && AllSpace(body.visitor.value))
  {
    var u := PatchOf(kind, body);
    ClearedMeansAllSpace(u.source);
    ClearedMeansAllSpace(u.url);
    ClearedMeansAllSpace(u.tag);
    ClearedMeansAllSpace(u.visitor);
  }

  /** A create request that passes the handler's check still fails
      validation, with a server error, exactly when a required field is
      nothing but whitespace. */
  lemma {:induction false} CreateRejected(kind: Kind, body: Fields, now: nat)
    requires RequiredFilled(kind, body)
    ensures Schema.Create(kind, Draft(kind, body), now).Err? <==>
      || AllSpace(body.source.value) || AllSpace(body.url.value)
      || (kind.HasTag() && AllSpace(body.tag.value)) || AllSpace(body.visitor.value)
  {
    var d := Draft(kind, body);
    BlankMeansAllSpace(d.source);
    BlankMeansAllSpace(d.url);
    BlankMeansAllSpace(d.tag);
    BlankMeansAllSpace(d.visitor);
  }

  /** The collection of one kind: the records by identifier, and the source of
      fresh identifiers. */
  class Collection {
    const kind: Kind
    var records: map<Id, Record>
    var nextId: Id

    ghost predicate Valid()
      reads this
    {
      AllWellFormed(kind, records) && forall id :: id in records ==> id < nextId
    }

    constructor (kind: Kind)
      ensures Valid() && this.kind == kind && records == map[]
    {
      this.kind := kind;
      records := map[];
      nextId := 0;
    }

    /** `GET /:id`: the record with that identifier, or 404. */
    function Get(id: Id): (r: Reply<Entry>)
      reads this
      ensures r.Done? <==> id in records
      ensures r.Done? ==> r.value == Entry(id, records[id])
      ensures !r.Done? ==> r == NotFound
    {
      if id in records then Done(Entry(id, records[id])) else NotFound
    }

    /** `POST /`: 400 without touching the collection when a required field
        is missing or empty; 500 without touching it when the schema rejects
        the record; otherwise 201 and the collection gains exactly the new
        record, under a fresh identifier, trimmed, stamped with the current
        time and with `meta` defaulting to `{}`. */
    method Create(body: Fields, now: nat) returns (reply: Reply<Entry>)
      requires Valid()
      modifies this
      ensures Valid()
      ensures !RequiredFilled(kind, body) ==> reply == BadRequest && records == old(records)
      ensures RequiredFilled(kind, body) && Schema.Create(kind, Draft(kind, body), now).Err? ==>
                reply == ServerError && records == old(records)
      ensures RequiredFilled(kind, body) && Schema.Create(kind, Draft(kind, body), now).Ok? ==> reply.Created?
      ensures reply.Created? ==>
                && reply.value.id !in old(records)
                && records == old(records)[reply.value.id := reply.value.record]
                && |records| == |old(records)| + 1
                && Get(reply.value.id) == Done(reply.value)
      ensures reply.Created? ==>
                var r := reply.value.record;
                && r.source == Trim(body.source.value) && r.url == Trim(body.url.value)
                && r.visitor == Trim(body.visitor.value)
                && r.tag == (if kind.HasTag() then Some(Trim(body.tag.value)) else None)
                && r.createdAt == now
                && r.meta == OrEmpty(body.meta)
    {
      if !RequiredFilled(kind, body) {
        return BadRequest;
      }
      var doc := Schema.Create(kind, Draft(kind, body), now);
      if doc.Err? {
        return ServerError;
      }
      var id := nextId;
      records := records[id := doc.value];
      nextId := nextId + 1;
      reply := Created(Entry(id, doc.value));
    }

    /** `PUT /:id`: the update document keeps the truthy fields of the body;
        500 without change when one of them trims to empty; 404 without change
        for an unknown identifier; otherwise 200 with the record after the
        update, which only that record undergoes. */
    method Update(id: Id, body: Fields) returns (reply: Reply<Entry>)
      requires Valid()
      modifies this`records
      ensures Valid()
      ensures var u := CastUpdate(kind, PatchOf(kind, body));
        && (u.Err? ==> reply == ServerError && records == old(records))
        && (u.Ok? && id !in old(records) ==> reply == NotFound && records == old(records))
        && (u.Ok? && id in old(records) ==>
              var r := Apply(old(records)[id], u.value);
              reply == Done(Entry(id, r)) && records == old(records)[id := r])
    {
      var u := BuildPatch(kind, body);
      var cast := CastUpdate(kind, u);
      if cast.Err? {
        return ServerError;
      }
      if id !in records {
        return NotFound;
      }
      ApplyKeepsWellFormed(kind, records[id], u);
      var r := Apply(records[id], cast.value);
      records := records[id := r];
      reply := Done(Entry(id, r));
    }

    /** `DELETE /:id`: 200 and exactly that record removed, or 404 and
        nothing removed; either way a later get of that identifier is 404. */
    method Delete(id: Id) returns (reply: Reply<()>)
      requires Valid()
      modifies this`records
      ensures Valid()
      ensures id in old(records) ==> reply == Done(()) && records == old(records) - {id}
      ensures id !in old(records) ==> reply == NotFound && records == old(records)
      ensures Get(id) == NotFound
    {
      if id !in records {
        return NotFound;
      }
      records := records - {id};
      reply := Done(());
    }
  }
}
