/** The record schemas (models/View.js, models/Action.js, models/Goal.js):
    three string paths shared by every kind, one extra discriminating path for
    Actions (`action`) and Goals (`goal`), a creation timestamp and a
    schemaless `meta`. Every string path is `required` and `trim`. */
module Schema {
  import opened Values
  import opened Text

  /** The three record kinds. */
  datatype Kind = Views | Actions | Goals
  {
    /** Actions and Goals carry a discriminator (`action`, `goal`); Views do not. */
    predicate HasTag()
    {
      this != Views
    }
  }

  /** Store-generated record identifiers (ObjectIds in the store). */
  type Id = nat

  /** The paths of a record that requests can name; `Tag` is the discriminator. */
  datatype Field = Source | Url | Tag | Visitor | Meta

  /** The string paths a kind's schema declares, all `required` and `trim`. */
  function TextFields(kind: Kind): (fs: set<Field>)
    ensures Tag in fs <==> kind.HasTag()
    ensures Meta !in fs && Source in fs && Url in fs && Visitor in fs
  {
    if kind.HasTag() then {Source, Url, Tag, Visitor} else {Source, Url, Visitor}
  }

  /** A stored record. `tag` is `None` exactly for Views; `updatedAt` is not kept. */
  datatype Record = Record(
    source: string,
    url: string,
    visitor: string,
    tag: Option<string>,
    createdAt: nat,
    meta: Json)

  /** A stored record together with its identifier, as the handlers return it. */
  datatype Entry = Entry(id: Id, record: Record)

  /** A partial document: a request body, the object handed to the model
      constructor, or an update document. Each path is present or absent. */
  datatype Fields = Fields(
    source: Option<string>,
    url: Option<string>,
    tag: Option<string>,
    visitor: Option<string>,
    meta: Option<Json>)

  const NoFields: Fields := Fields(None, None, None, None, None)

  /** The value of a string path of a record. */
  function RecordText(r: Record, f: Field): Option<string>
  {
    match f
    case Source => Some(r.source)
    case Url => Some(r.url)
    case Tag => r.tag
    case Visitor => Some(r.visitor)
    case Meta => None
  }

  /** The value of a string path of a partial document. */
  function FieldText(d: Fields, f: Field): Option<string>
  {
    match f
    case Source => d.source
    case Url => d.url
    case Tag => d.tag
    case Visitor => d.visitor
    case Meta => None
  }

  /** What a `required`, `trim` string path may hold once stored. */
  predicate StoredText(s: string)
  {
    s != "" && Trimmed(s)
  }

  /** The invariant the schema of `kind` gives every stored record: each
      declared string path holds a non-empty trimmed value, and no other
      string path is held. */
  predicate WellFormed(kind: Kind, r: Record): (ok: bool)
    ensures ok <==> forall f :: f != Meta ==>
      if f in TextFields(kind) then RecordText(r, f).Some? && StoredText(RecordText(r, f).value)
      else RecordText(r, f) == None
  {
    assert RecordText(r, Source) == Some(r.source) && RecordText(r, Url) == Some(r.url);
    assert RecordText(r, Visitor) == Some(r.visitor) && RecordText(r, Tag) == r.tag;
    && StoredText(r.source) && StoredText(r.url) && StoredText(r.visitor)
    && (r.tag.Some? <==> kind.HasTag())
    && (r.tag.Some? ==> StoredText(r.tag.value))
  }

  /** Every record of a collection of `kind` satisfies its schema. */
  predicate AllWellFormed(kind: Kind, records: map<Id, Record>)
  {
    forall id :: id in records ==> WellFormed(kind, records[id])
  }

  /** A path that `required` rejects once `trim` has run: absent or blank. */
  predicate Blank(v: Option<string>)
  {
    v.None? || Trim(v.value) == ""
  }

  /** A present path is blank exactly when it is nothing but whitespace. */
  lemma {:induction false} BlankMeansAllSpace(v: Option<string>)
    ensures Blank(v) <==> v.None? || AllSpace(v.value)
  {
    if v.Some? {
      TrimSpec(v.value);
    }
  }

  /** The string paths of `d` that the schema of `kind` rejects. */
  function MissingPaths(kind: Kind, d: Fields): (m: set<Field>)
    ensures forall f :: f in m <==> f in TextFields(kind) && Blank(FieldText(d, f))
  {
    (if Blank(d.source) then {Source} else {})
    + (if Blank(d.url) then {Url} else {})
    + (if kind.HasTag() && Blank(d.tag) then {Tag} else {})
    + (if Blank(d.visitor) then {Visitor} else {})
  }

  /** `new Model(d)` followed by validation on `save`: every string path is
      trimmed, a path that is then absent or empty fails `required`,
      `createdAt` takes its default (the current time) and `meta` its default
      `{}` when absent. A path the kind does not declare is dropped. */
  function Create(kind: Kind, d: Fields, now: nat): (r: Result<Record, set<Field>>)
    ensures r.Ok? <==> (!Blank(d.source) && !Blank(d.url) && !Blank(d.visitor)
                       && (kind.HasTag() ==> !Blank(d.tag)))
    ensures r.Err? ==> r.error != {} && r.error == MissingPaths(kind, d)
    ensures r.Ok? ==> WellFormed(kind, r.value)
    ensures r.Ok? ==> && r.value.source == Trim(d.source.value)
                      && r.value.url == Trim(d.url.value)
                      && r.value.visitor == Trim(d.visitor.value)
                      && r.value.tag == (if kind.HasTag() then Some(Trim(d.tag.value)) else None)
    ensures r.Ok? ==> r.value.createdAt == now
    ensures r.Ok? ==> r.value.meta == if d.meta.Some? then d.meta.value else EmptyObject
  {
    var missing := MissingPaths(kind, d);
    if missing != {} then Err(missing)
    else
      assert Source !in missing && Url !in missing && Visitor !in missing;
      assert kind.HasTag() ==> Tag !in missing;
      var tag := if kind.HasTag() then Some(Trim(d.tag.value)) else None;
      var meta := if d.meta.Some? then d.meta.value else EmptyObject;
      Ok(Record(Trim(d.source.value), Trim(d.url.value), Trim(d.visitor.value), tag, now, meta))
  }

  /** The `trim` setter applied to a path that may be absent. */
  function CastText(v: Option<string>): Option<string>
  {
    if v.Some? then Some(Trim(v.value)) else None
  }

  /** A path an update document sets to a value that `trim` leaves empty. */
  predicate Cleared(v: Option<string>)
  {
    v.Some? && Trim(v.value) == ""
  }

  /** A path is cleared exactly when it is present and nothing but
      whitespace. */
  lemma {:induction false} ClearedMeansAllSpace(v: Option<string>)
    ensures Cleared(v) <==> v.Some? && AllSpace(v.value)
  {
    if v.Some? {
      TrimSpec(v.value);
    }
  }

  /** The string paths of an update document `u` that fail `required`. */
  function ClearedPaths(kind: Kind, u: Fields): (m: set<Field>)
    ensures forall f :: f in m <==> f in TextFields(kind) && Cleared(FieldText(u, f))
  {
    (if Cleared(u.source) then {Source} else {})
    + (if Cleared(u.url) then {Url} else {})
    + (if kind.HasTag() && Cleared(u.tag) then {Tag} else {})
    + (if Cleared(u.visitor) then {Visitor} else {})
  }

  /** How `findByIdAndUpdate` with `runValidators` casts an update document
      before it runs: every present string path is trimmed and validated
      (`required` rejects what is then empty), a path the kind does not
      declare is dropped, and `meta` is taken as it is. */
  function CastUpdate(kind: Kind, u: Fields): (r: Result<Fields, set<Field>>)
    ensures r.Ok? <==> (!Cleared(u.source) && !Cleared(u.url) && !Cleared(u.visitor)
                       && (kind.HasTag() ==> !Cleared(u.tag)))
    ensures r.Err? ==> r.error != {} && r.error == ClearedPaths(kind, u)
    ensures r.Ok? ==> && r.value.source == CastText(u.source)
                      && r.value.url == CastText(u.url)
                      && r.value.tag == (if kind.HasTag() then CastText(u.tag) else None)
                      && r.value.visitor == CastText(u.visitor)
                      && r.value.meta == u.meta
  {
    var cleared := ClearedPaths(kind, u);
    if cleared != {} then Err(cleared)
    else
      assert Source !in cleared && Url !in cleared && Visitor !in cleared;
      assert kind.HasTag() ==> Tag !in cleared;
      Ok(Fields(CastText(u.source), CastText(u.url), if kind.HasTag() then CastText(u.tag) else None,
                CastText(u.visitor), u.meta))
  }

  /** The `$set` an update document performs on a stored record: each path
      the document holds replaces the stored one (`meta` whole, not merged). */
  function Apply(r: Record, u: Fields): (n: Record)
    ensures forall f :: f != Meta ==>
      RecordText(n, f) == if FieldText(u, f).Some? then FieldText(u, f) else RecordText(r, f)
    ensures n.meta == if u.meta.Some? then u.meta.value else r.meta
    ensures n.createdAt == r.createdAt
    ensures u == NoFields ==> n == r
  {
    Record(
      if u.source.Some? then u.source.value else r.source,
      if u.url.Some? then u.url.value else r.url,
      if u.visitor.Some? then u.visitor.value else r.visitor,
      if u.tag.Some? then u.tag else r.tag,
      r.createdAt,
      if u.meta.Some? then u.meta.value else r.meta)
  }

  /** Applying an update document that passed validation keeps a record
      within its schema. */
  lemma {:induction false} ApplyKeepsWellFormed(kind: Kind, r: Record, u: Fields)
    requires WellFormed(kind, r)
    requires CastUpdate(kind, u).Ok?
    ensures WellFormed(kind, Apply(r, CastUpdate(kind, u).value))
  {
  }
}
