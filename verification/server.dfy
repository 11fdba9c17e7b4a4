/** The server's POST, PUT and DELETE handlers for modules, clients and
    budgets, as operations on the records of the collection's JSON file.

    Each handler reads the whole file, changes the records in memory and
    writes the whole file back; here the file is the sequence of records
    before and after. The clock reading (`Date.now()`), the parsed route
    id, the parsed price and the stored upload's filename are parameters. */
module Server {
  import opened JsValue

  datatype Collection = Modules | Clients | Budgets

  function NotFoundMessage(c: Collection): string
  {
    match c
    case Modules => "Module not found"
    case Clients => "Client not found"
    case Budgets => "Budget not found"
  }

  datatype Response =
    | Created(body: Json)       // 201 with the new record
    | Ok(body: Json)            // 200 with the updated record
    | NotFound(message: string) // 404
    | NoContent                 // 204
    | ServerError               // an exception passed on with `next(error)`

  /** The records the file holds after the handler, and its response. */
  datatype Handled = Handled(records: seq<Json>, response: Response)

  /** `r.id === id` for a record that is not null. */
  predicate Matches(r: Json, id: int)
  {
    Member(r, "id") == JInt(id)
  }

  /** `records.findIndex(r => r.id === id)`, with -1 as `None`. The
      callback throws on a null record, so a null before the first match
      throws. */
  function FindIndex(records: seq<Json>, id: int): (r: Completion<Option<nat>>)
    ensures r.Normal? && r.value.Some? ==>
              && r.value.value < |records|
              && Matches(records[r.value.value], id)
              && forall j :: 0 <= j < r.value.value ==> records[j] != JNull && !Matches(records[j], id)
    ensures (r.Normal? && r.value.None?) <==>
              forall j :: 0 <= j < |records| ==> records[j] != JNull && !Matches(records[j], id)
    ensures r.Throw? ==>
              exists j :: 0 <= j < |records| && records[j] == JNull &&
                forall k :: 0 <= k < j ==> !Matches(records[k], id)
    decreases |records|
  {
    if |records| == 0 then Normal(None)
    else if records[0].JNull? then Completion<Option<nat>>.Throw(TypeError("Cannot read properties of null (reading 'id')"))
    else if Matches(records[0], id) then Normal(Some(0))
    else
      assert forall j :: 1 <= j < |records| ==> records[1..][j - 1] == records[j];
      match FindIndex(records[1..], id)
      case Throw(e) =>
        var j :| 0 <= j < |records[1..]| && records[1..][j] == JNull &&
                 forall k :: 0 <= k < j ==> !Matches(records[1..][k], id);
        assert records[j + 1] == JNull && forall k :: 0 <= k < j + 1 ==> !Matches(records[k], id);
        Throw(e)
      case Normal(None) => Normal(None)
      case Normal(Some(i)) => Normal(Some(i + 1))
  }

  /** No record is null, so a callback reading `.id` never throws. */
  predicate NoNulls(records: seq<Json>)
  {
    forall j :: 0 <= j < |records| ==> records[j] != JNull
  }

  /** The records `filter(r => r.id !== id)` keeps, in order. */
  function Kept(records: seq<Json>, id: int): (r: seq<Json>)
    ensures |r| == |records| - Count(records, id)
    decreases |records|
  {
    if |records| == 0 then []
    else (if Matches(records[0], id) then [] else [records[0]]) + Kept(records[1..], id)
  }

  /** `records.filter(r => r.id !== id)`. The callback runs on every
      record, so any null record throws. */
  function Without(records: seq<Json>, id: int): (r: Completion<seq<Json>>)
    ensures r.Normal? <==> NoNulls(records)
    ensures r.Normal? ==> |r.value| == |records| - Count(records, id)
  {
    if NoNulls(records) then Normal(Kept(records, id))
    else Throw(TypeError("Cannot read properties of null (reading 'id')"))
  }

  /** The number of records carrying `id`. */
  function Count(records: seq<Json>, id: int): nat
    decreases |records|
  {
    if |records| == 0 then 0
    else (if Matches(records[0], id) then 1 else 0) + Count(records[1..], id)
  }

  /** `{ id: now, ...fields }` */
  function NewRecord(now: int, fields: map<string, Json>): (r: Json)
    ensures r.JObj? && r.fields.Keys == fields.Keys + {"id"}
    ensures Member(r, "id") == if "id" in fields then fields["id"] else JInt(now)
  {
    JObj(map["id" := JInt(now)] + fields)
  }

  /** The fields a module request sets: the body, then `price`, then
      `imageUrl` when a file was uploaded. */
  function ModuleFields(body: map<string, Json>, price: Json, upload: Option<string>): (r: map<string, Json>)
    ensures "price" in r && r["price"] == price
    ensures upload.Some? ==> "imageUrl" in r && r["imageUrl"] == JStr("/uploads/" + upload.value)
  {
    body + map["price" := price] +
    (match upload
     case None => map[]
     case Some(filename) => map["imageUrl" := JStr("/uploads/" + filename)])
  }

  /** Reading, pushing and writing back: the POST handlers. */
  function AddRecord(records: seq<Json>, now: int, fields: map<string, Json>): (h: Handled)
    ensures |h.records| == |records| + 1 && h.records[..|records|] == records
    ensures h.response == Created(h.records[|records|])
  {
    var created := NewRecord(now, fields);
    Handled(records + [created], Created(created))
  }

  /** `POST /api/modules` */
  function PostModule(records: seq<Json>, now: int, body: map<string, Json>, price: Json, upload: Option<string>): (h: Handled)
    ensures h.response.Created? && h.records == records + [h.response.body]
    ensures Member(h.response.body, "price") == price
    ensures upload.Some? ==> Member(h.response.body, "imageUrl") == JStr("/uploads/" + upload.value)
  {
    AddRecord(records, now, ModuleFields(body, price, upload))
  }

  /** `POST /api/clients` and `POST /api/budgets` */
  function PostRecord(records: seq<Json>, now: int, body: map<string, Json>): (h: Handled)
    ensures h.response.Created? && h.records == records + [h.response.body]
    ensures forall k :: k in body ==> Member(h.response.body, k) == body[k]
  {
    AddRecord(records, now, body)
  }

  /** The PUT handlers: the first record with the id becomes the old
      record merged with `changes`; no record with the id answers 404 and
      the file is not written. */
  function UpdateRecord(c: Collection, records: seq<Json>, id: int, changes: map<string, Json>): (h: Handled)
    ensures |h.records| == |records|
    ensures h.response.ServerError? <==> FindIndex(records, id).Throw?
    ensures !h.response.Ok? ==> h.records == records
    ensures h.response.Ok? ==> h.response.body in h.records && Matches(h.response.body, id) == ("id" !in changes || changes["id"] == JInt(id))
  {
    match FindIndex(records, id)
    case Throw(_) => Handled(records, ServerError)
    case Normal(None) => Handled(records, NotFound(NotFoundMessage(c)))
    case Normal(Some(i)) =>
      assert records[i].JObj? && records[i].fields["id"] == JInt(id);
      var updated := JObj(Spread(records[i]) + changes);
      assert records[i := updated][i] == updated;
      Handled(records[i := updated], Ok(updated))
  }

  /** `PUT /api/modules/:id` */
  function PutModule(records: seq<Json>, id: int, body: map<string, Json>, price: Json, upload: Option<string>): (h: Handled)
    ensures h.response.Ok? ==> Member(h.response.body, "price") == price
    ensures h.response.Ok? && upload.Some? ==> Member(h.response.body, "imageUrl") == JStr("/uploads/" + upload.value)
  {
    UpdateRecord(Modules, records, id, ModuleFields(body, price, upload))
  }

  /** `PUT /api/clients/:id` and `PUT /api/budgets/:id` */
  function PutRecord(c: Collection, records: seq<Json>, id: int, body: map<string, Json>): (h: Handled)
    requires c != Modules
    ensures h.response.Ok? ==> forall k :: k in body ==> Member(h.response.body, k) == body[k]
  {
    UpdateRecord(c, records, id, body)
  }

  /** The DELETE handlers: filter out the id and answer 204. */
  function DeleteRecord(records: seq<Json>, id: int): (h: Handled)
    ensures h.response.NoContent? <==> NoNulls(records)
    ensures h.response.NoContent? ==> |h.records| == |records| - Count(records, id)
    ensures h.response.ServerError? ==> h.records == records
  {
    match Without(records, id)
    case Throw(_) => Handled(records, ServerError)
    case Normal(rest) => Handled(rest, NoContent)
  }

  // ---------------------------------------------------------------------

  /** Adding appends exactly one record at the end and answers 201 with it. */
  lemma AddAppends(records: seq<Json>, now: int, fields: map<string, Json>)
    ensures var h := AddRecord(records, now, fields);
            && |h.records| == |records| + 1
            && h.records[..|records|] == records
            && h.response == Created(h.records[|records|])
  {
    assert (records + [NewRecord(now, fields)])[..|records|] == records;
  }

  /** A new record is `{ id: now }` overridden by the request's fields: a
      body `id` wins over the timestamp, and every body field is kept. */
  lemma NewRecordBodyWins(now: int, fields: map<string, Json>)
    ensures NewRecord(now, fields).fields.Keys == fields.Keys + {"id"}
    ensures forall k :: k in fields ==> NewRecord(now, fields).fields[k] == fields[k]
    ensures Member(NewRecord(now, fields), "id") == if "id" in fields then fields["id"] else JInt(now)
  {
  }

  /** A module's fields are the body with `price` replaced by the parsed
      price and, when a file was uploaded, `imageUrl` set to its
      `/uploads/` path over any body value. */
  lemma ModuleFieldsOverride(body: map<string, Json>, price: Json, upload: Option<string>)
    ensures var f := ModuleFields(body, price, upload);
            && f["price"] == price
            && (upload.Some? ==> f["imageUrl"] == JStr("/uploads/" + upload.value))
            && (upload.None? ==> f.Keys == body.Keys + {"price"})
            && forall k :: k in body && k != "price" && k != "imageUrl" ==> f[k] == body[k]
  {
  }

  /** An update that finds the id replaces only the first record carrying
      it, with the old record merged with the changes (changes win); every
      other index and the length are unchanged. */
  lemma UpdateReplacesFirstMatch(c: Collection, records: seq<Json>, id: int, changes: map<string, Json>)
    requires FindIndex(records, id).Normal? && FindIndex(records, id).value.Some?
    ensures var i := FindIndex(records, id).value.value;
            var h := UpdateRecord(c, records, id, changes);
            && |h.records| == |records|
            && h.records[i] == JObj(records[i].fields + changes)
            && h.response == Ok(h.records[i])
            && (forall j :: 0 <= j < |records| && j != i ==> h.records[j] == records[j])
            && (forall j :: 0 <= j < i ==> !Matches(records[j], id))
  {
  }

  /** An update answers 404 exactly when no record carries the id (and
      none is null); the file is then left as it was. Any response other
      than 200 leaves the records unchanged. */
  lemma UpdateAbsentIsNotFound(c: Collection, records: seq<Json>, id: int, changes: map<string, Json>)
    ensures UpdateRecord(c, records, id, changes).response == NotFound(NotFoundMessage(c)) <==>
              forall j :: 0 <= j < |records| ==> records[j] != JNull && !Matches(records[j], id)
    ensures !UpdateRecord(c, records, id, changes).response.Ok? ==> UpdateRecord(c, records, id, changes).records == records
  {
  }

  /** A module update with an uploaded file sets `imageUrl` to the file's
      `/uploads/` path, over both the old record's and the body's value. */
  lemma PutModuleUploadSetsImageUrl(records: seq<Json>, id: int, body: map<string, Json>, price: Json, filename: string)
    requires FindIndex(records, id).Normal? && FindIndex(records, id).value.Some?
    ensures var i := FindIndex(records, id).value.value;
            var h := PutModule(records, id, body, price, Some(filename));
            && h.records[i].fields["imageUrl"] == JStr("/uploads/" + filename)
            && h.records[i].fields["price"] == price
  {
    ModuleFieldsOverride(body, price, Some(filename));
  }

  /** The filter keeps exactly the records without the id, and as many
      of them as the records hold. */
  lemma {:induction false} KeptExactly(records: seq<Json>, id: int)
    ensures forall x :: x in Kept(records, id) ==> x in records && !Matches(x, id)
    ensures forall x :: x in records && !Matches(x, id) ==> x in Kept(records, id)
    ensures |Kept(records, id)| == |records| - Count(records, id)
    decreases |records|
  {
    if |records| > 0 {
      KeptExactly(records[1..], id);
      assert records == [records[0]] + records[1..];
    }
  }

  /** Filtering a concatenation filters each part: the kept records stay
      in their order. */
  lemma {:induction false} KeptDistributes(a: seq<Json>, b: seq<Json>, id: int)
    ensures Kept(a + b, id) == Kept(a, id) + Kept(b, id)
    decreases |a|
  {
    if |a| == 0 {
      assert a + b == b;
    } else {
      assert (a + b)[0] == a[0];
      assert (a + b)[1..] == a[1..] + b;
      KeptDistributes(a[1..], b, id);
    }
  }

  /** Delete removes every record carrying the id, keeps the others in
      order, and answers 204 whether or not anything matched; a null
      record makes the filter throw, which answers with a server error and
      leaves the file unwritten. */
  lemma DeleteRemovesAll(records: seq<Json>, id: int)
    ensures NoNulls(records) ==>
              var h := DeleteRecord(records, id);
              && h.response == NoContent
              && h.records == Kept(records, id)
              && (forall x :: x in h.records ==> !Matches(x, id))
              && (forall x :: x in records && !Matches(x, id) ==> x in h.records)
              && |h.records| == |records| - Count(records, id)
    ensures !NoNulls(records) ==> DeleteRecord(records, id) == Handled(records, ServerError)
  {
    KeptExactly(records, id);
  }

  /** Filtering records none of which carries the id keeps them all. */
  lemma {:induction false} KeptOfCleanIsIdentity(records: seq<Json>, id: int)
    requires forall j :: 0 <= j < |records| ==> !Matches(records[j], id)
    ensures Kept(records, id) == records
    decreases |records|
  {
    if |records| > 0 {
      assert !Matches(records[0], id);
      KeptOfCleanIsIdentity(records[1..], id);
      assert [records[0]] + records[1..] == records;
    }
  }

  /** Deleting the same id twice leaves the file as deleting it once. */
  lemma DeleteIdempotent(records: seq<Json>, id: int)
    ensures var once := DeleteRecord(records, id);
            DeleteRecord(once.records, id).records == once.records
  {
    if NoNulls(records) {
      var kept := Kept(records, id);
      KeptExactly(records, id);
      assert forall j :: 0 <= j < |kept| ==> kept[j] in kept;
      KeptOfCleanIsIdentity(kept, id);
    }
  }

  /** Deleting the id a POST just gave its new record (the timestamp,
      when the body carries no `id` and no record had it) restores the
      file as it was before the POST. */
  lemma AddThenDeleteRestores(records: seq<Json>, now: int, body: map<string, Json>)
    requires NoNulls(records) && "id" !in body
    requires forall j :: 0 <= j < |records| ==> !Matches(records[j], now)
    ensures var added := PostRecord(records, now, body);
            && Matches(added.response.body, now)
            && DeleteRecord(added.records, now) == Handled(records, NoContent)
  {
    var created := NewRecord(now, body);
    assert NoNulls(records + [created]);
    KeptDistributes(records, [created], now);
    KeptOfCleanIsIdentity(records, now);
    assert Kept([created], now) == [];
  }

  /** With two records sharing an id, an update changes only the first
      and leaves the second as it was, while a delete removes both. */
  lemma DuplicateIds(records: seq<Json>, id: int, i: nat, j: nat, changes: map<string, Json>)
    requires i < j < |records| && Matches(records[i], id) && Matches(records[j], id)
    requires forall k :: 0 <= k < |records| ==> records[k] != JNull
    ensures var u := UpdateRecord(Clients, records, id, changes);
            u.response.Ok? && u.records[j] == records[j]
    ensures var d := DeleteRecord(records, id);
            records[i] !in d.records && records[j] !in d.records
  {
    var f := FindIndex(records, id);
    assert !f.Throw?;
    assert !(f.Normal? && f.value.None?);
    DeleteRemovesAll(records, id);
  }
}
