/** The Express backend's REST handlers (backend/src/routes/collections.ts
    and backend/src/routes/diagrams.ts) over the same table store as the
    desktop gateway. A request body field that is absent, `null` or of
    another JSON type is `None`; a path id is the integer SQLite compares it
    as. Each handler runs to completion before the next request. */
module Routes {
  import opened Wrappers
  import opened Records
  import opened JsText
  import opened Decimal
  import opened Store
  import MermaidFile

  /** What a handler sends back: a JSON body under an HTTP status code. */
  datatype Body =
    | CollectionBody(collection: Collection)
    | CollectionList(collections: seq<Collection>)
    | DiagramBody(diagram: Diagram)
    | DiagramList(diagrams: seq<Diagram>)
    | SuccessBody
    | ErrorBody(error: string)

  datatype Response = Response(status: int, body: Body)

  const DiagramFieldsRequired := "collection_id, name, and content are required"
  const NameRequired := "Name is required"
  const NoFileUploaded := "No file uploaded"
  const CollectionIdRequired := "collection_id is required"
  const CollectionNotFound := "Collection not found"
  const DiagramNotFound := "Diagram not found"
  const FailedToUpdateCollection := "Failed to update collection"
  const FailedToUpdateDiagram := "Failed to update diagram"

  /** JavaScript truthiness of a numeric body field: present and not 0. */
  predicate TruthyId(o: Option<int>) {
    o.Some? && o.value != 0
  }

  /** `description || null`: a falsy description is stored as NULL, a
      truthy one as given. */
  function NormalizeDescription(d: Option<string>): (r: Option<string>)
    ensures r.None? <==> !Truthy(d)
    ensures r.Some? ==> r == d && r.value != ""
  {
    if Truthy(d) then d else None
  }

  /** Normalising twice is normalising once. */
  lemma NormalizeDescriptionIdempotent(d: Option<string>)
    ensures NormalizeDescription(NormalizeDescription(d)) == NormalizeDescription(d)
  {
  }

  /** The validation of `POST /api/diagrams`: the 400 message exactly when
      one of the three fields is falsy. */
  function CreateDiagramRejection(collectionId: Option<int>, name: Option<string>, content: Option<string>)
    : (r: Option<string>)
    ensures r.None? <==> TruthyId(collectionId) && Truthy(name) && Truthy(content)
    ensures r.Some? ==> r.value == DiagramFieldsRequired
  {
    if !TruthyId(collectionId) || !Truthy(name) || !Truthy(content) then Some(DiagramFieldsRequired) else None
  }

  /** SQLite's INTEGER column affinity applied to the upload form's
      `collection_id` text: a decimal numeral is stored as its value. */
  function UploadedCollectionId(text: string): (r: int)
    ensures |text| > 0 && AllDigits(text) ==> r == DigitsValue(text)
    ensures !(|text| > 0 && AllDigits(text)) ==> r == 0
  {
    if |text| > 0 && AllDigits(text) then DigitsValue(text) else 0
  }

  /** Uploading the text of `n` as the form field stores the id `n`. */
  lemma UploadedCollectionIdOfNumeral(n: nat)
    ensures UploadedCollectionId(NatToString(n)) == n
  {
    DigitsValueOfNatToString(n);
  }

  /** A file received by the upload handler: its client-side name and its
      bytes already decoded as UTF-8 text. */
  datatype UploadedFile = UploadedFile(originalName: string, text: string)

  /** The diagram name an upload gets: the file name without a trailing
      `.mmd` or `.mermaid`, in any letter case. */
  function UploadName(originalName: string): (r: string)
    ensures |r| <= |originalName| && r == originalName[..|r|]
    ensures MermaidFile.HasMermaidExtension(originalName) <==> |r| < |originalName|
  {
    MermaidFile.StripMermaidExtension(originalName)
  }

  /** `GET /api/collections`: 200 with every collection, each once. */
  method ListCollections(db: Database) returns (resp: Response)
    requires db.Valid()
    ensures resp.status == 200 && resp.body.CollectionList?
    ensures forall i :: 0 <= i < |resp.body.collections| ==>
              resp.body.collections[i].id in db.collections
              && db.collections[resp.body.collections[i].id] == resp.body.collections[i]
    ensures forall k :: k in db.collections ==> db.collections[k] in resp.body.collections
  {
    var all := db.GetAllCollections();
    resp := Response(200, CollectionList(all));
  }

  /** `GET /api/collections/:id`: the row with 200, or 404. */
  method GetCollection(db: Database, id: int) returns (resp: Response)
    requires db.Valid()
    ensures resp.status == 404 <==> id !in db.collections
    ensures id !in db.collections ==> resp.body == ErrorBody(CollectionNotFound)
    ensures id in db.collections ==> resp == Response(200, CollectionBody(db.collections[id]))
  {
    var c := db.GetCollection(id);
    if c.None? {
      return Response(404, ErrorBody(CollectionNotFound));
    }
    resp := Response(200, CollectionBody(c.value));
  }

  /** `POST /api/collections`: a falsy name is a 400 and stores nothing;
      otherwise the new row with a normalised description is returned with
      201. */
  method CreateCollection(db: Database, name: Option<string>, description: Option<string>, now: string)
    returns (resp: Response)
    requires db.Valid()
    modifies db`collections, db`lastCollectionId
    ensures db.Valid()
    ensures resp.status == 400 <==> !Truthy(name)
    ensures !Truthy(name) ==>
              resp.body == ErrorBody(NameRequired)
              && db.collections == old(db.collections) && db.lastCollectionId == old(db.lastCollectionId)
    ensures Truthy(name) ==>
              && resp.status == 201 && resp.body.CollectionBody?
              && resp.body.collection.id !in old(db.collections)
              && resp.body.collection == Collection(resp.body.collection.id, name.value,
                                                    NormalizeDescription(description), now, now)
              && db.collections == old(db.collections)[resp.body.collection.id := resp.body.collection]
  {
    if !Truthy(name) {
      return Response(400, ErrorBody(NameRequired));
    }
    var c := db.CreateCollection(name.value, NormalizeDescription(description), now);
    var stored := db.GetCollection(c.id);
    resp := Response(201, CollectionBody(stored.value));
  }

  /** `PUT /api/collections/:id`: a missing row is a 404; a missing name on
      an existing row violates the `NOT NULL` constraint and is a 500; in
      both cases nothing changes. Otherwise the name (which may be empty)
      and the normalised description replace the old ones. */
  method UpdateCollection(db: Database, id: int, name: Option<string>, description: Option<string>, now: string)
    returns (resp: Response)
    requires db.Valid()
    modifies db`collections
    ensures db.Valid()
    ensures id !in old(db.collections) ==>
              resp == Response(404, ErrorBody(CollectionNotFound)) && db.collections == old(db.collections)
    ensures id in old(db.collections) && name.None? ==>
              resp == Response(500, ErrorBody(FailedToUpdateCollection)) && db.collections == old(db.collections)
    ensures id in old(db.collections) && name.Some? ==>
              var c := Collection(id, name.value, NormalizeDescription(description),
                                  old(db.collections)[id].createdAt, now);
              resp == Response(200, CollectionBody(c)) && db.collections == old(db.collections)[id := c]
  {
    if id in db.collections && name.None? {
      return Response(500, ErrorBody(FailedToUpdateCollection));
    }
    if name.Some? {
      var _ := db.UpdateCollection(id, name.value, NormalizeDescription(description), now);
    }
    var c := db.GetCollection(id);
    if c.None? {
      return Response(404, ErrorBody(CollectionNotFound));
    }
    resp := Response(200, CollectionBody(c.value));
  }

  /** `DELETE /api/collections/:id`: 404 when no row was deleted, otherwise
      success. The collection's diagrams are left in place. */
  method DeleteCollection(db: Database, id: int) returns (resp: Response)
    requires db.Valid()
    modifies db`collections
    ensures db.Valid()
    ensures resp.status == 404 <==> id !in old(db.collections)
    ensures resp == (if id in old(db.collections) then Response(200, SuccessBody)
                     else Response(404, ErrorBody(CollectionNotFound)))
    ensures db.collections == old(db.collections) - {id}
  {
    var removed := db.DeleteCollection(id);
    if !removed {
      return Response(404, ErrorBody(CollectionNotFound));
    }
    resp := Response(200, SuccessBody);
  }

  /** `GET /api/diagrams/collection/:collectionId`: 200 with exactly the
      diagrams of that collection, each once. */
  method ListDiagrams(db: Database, collectionId: int) returns (resp: Response)
    requires db.Valid()
    ensures resp.status == 200 && resp.body.DiagramList?
    ensures forall i :: 0 <= i < |resp.body.diagrams| ==>
              resp.body.diagrams[i].id in db.diagrams
              && db.diagrams[resp.body.diagrams[i].id] == resp.body.diagrams[i]
              && resp.body.diagrams[i].collectionId == collectionId
    ensures forall k :: k in db.diagrams && db.diagrams[k].collectionId == collectionId ==>
              db.diagrams[k] in resp.body.diagrams
  {
    var ds := db.GetDiagramsByCollection(collectionId);
    resp := Response(200, DiagramList(ds));
  }

  /** `GET /api/diagrams/:id`: the row with 200, or 404. */
  method GetDiagram(db: Database, id: int) returns (resp: Response)
    requires db.Valid()
    ensures resp.status == 404 <==> id !in db.diagrams
    ensures id !in db.diagrams ==> resp.body == ErrorBody(DiagramNotFound)
    ensures id in db.diagrams ==> resp == Response(200, DiagramBody(db.diagrams[id]))
  {
    var d := db.GetDiagram(id);
    if d.None? {
      return Response(404, ErrorBody(DiagramNotFound));
    }
    resp := Response(200, DiagramBody(d.value));
  }

  /** `POST /api/diagrams`: rejected with 400 unless all three fields are
      truthy, so a created diagram never has an empty name or content or a
      zero collection id. The collection id is not checked against the
      collections table. */
  method CreateDiagram(db: Database, collectionId: Option<int>, name: Option<string>, content: Option<string>,
                       now: string)
    returns (resp: Response)
    requires db.Valid()
    modifies db`diagrams, db`lastDiagramId
    ensures db.Valid()
    ensures resp.status == 400 <==> CreateDiagramRejection(collectionId, name, content).Some?
    ensures resp.status == 400 ==>
              resp.body == ErrorBody(DiagramFieldsRequired)
              && db.diagrams == old(db.diagrams) && db.lastDiagramId == old(db.lastDiagramId)
    ensures resp.status != 400 ==>
              && resp.status == 201 && resp.body.DiagramBody?
              && resp.body.diagram.id !in old(db.diagrams)
              && resp.body.diagram == Diagram(resp.body.diagram.id, collectionId.value, name.value,
                                              content.value, now, now)
              && resp.body.diagram.collectionId != 0
              && resp.body.diagram.name != "" && resp.body.diagram.content != ""
              && db.diagrams == old(db.diagrams)[resp.body.diagram.id := resp.body.diagram]
  {
    var rejection := CreateDiagramRejection(collectionId, name, content);
    if rejection.Some? {
      return Response(400, ErrorBody(rejection.value));
    }
    var d := db.CreateDiagram(collectionId.value, name.value, content.value, now);
    var stored := db.GetDiagram(d.id);
    resp := Response(201, DiagramBody(stored.value));
  }

  /** `PUT /api/diagrams/:id`: a missing row is a 404; a missing name or
      content on an existing row violates `NOT NULL` and is a 500; in both
      cases nothing changes. Otherwise name and content (either may be
      empty) replace the old ones. */
  method UpdateDiagram(db: Database, id: int, name: Option<string>, content: Option<string>, now: string)
    returns (resp: Response)
    requires db.Valid()
    modifies db`diagrams
    ensures db.Valid()
    ensures id !in old(db.diagrams) ==>
              resp == Response(404, ErrorBody(DiagramNotFound)) && db.diagrams == old(db.diagrams)
    ensures id in old(db.diagrams) && (name.None? || content.None?) ==>
              resp == Response(500, ErrorBody(FailedToUpdateDiagram)) && db.diagrams == old(db.diagrams)
    ensures id in old(db.diagrams) && name.Some? && content.Some? ==>
              var o := old(db.diagrams)[id];
              var d := Diagram(id, o.collectionId, name.value, content.value, o.createdAt, now);
              resp == Response(200, DiagramBody(d)) && db.diagrams == old(db.diagrams)[id := d]
  {
    if id in db.diagrams && (name.None? || content.None?) {
      return Response(500, ErrorBody(FailedToUpdateDiagram));
    }
    if name.Some? && content.Some? {
      var _ := db.UpdateDiagram(id, name.value, content.value, now);
    }
    var d := db.GetDiagram(id);
    if d.None? {
      return Response(404, ErrorBody(DiagramNotFound));
    }
    resp := Response(200, DiagramBody(d.value));
  }

  /** `DELETE /api/diagrams/:id`: 404 when no row was deleted, otherwise
      success. */
  method DeleteDiagram(db: Database, id: int) returns (resp: Response)
    requires db.Valid()
    modifies db`diagrams
    ensures db.Valid()
    ensures resp.status == 404 <==> id !in old(db.diagrams)
    ensures resp == (if id in old(db.diagrams) then Response(200, SuccessBody)
                     else Response(404, ErrorBody(DiagramNotFound)))
    ensures db.diagrams == old(db.diagrams) - {id}
  {
    var removed := db.DeleteDiagram(id);
    if !removed {
      return Response(404, ErrorBody(DiagramNotFound));
    }
    resp := Response(200, SuccessBody);
  }

  /** `POST /api/diagrams/upload`: no file is a 400, then a falsy
      `collection_id` form field is a 400; otherwise a diagram named after
      the file (extension stripped, no extension required) holding the
      file's text is created with 201. Empty file text is accepted. */
  method UploadDiagram(db: Database, file: Option<UploadedFile>, collectionId: Option<string>, now: string)
    returns (resp: Response)
    requires db.Valid()
    modifies db`diagrams, db`lastDiagramId
    ensures db.Valid()
    ensures file.None? ==> resp == Response(400, ErrorBody(NoFileUploaded))
    ensures file.Some? && !Truthy(collectionId) ==> resp == Response(400, ErrorBody(CollectionIdRequired))
    ensures resp.status == 400 ==>
              db.diagrams == old(db.diagrams) && db.lastDiagramId == old(db.lastDiagramId)
    ensures file.Some? && Truthy(collectionId) ==>
              && resp.status == 201 && resp.body.DiagramBody?
              && resp.body.diagram.id !in old(db.diagrams)
              && resp.body.diagram == Diagram(resp.body.diagram.id, UploadedCollectionId(collectionId.value),
                                              UploadName(file.value.originalName), file.value.text, now, now)
              && db.diagrams == old(db.diagrams)[resp.body.diagram.id := resp.body.diagram]
  {
    if file.None? {
      return Response(400, ErrorBody(NoFileUploaded));
    }
    if !Truthy(collectionId) {
      return Response(400, ErrorBody(CollectionIdRequired));
    }
    var name := UploadName(file.value.originalName);
    var d := db.CreateDiagram(UploadedCollectionId(collectionId.value), name, file.value.text, now);
    var stored := db.GetDiagram(d.id);
    resp := Response(201, DiagramBody(stored.value));
  }

  /** Uploading `foo.mmd` into collection "3" creates diagram `foo` in
      collection 3 holding the file's text. */
  method UploadExample(now: string) returns (resp: Response)
    ensures resp.status == 201 && resp.body.DiagramBody?
    ensures resp.body.diagram.name == "foo" && resp.body.diagram.collectionId == 3
    ensures resp.body.diagram.content == "graph TD; A-->B"
  {
    var db := new Database();
    MermaidFile.StripExample();
    assert DigitsValue("3") == 3;
    resp := UploadDiagram(db, Some(UploadedFile("foo.mmd", "graph TD; A-->B")), Some("3"), now);
  }
}
