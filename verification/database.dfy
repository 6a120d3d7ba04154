/** The persistence gateway (src-tauri/src/database.rs) over an abstract
    table store: the `collections` and `diagrams` tables are maps from id to
    row, and each table's AUTOINCREMENT counter is the largest id it ever
    handed out, so ids are fresh and never reused. `now` is the store's
    `CURRENT_TIMESTAMP`. Foreign keys are not enforced by the store, so a
    delete never cascades and a diagram may name any collection id. */
module Store {
  import opened Wrappers
  import opened Records

  /** `rusqlite::Error::QueryReturnedNoRows`, the only store error the model
      produces. */
  datatype DbError = QueryReturnedNoRows

  const DefaultCollectionName := "Default Collection"
  const DefaultCollectionDescription := "Your default collection of diagrams"

  class Database {
    var collections: map<int, Collection>
    var diagrams: map<int, Diagram>
    var lastCollectionId: nat
    var lastDiagramId: nat

    /** Every row is stored under its own id, and no id exceeds its table's
        counter. */
    ghost predicate Valid()
      reads this
    {
      && (forall k :: k in collections ==> collections[k].id == k && 0 < k <= lastCollectionId)
      && (forall k :: k in diagrams ==> diagrams[k].id == k && 0 < k <= lastDiagramId)
    }

    /** A database file with empty tables. */
    constructor ()
      ensures Valid() && collections == map[] && diagrams == map[]
      ensures lastCollectionId == 0 && lastDiagramId == 0
    {
      collections := map[];
      diagrams := map[];
      lastCollectionId := 0;
      lastDiagramId := 0;
    }

    /** `init`: a "Default Collection" is inserted exactly when the
        collections table is empty; afterwards it is never empty, so a second
        `init` adds nothing. */
    method Init(now: string)
      requires Valid()
      modifies this
      ensures Valid()
      ensures |collections| > 0
      ensures diagrams == old(diagrams) && lastDiagramId == old(lastDiagramId)
      ensures |old(collections)| == 0 ==>
                lastCollectionId == old(lastCollectionId) + 1
                && collections == map[lastCollectionId := Collection(lastCollectionId, DefaultCollectionName,
                                                   Some(DefaultCollectionDescription), now, now)]
      ensures |old(collections)| > 0 ==>
                collections == old(collections) && lastCollectionId == old(lastCollectionId)
    {
      if |collections| == 0 {
        var _ := CreateCollection(DefaultCollectionName, Some(DefaultCollectionDescription), now);
      }
    }

    /** `get_all_collections`: every stored collection exactly once. The
        rows are read in id order; the ordering the query asks for, newest
        first by a timestamp that ties within a second, is not modelled. */
    method GetAllCollections() returns (r: seq<Collection>)
      requires Valid()
      ensures forall i :: 0 <= i < |r| ==> r[i].id in collections && collections[r[i].id] == r[i]
      ensures forall k :: k in collections ==> collections[k] in r
      ensures forall i, j :: 0 <= i < j < |r| ==> r[i].id < r[j].id
    {
      r := [];
      var id := 1;
      while id <= lastCollectionId
        invariant 1 <= id <= lastCollectionId + 1
        invariant forall i :: 0 <= i < |r| ==>
                    r[i].id in collections && collections[r[i].id] == r[i] && r[i].id < id
        invariant forall k :: k in collections && k < id ==> collections[k] in r
        invariant forall i, j :: 0 <= i < j < |r| ==> r[i].id < r[j].id
      {
        if id in collections {
          r := r + [collections[id]];
        }
        id := id + 1;
      }
    }

    /** `get_collection`: the row with that id, or `None`. */
    method GetCollection(id: int) returns (r: Option<Collection>)
      requires Valid()
      ensures r.None? <==> id !in collections
      ensures r.Some? ==> r.value == collections[id] && r.value.id == id
    {
      r := if id in collections then Some(collections[id]) else None;
    }

    /** `create_collection`: inserts under a fresh id and returns the stored
        row, with the given name and description. */
    method CreateCollection(name: string, description: Option<string>, now: string) returns (c: Collection)
      requires Valid()
      modifies this`collections, this`lastCollectionId
      ensures Valid()
      ensures c.id !in old(collections) && c.id == lastCollectionId == old(lastCollectionId) + 1
      ensures c == Collection(c.id, name, description, now, now)
      ensures collections == old(collections)[c.id := c]
    {
      lastCollectionId := lastCollectionId + 1;
      c := Collection(lastCollectionId, name, description, now, now);
      collections := collections[c.id := c];
    }

    /** `update_collection`: replaces name and description and stamps the
        update; a missing id is `QueryReturnedNoRows` and changes nothing. */
    method UpdateCollection(id: int, name: string, description: Option<string>, now: string)
      returns (r: Result<Collection, DbError>)
      requires Valid()
      modifies this`collections
      ensures Valid()
      ensures id !in old(collections) ==> r == Err(QueryReturnedNoRows) && collections == old(collections)
      ensures id in old(collections) ==>
                r == Ok(Collection(id, name, description, old(collections)[id].createdAt, now))
                && collections == old(collections)[id := r.value]
    {
      if id !in collections {
        return Err(QueryReturnedNoRows);
      }
      var c := Collection(id, name, description, collections[id].createdAt, now);
      collections := collections[id := c];
      r := Ok(c);
    }

    /** `delete_collection`: true exactly when a row with that id existed and
        was removed. The collection's diagrams stay. */
    method DeleteCollection(id: int) returns (removed: bool)
      requires Valid()
      modifies this`collections
      ensures Valid()
      ensures removed <==> id in old(collections)
      ensures collections == old(collections) - {id}
    {
      removed := id in collections;
      collections := collections - {id};
    }

    /** `get_diagrams_by_collection`: exactly the diagrams whose
        `collection_id` matches, each once (read in id order; the query's
        timestamp ordering is not modelled). */
    method GetDiagramsByCollection(collectionId: int) returns (r: seq<Diagram>)
      requires Valid()
      ensures forall i :: 0 <= i < |r| ==>
                r[i].id in diagrams && diagrams[r[i].id] == r[i] && r[i].collectionId == collectionId
      ensures forall k :: k in diagrams && diagrams[k].collectionId == collectionId ==> diagrams[k] in r
      ensures forall i, j :: 0 <= i < j < |r| ==> r[i].id < r[j].id
    {
      r := [];
      var id := 1;
      while id <= lastDiagramId
        invariant 1 <= id <= lastDiagramId + 1
        invariant forall i :: 0 <= i < |r| ==>
                    r[i].id in diagrams && diagrams[r[i].id] == r[i] && r[i].id < id
                    && r[i].collectionId == collectionId
        invariant forall k :: k in diagrams && k < id && diagrams[k].collectionId == collectionId ==>
                    diagrams[k] in r
        invariant forall i, j :: 0 <= i < j < |r| ==> r[i].id < r[j].id
      {
        if id in diagrams && diagrams[id].collectionId == collectionId {
          r := r + [diagrams[id]];
        }
        id := id + 1;
      }
    }

    /** `get_diagram`: the row with that id, or `None`. */
    method GetDiagram(id: int) returns (r: Option<Diagram>)
      requires Valid()
      ensures r.None? <==> id !in diagrams
      ensures r.Some? ==> r.value == diagrams[id] && r.value.id == id
    {
      r := if id in diagrams then Some(diagrams[id]) else None;
    }

    /** `create_diagram`: stores and returns the given collection id, name and
        content under a fresh id; the collection id is not checked. */
    method CreateDiagram(collectionId: int, name: string, content: string, now: string) returns (d: Diagram)
      requires Valid()
      modifies this`diagrams, this`lastDiagramId
      ensures Valid()
      ensures d.id !in old(diagrams) && d.id == lastDiagramId == old(lastDiagramId) + 1
      ensures d == Diagram(d.id, collectionId, name, content, now, now)
      ensures diagrams == old(diagrams)[d.id := d]
    {
      lastDiagramId := lastDiagramId + 1;
      d := Diagram(lastDiagramId, collectionId, name, content, now, now);
      diagrams := diagrams[d.id := d];
    }

    /** `update_diagram`: replaces name and content and stamps the update; a
        missing id is `QueryReturnedNoRows` and changes nothing. */
    method UpdateDiagram(id: int, name: string, content: string, now: string)
      returns (r: Result<Diagram, DbError>)
      requires Valid()
      modifies this`diagrams
      ensures Valid()
      ensures id !in old(diagrams) ==> r == Err(QueryReturnedNoRows) && diagrams == old(diagrams)
      ensures id in old(diagrams) ==>
                r == Ok(Diagram(id, old(diagrams)[id].collectionId, name, content, old(diagrams)[id].createdAt, now))
                && diagrams == old(diagrams)[id := r.value]
    {
      if id !in diagrams {
        return Err(QueryReturnedNoRows);
      }
      var old_ := diagrams[id];
      var d := Diagram(id, old_.collectionId, name, content, old_.createdAt, now);
      diagrams := diagrams[id := d];
      r := Ok(d);
    }

    /** `delete_diagram`: true exactly when a row with that id existed and
        was removed. */
    method DeleteDiagram(id: int) returns (removed: bool)
      requires Valid()
      modifies this`diagrams
      ensures Valid()
      ensures removed <==> id in old(diagrams)
      ensures diagrams == old(diagrams) - {id}
    {
      removed := id in diagrams;
      diagrams := diagrams - {id};
    }
  }

  /** Creating a collection and reading it back by the returned id gives the
      same record, whose id no other row had. */
  method CreateThenGet(db: Database, name: string, description: Option<string>, now: string)
    returns (created: Collection, fetched: Option<Collection>)
    requires db.Valid()
    modifies db
    ensures fetched == Some(created)
    ensures created.name == name && created.description == description
    ensures created.id !in old(db.collections)
  {
    created := db.CreateCollection(name, description, now);
    fetched := db.GetCollection(created.id);
  }

  /** One collection with two diagrams; deleting the first leaves the
      second as the only diagram listed for the collection, and still
      readable by id. */
  method DeleteScenario(now: string) returns (listed: seq<Diagram>, d2: Diagram, afterDelete: Option<Diagram>)
    ensures d2 in listed
    ensures forall i :: 0 <= i < |listed| ==> listed[i] == d2
    ensures afterDelete == Some(d2)
  {
    var db := new Database();
    var a := db.CreateCollection("A", None, now);
    var d1 := db.CreateDiagram(a.id, "D1", "graph TD", now);
    d2 := db.CreateDiagram(a.id, "D2", "graph LR", now);
    var removed := db.DeleteDiagram(d1.id);
    assert db.diagrams == map[d2.id := d2];
    listed := db.GetDiagramsByCollection(a.id);
    afterDelete := db.GetDiagram(d2.id);
  }
}
