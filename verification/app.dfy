/** The application shell's selection bookkeeping (src/App.tsx): the list of
    collections and the selected collection and diagram, kept consistent as
    collections and diagrams are loaded, created, updated, selected and
    deleted. Each store call's outcome is a parameter; `Err` stands for a
    rejected call, with its message. */
module App {
  import opened Wrappers
  import opened Records

  /** `collections.filter((c) => c.id !== id)`. */
  function WithoutId(cs: seq<Collection>, id: int): (r: seq<Collection>)
    ensures |r| <= |cs|
    ensures forall c :: c in r <==> c in cs && c.id != id
  {
    if cs == [] then []
    else (if cs[0].id != id then [cs[0]] else []) + WithoutId(cs[1..], id)
  }

  /** Filtering distributes over concatenation, so the entries that remain
      keep their relative order. */
  lemma {:induction false} WithoutIdAppend(a: seq<Collection>, b: seq<Collection>, id: int)
    ensures WithoutId(a + b, id) == WithoutId(a, id) + WithoutId(b, id)
    decreases |a|
  {
    if a == [] {
      assert a + b == b;
    } else {
      assert (a + b)[1..] == a[1..] + b;
      WithoutIdAppend(a[1..], b, id);
    }
  }

  /** A list without an entry of that id is left exactly as it was. */
  lemma {:induction false} WithoutIdAbsent(cs: seq<Collection>, id: int)
    requires forall c :: c in cs ==> c.id != id
    ensures WithoutId(cs, id) == cs
    decreases |cs|
  {
    if cs != [] {
      WithoutIdAbsent(cs[1..], id);
    }
  }

  /** Removing an id twice is the same as removing it once. */
  lemma WithoutIdIdempotent(cs: seq<Collection>, id: int)
    ensures WithoutId(WithoutId(cs, id), id) == WithoutId(cs, id)
  {
    WithoutIdAbsent(WithoutId(cs, id), id);
  }

  class AppState {
    var collections: seq<Collection>
    var selectedCollection: Option<Collection>
    var selectedDiagram: Option<Diagram>

    constructor ()
      ensures collections == [] && selectedCollection == None && selectedDiagram == None
    {
      collections := [];
      selectedCollection := None;
      selectedDiagram := None;
    }

    /** `fetchCollections`: a successful load replaces the list and selects
        its first entry only if nothing is selected and the list is not
        empty; a failed load changes nothing. */
    method FetchCollections(data: Option<seq<Collection>>)
      modifies this`collections, this`selectedCollection
      ensures data.None? ==> collections == old(collections) && selectedCollection == old(selectedCollection)
      ensures data.Some? ==> collections == data.value
      ensures data.Some? && |data.value| > 0 && old(selectedCollection).None? ==>
                selectedCollection == Some(data.value[0])
      ensures data.Some? && (|data.value| == 0 || old(selectedCollection).Some?) ==>
                selectedCollection == old(selectedCollection)
    {
      if data.Some? {
        collections := data.value;
        if |data.value| > 0 && selectedCollection.None? {
          selectedCollection := Some(data.value[0]);
        }
      }
    }

    /** `handleCollectionSelect`: selects the collection and clears the diagram. */
    method SelectCollection(c: Collection)
      modifies this`selectedCollection, this`selectedDiagram
      ensures selectedCollection == Some(c) && selectedDiagram == None
    {
      selectedCollection := Some(c);
      selectedDiagram := None;
    }

    /** `handleDiagramSelect`. */
    method SelectDiagram(d: Diagram)
      modifies this`selectedDiagram
      ensures selectedDiagram == Some(d)
    {
      selectedDiagram := Some(d);
    }

    /** `handleDiagramCreate`: the created record becomes the selected
        diagram; a failure is passed on to the caller and selects nothing. */
    method DiagramCreate(result: Result<Diagram, string>) returns (r: Result<Diagram, string>)
      modifies this`selectedDiagram
      ensures r == result
      ensures result.Ok? ==> selectedDiagram == Some(result.value)
      ensures result.Err? ==> selectedDiagram == old(selectedDiagram)
    {
      if result.Ok? {
        selectedDiagram := Some(result.value);
      }
      r := result;
    }

    /** `handleDiagramUpdate`: the same rule for the updated record. */
    method DiagramUpdate(result: Result<Diagram, string>) returns (r: Result<Diagram, string>)
      modifies this`selectedDiagram
      ensures r == result
      ensures result.Ok? ==> selectedDiagram == Some(result.value)
      ensures result.Err? ==> selectedDiagram == old(selectedDiagram)
    {
      if result.Ok? {
        selectedDiagram := Some(result.value);
      }
      r := result;
    }

    /** `handleCollectionCreate`: the created collection is appended at the
        end of the list and selected; a failure is passed on and changes
        nothing. */
    method CollectionCreate(result: Result<Collection, string>) returns (r: Result<Collection, string>)
      modifies this`collections, this`selectedCollection
      ensures r == result
      ensures result.Ok? ==>
                collections == old(collections) + [result.value] && selectedCollection == Some(result.value)
      ensures result.Err? ==>
                collections == old(collections) && selectedCollection == old(selectedCollection)
    {
      if result.Ok? {
        collections := collections + [result.value];
        selectedCollection := Some(result.value);
      }
      r := result;
    }

    /** `handleCollectionDelete`: when the store reports a removed row, the
        entries with that id leave the list; if the deleted collection was
        selected, the first remaining one (or none) is selected and the
        diagram cleared, and otherwise the selection stays. When the store
        removed nothing or failed, an alert is raised and nothing changes. */
    method CollectionDelete(id: int, outcome: Result<bool, string>) returns (alerted: bool)
      modifies this
      ensures alerted <==> outcome != Ok(true)
      ensures outcome == Ok(true) ==> collections == WithoutId(old(collections), id)
      ensures outcome == Ok(true) && old(selectedCollection).Some? && old(selectedCollection).value.id == id ==>
                selectedCollection == (if |collections| > 0 then Some(collections[0]) else None)
                && selectedDiagram == None
      ensures outcome == Ok(true) && !(old(selectedCollection).Some? && old(selectedCollection).value.id == id) ==>
                selectedCollection == old(selectedCollection) && selectedDiagram == old(selectedDiagram)
      ensures outcome != Ok(true) ==>
                collections == old(collections) && selectedCollection == old(selectedCollection)
                && selectedDiagram == old(selectedDiagram)
    {
      alerted := false;
      if outcome == Ok(true) {
        var updated := WithoutId(collections, id);
        collections := updated;
        if selectedCollection.Some? && selectedCollection.value.id == id {
          selectedCollection := if |updated| > 0 then Some(updated[0]) else None;
          selectedDiagram := None;
        }
      } else {
        alerted := true;
      }
    }

    /** `handleDiagramDelete`: a removed row clears the selected diagram only
        if it was the deleted one. */
    method DiagramDelete(id: int, outcome: Result<bool, string>) returns (alerted: bool)
      modifies this`selectedDiagram
      ensures alerted <==> outcome != Ok(true)
      ensures outcome == Ok(true) && old(selectedDiagram).Some? && old(selectedDiagram).value.id == id ==>
                selectedDiagram == None
      ensures !(outcome == Ok(true) && old(selectedDiagram).Some? && old(selectedDiagram).value.id == id) ==>
                selectedDiagram == old(selectedDiagram)
    {
      alerted := false;
      if outcome == Ok(true) {
        if selectedDiagram.Some? && selectedDiagram.value.id == id {
          selectedDiagram := None;
        }
      } else {
        alerted := true;
      }
    }
  }
}
