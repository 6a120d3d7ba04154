/** The sidebar (src/components/CollectionsBrowser.tsx): the diagram list of
    the selected collection, file upload, the new-collection form, new
    diagrams and the two delete confirmations. Store calls and their reloads
    are parameters: `created`/`deleted` is the outcome of the call, `fetched`
    the outcome of the `fetchDiagrams` that follows it (`None`: it failed
    and the list stays). Calls the component makes are returned as requests. */
module Browser {
  import opened Wrappers
  import opened Records
  import opened MermaidFile
  import JsText
  import Decimal

  /** `prevDiagrams.map((d) => d.id === selected.id ? selected : d)`. */
  function ReplaceById(ds: seq<Diagram>, d: Diagram): (r: seq<Diagram>)
    ensures |r| == |ds|
    ensures forall i :: 0 <= i < |ds| ==> r[i] == (if ds[i].id == d.id then d else ds[i])
  {
    if ds == [] then []
    else [if ds[0].id == d.id then d else ds[0]] + ReplaceById(ds[1..], d)
  }

  /** Replacing twice with the same record is replacing once. */
  lemma ReplaceByIdIdempotent(ds: seq<Diagram>, d: Diagram)
    ensures ReplaceById(ReplaceById(ds, d), d) == ReplaceById(ds, d)
  {
  }

  /** A record whose id is not in the list leaves the list unchanged. */
  lemma ReplaceByIdAbsent(ds: seq<Diagram>, d: Diagram)
    requires forall i :: 0 <= i < |ds| ==> ds[i].id != d.id
    ensures ReplaceById(ds, d) == ds
  {
  }

  const NewDiagramPrefix := "New Diagram "

  /** The content of a new diagram: a three-node flowchart. */
  const NewDiagramContent := "graph TD\n    A[Start] --> B[Process]\n    B --> C[End]"

  /** `New Diagram ${diagrams.length + 1}`. */
  function NewDiagramName(count: nat): (r: string)
    ensures |r| > |NewDiagramPrefix| && r[..|NewDiagramPrefix|] == NewDiagramPrefix
    ensures Decimal.AllDigits(r[|NewDiagramPrefix|..])
    ensures Decimal.DigitsValue(r[|NewDiagramPrefix|..]) == count + 1
  {
    var digits := Decimal.NatToString(count + 1);
    Decimal.DigitsValueOfNatToString(count + 1);
    assert (NewDiagramPrefix + digits)[|NewDiagramPrefix|..] == digits;
    NewDiagramPrefix + digits
  }

  /** Lists of different lengths give new diagrams different names. */
  lemma NewDiagramNameInjective(m: nat, n: nat)
    requires NewDiagramName(m) == NewDiagramName(n)
    ensures m == n
  {
  }

  /** A picked file: its name and its text. */
  datatype UploadFile = UploadFile(name: string, text: string)

  /** The arguments of `createDiagram`. */
  datatype CreateDiagramRequest = CreateDiagramRequest(collectionId: int, name: string, content: string)

  /** The arguments of `onCollectionCreate`. */
  datatype CreateCollectionRequest = CreateCollectionRequest(name: string, description: string)

  class CollectionsBrowser {
    var diagrams: seq<Diagram>
    var showNewCollection: bool
    var newCollectionName: string
    var newCollectionDesc: string
    var isUploading: bool
    var deleteCollectionId: Option<int>
    var deleteDiagramId: Option<int>

    constructor ()
      ensures diagrams == [] && !showNewCollection && newCollectionName == "" && newCollectionDesc == ""
      ensures !isUploading && deleteCollectionId == None && deleteDiagramId == None
    {
      diagrams := [];
      showNewCollection := false;
      newCollectionName := "";
      newCollectionDesc := "";
      isUploading := false;
      deleteCollectionId := None;
      deleteDiagramId := None;
    }

    /** The effect on `selectedDiagram`: the list entry with the same id is
        replaced by it; length and every other entry stay. */
    method SelectedDiagramChanged(selected: Option<Diagram>)
      modifies this`diagrams
      ensures selected.None? ==> diagrams == old(diagrams)
      ensures selected.Some? ==> diagrams == ReplaceById(old(diagrams), selected.value)
    {
      if selected.Some? {
        diagrams := ReplaceById(diagrams, selected.value);
      }
    }

    /** `fetchDiagrams`: a successful load replaces the list. */
    method DiagramsFetched(fetched: Option<seq<Diagram>>)
      modifies this`diagrams
      ensures diagrams == (if fetched.Some? then fetched.value else old(diagrams))
    {
      if fetched.Some? {
        diagrams := fetched.value;
      }
    }

    /** The first half of `handleFileUpload`: nothing without a file or a
        selected collection; a name without a `.mmd`/`.mermaid` extension is
        refused with an alert; otherwise the upload starts and the diagram is
        requested under the name without its extension, with the file's text. */
    method StartUpload(file: Option<UploadFile>, selected: Option<Collection>)
      returns (req: Option<CreateDiagramRequest>, refused: bool)
      modifies this`isUploading
      ensures file.None? || selected.None? ==> req.None? && !refused && isUploading == old(isUploading)
      ensures file.Some? && selected.Some? && !HasMermaidExtension(file.value.name) ==>
                req.None? && refused && isUploading == old(isUploading)
      ensures file.Some? && selected.Some? && HasMermaidExtension(file.value.name) ==>
                !refused && isUploading
                && req == Some(CreateDiagramRequest(selected.value.id,
                                                    StripMermaidExtension(file.value.name),
                                                    file.value.text))
    {
      req, refused := None, false;
      if file.None? || selected.None? {
        return;
      }
      if !HasMermaidExtension(file.value.name) {
        refused := true;
        return;
      }
      isUploading := true;
      var name := StripMermaidExtension(file.value.name);
      req := Some(CreateDiagramRequest(selected.value.id, name, file.value.text));
    }

    /** The second half of `handleFileUpload`: whatever the outcome the upload
        ends; a created diagram is followed by a reload of the list and is
        handed to the parent for selection. */
    method FinishUpload(created: Option<Diagram>, fetched: Option<seq<Diagram>>)
      returns (toSelect: Option<Diagram>)
      modifies this`isUploading, this`diagrams
      ensures !isUploading
      ensures toSelect == created
      ensures diagrams == (if created.Some? && fetched.Some? then fetched.value else old(diagrams))
    {
      toSelect := None;
      if created.Some? {
        DiagramsFetched(fetched);
        toSelect := created;
      }
      isUploading := false;
    }

    /** `handleCreateCollection`: a blank name does nothing; otherwise the
        form's name and description are sent, and a success hides and clears
        the form while a failure leaves it. */
    method CreateCollection(created: bool) returns (req: Option<CreateCollectionRequest>)
      modifies this`showNewCollection, this`newCollectionName, this`newCollectionDesc
      ensures JsText.IsBlank(old(newCollectionName)) <==> req.None?
      ensures req.Some? ==> req.value == CreateCollectionRequest(old(newCollectionName), old(newCollectionDesc))
      ensures req.Some? && created ==> !showNewCollection && newCollectionName == "" && newCollectionDesc == ""
      ensures !(req.Some? && created) ==>
                showNewCollection == old(showNewCollection) && newCollectionName == old(newCollectionName)
                && newCollectionDesc == old(newCollectionDesc)
    {
      if JsText.IsBlank(newCollectionName) {
        return None;
      }
      req := Some(CreateCollectionRequest(newCollectionName, newCollectionDesc));
      if created {
        showNewCollection := false;
        newCollectionName := "";
        newCollectionDesc := "";
      }
    }

    /** `handleCreateDiagram`: needs a selected collection and a create
        handler; the new diagram is "New Diagram N+1" for a list of N entries,
        with the default flowchart as content. */
    method CreateDiagram(selected: Option<Collection>, hasCreateHandler: bool,
                         created: Option<Diagram>, fetched: Option<seq<Diagram>>)
      returns (req: Option<CreateDiagramRequest>, toSelect: Option<Diagram>)
      modifies this`diagrams
      ensures selected.None? || !hasCreateHandler ==> req.None? && toSelect.None? && diagrams == old(diagrams)
      ensures selected.Some? && hasCreateHandler ==>
                req == Some(CreateDiagramRequest(selected.value.id, NewDiagramName(|old(diagrams)|), NewDiagramContent))
                && toSelect == created
                && diagrams == (if created.Some? && fetched.Some? then fetched.value else old(diagrams))
    {
      req, toSelect := None, None;
      if selected.None? || !hasCreateHandler {
        return;
      }
      var name := NewDiagramName(|diagrams|);
      req := Some(CreateDiagramRequest(selected.value.id, name, NewDiagramContent));
      if created.Some? {
        DiagramsFetched(fetched);
        toSelect := created;
      }
    }

    /** The delete button of a diagram opens the confirmation. */
    method AskDeleteDiagram(id: int)
      modifies this`deleteDiagramId
      ensures deleteDiagramId == Some(id)
    {
      deleteDiagramId := Some(id);
    }

    /** `handleDeleteDiagram`: with no pending id or no selected collection it
        does nothing; otherwise the pending id is handlerResolved, and on success the
        list is reloaded and the pending id cleared. */
    method ConfirmDeleteDiagram(selected: Option<Collection>, handlerResolved: bool, fetched: Option<seq<Diagram>>)
      returns (req: Option<int>)
      modifies this`deleteDiagramId, this`diagrams
      ensures old(deleteDiagramId).None? || selected.None? ==>
                req.None? && deleteDiagramId == old(deleteDiagramId) && diagrams == old(diagrams)
      ensures old(deleteDiagramId).Some? && selected.Some? ==> req == old(deleteDiagramId)
      ensures req.Some? && handlerResolved ==>
                deleteDiagramId == None && diagrams == (if fetched.Some? then fetched.value else old(diagrams))
      ensures req.Some? && !handlerResolved ==> deleteDiagramId == old(deleteDiagramId) && diagrams == old(diagrams)
    {
      if deleteDiagramId.None? || selected.None? {
        return None;
      }
      req := deleteDiagramId;
      if handlerResolved {
        DiagramsFetched(fetched);
        deleteDiagramId := None;
      }
    }

    /** The delete button of a collection opens the confirmation. */
    method AskDeleteCollection(id: int)
      modifies this`deleteCollectionId
      ensures deleteCollectionId == Some(id)
    {
      deleteCollectionId := Some(id);
    }

    /** `handleDeleteCollection`: with a pending id it asks the parent to
        delete it and, when that call resolves, clears the pending id. As for
        diagrams, the application's handler never rejects, so the
        confirmation closes whether or not the delete succeeded. */
    method ConfirmDeleteCollection(handlerResolved: bool) returns (req: Option<int>)
      modifies this`deleteCollectionId
      ensures req == old(deleteCollectionId)
      ensures deleteCollectionId == (if req.Some? && handlerResolved then None else old(deleteCollectionId))
    {
      req := deleteCollectionId;
      if deleteCollectionId.Some? && handlerResolved {
        deleteCollectionId := None;
      }
    }
  }
}
