/** The editor's dirty-flag and autosave coordinator
    (src/components/DiagramEditor.tsx). Every handler is one atomic event; the
    outcome of each awaited save is a parameter. The 2-second autosave timer
    is the pair `timerArmed`/`timerNameFlag`: the autosave effect re-arms it
    whenever one of its dependencies changes, and `AutoSaveTimerFires` is the
    moment it goes off. */
module Editor {
  import opened Records

  /** The arguments of one `onSave`/`onUpdate` call: id, name and content. */
  datatype UpdateRequest = UpdateRequest(id: int, name: string, content: string)

  /** The dependency list of the autosave effect. */
  datatype EffectDeps = EffectDeps(
    content: string,
    hasChanges: bool,
    autoSaveEnabled: bool,
    diagramId: int,
    diagramName: string,
    diagramContent: string)

  class DiagramEditor {
    /** The `diagram` property: the record last handed down by the parent. */
    var diagram: Diagram
    var name: string
    var content: string
    var hasChanges: bool
    var hasNameChanges: bool
    var autoSaveEnabled: bool
    /** A 2-second autosave timer is pending. */
    var timerArmed: bool
    /** The value of `hasNameChanges` that the pending timer's callback closed over. */
    var timerNameFlag: bool

    function Deps(): EffectDeps
      reads this
    {
      EffectDeps(content, hasChanges, autoSaveEnabled, diagram.id, diagram.name, diagram.content)
    }

    /** The autosave effect's condition: unsaved changes, autosave on, and
        content that differs from the persisted content. */
    predicate AutoSaveDue()
      reads this
    {
      hasChanges && autoSaveEnabled && content != diagram.content
    }

    /** The Save button is enabled, and the "Unsaved changes" indicator shown,
        exactly when `hasChanges` holds. */
    predicate SaveEnabled()
      reads this
    {
      hasChanges
    }

    /** A pending timer was armed under the effect's condition, which still holds. */
    ghost predicate Valid()
      reads this
    {
      timerArmed ==> AutoSaveDue()
    }

    /** A pending name edit keeps the unsaved indicator on. */
    predicate NameEditKeepsUnsaved()
      reads this
    {
      hasNameChanges ==> SaveEnabled()
    }

    /** What the autosave effect leaves behind after a render whose previous
        dependencies were `prev`: if any dependency changed, the old timer is
        cleared and a new one armed exactly when autosave is due; otherwise the
        timer is left as it was. */
    ghost predicate TimerFollows(prev: EffectDeps, prevArmed: bool, prevFlag: bool)
      reads this
    {
      if Deps() != prev then timerArmed == AutoSaveDue() && timerNameFlag == hasNameChanges
      else timerArmed == prevArmed && timerNameFlag == prevFlag
    }

    method RunAutoSaveEffect(prev: EffectDeps)
      modifies this`timerArmed, this`timerNameFlag
      ensures TimerFollows(prev, old(timerArmed), old(timerNameFlag))
    {
      if Deps() != prev {
        timerArmed := AutoSaveDue();
        timerNameFlag := hasNameChanges;
      }
    }

    /** Mounting: name and content come from the diagram, both flags are clear
        and no timer is pending. */
    constructor (d: Diagram, autoSave: bool)
      ensures diagram == d && name == d.name && content == d.content
      ensures !hasChanges && !hasNameChanges && autoSaveEnabled == autoSave
      ensures !timerArmed
      ensures Valid() && NameEditKeepsUnsaved()
    {
      diagram := d;
      name := d.name;
      content := d.content;
      hasChanges := false;
      hasNameChanges := false;
      autoSaveEnabled := autoSave;
      timerArmed := false;
      timerNameFlag := false;
    }

    /** `handleContentChange`: sets the content and `hasChanges`; the name flag
        is untouched. */
    method ContentChange(newContent: string)
      requires Valid()
      modifies this
      ensures content == newContent && hasChanges && SaveEnabled()
      ensures name == old(name) && hasNameChanges == old(hasNameChanges)
      ensures diagram == old(diagram) && autoSaveEnabled == old(autoSaveEnabled)
      ensures TimerFollows(old(Deps()), old(timerArmed), old(timerNameFlag))
      ensures Valid()
      ensures old(NameEditKeepsUnsaved()) ==> NameEditKeepsUnsaved()
    {
      var prev := Deps();
      content := newContent;
      hasChanges := true;
      RunAutoSaveEffect(prev);
    }

    /** `handleNameChange`: sets the name and both flags. */
    method NameChange(newName: string)
      requires Valid()
      modifies this
      ensures name == newName && hasNameChanges && hasChanges && SaveEnabled()
      ensures content == old(content) && diagram == old(diagram) && autoSaveEnabled == old(autoSaveEnabled)
      ensures TimerFollows(old(Deps()), old(timerArmed), old(timerNameFlag))
      ensures Valid() && NameEditKeepsUnsaved()
    {
      var prev := Deps();
      name := newName;
      hasNameChanges := true;
      hasChanges := true;
      RunAutoSaveEffect(prev);
    }

    /** `handleAutoSaveToggle`, without the preference's persistence. */
    method SetAutoSave(enabled: bool)
      requires Valid()
      modifies this
      ensures autoSaveEnabled == enabled
      ensures name == old(name) && content == old(content) && diagram == old(diagram)
      ensures hasChanges == old(hasChanges) && hasNameChanges == old(hasNameChanges)
      ensures TimerFollows(old(Deps()), old(timerArmed), old(timerNameFlag))
      ensures Valid()
      ensures !enabled ==> !timerArmed
    {
      var prev := Deps();
      autoSaveEnabled := enabled;
      RunAutoSaveEffect(prev);
    }

    /** `handleSave`: sends the edited name and content; a successful save
        clears both flags, a failed one leaves them as they were. */
    method Save(ok: bool) returns (req: UpdateRequest)
      requires Valid()
      modifies this
      ensures req == UpdateRequest(diagram.id, name, content)
      ensures name == old(name) && content == old(content) && diagram == old(diagram)
      ensures autoSaveEnabled == old(autoSaveEnabled)
      ensures ok ==> !hasChanges && !hasNameChanges && !SaveEnabled()
      ensures !ok ==> hasChanges == old(hasChanges) && hasNameChanges == old(hasNameChanges)
      ensures TimerFollows(old(Deps()), old(timerArmed), old(timerNameFlag))
      ensures Valid()
      ensures old(NameEditKeepsUnsaved()) ==> NameEditKeepsUnsaved()
    {
      req := UpdateRequest(diagram.id, name, content);
      var prev := Deps();
      if ok {
        hasChanges := false;
        hasNameChanges := false;
      }
      RunAutoSaveEffect(prev);
    }

    /** The pending timer goes off and `handleAutoSave` runs: the content is
        sent under the persisted name `diagram.name`, never the edited one.
        After a successful update `hasChanges` is cleared unless a name edit is
        pending; `hasNameChanges` is never cleared; a failed update changes no
        flag. This reads the current `hasNameChanges` (see
        `AutoSaveTimerFiresAsWritten` for the captured one). */
    method AutoSaveTimerFires(ok: bool) returns (req: UpdateRequest)
      requires Valid() && timerArmed
      modifies this
      ensures req == UpdateRequest(diagram.id, diagram.name, content)
      ensures req.name == old(diagram.name) && req.content != old(diagram.content)
      ensures name == old(name) && content == old(content) && diagram == old(diagram)
      ensures autoSaveEnabled == old(autoSaveEnabled)
      ensures hasNameChanges == old(hasNameChanges)
      ensures hasChanges == (old(hasChanges) && !(ok && !old(hasNameChanges)))
      ensures TimerFollows(old(Deps()), false, old(timerNameFlag))
      ensures Valid()
      ensures old(NameEditKeepsUnsaved()) ==> NameEditKeepsUnsaved()
    {
      req := UpdateRequest(diagram.id, diagram.name, content);
      timerArmed := false;
      var prev := Deps();
      if ok && !hasNameChanges {
        hasChanges := false;
      }
      RunAutoSaveEffect(prev);
    }

    /** `handleAutoSave` as written: the timer's callback tests the
        `hasNameChanges` it closed over when the effect armed it. That flag is
        not in the effect's dependency list, so a name edit made after the
        timer was armed is not seen. */
    method AutoSaveTimerFiresAsWritten(ok: bool) returns (req: UpdateRequest)
      requires Valid() && timerArmed
      modifies this
      ensures req == UpdateRequest(diagram.id, diagram.name, content)
      ensures name == old(name) && content == old(content) && diagram == old(diagram)
      ensures autoSaveEnabled == old(autoSaveEnabled)
      ensures hasNameChanges == old(hasNameChanges)
      ensures hasChanges == (old(hasChanges) && !(ok && !old(timerNameFlag)))
      ensures TimerFollows(old(Deps()), false, old(timerNameFlag))
      ensures Valid()
    {
      req := UpdateRequest(diagram.id, diagram.name, content);
      timerArmed := false;
      var prev := Deps();
      if ok && !timerNameFlag {
        hasChanges := false;
      }
      RunAutoSaveEffect(prev);
    }

    /** A new `diagram` property. When its id differs, name and content are
        reloaded from it and both flags cleared, which also cancels a pending
        timer; with the same id only the persisted record is replaced. */
    method DiagramChanged(d: Diagram)
      requires Valid()
      modifies this
      ensures diagram == d && autoSaveEnabled == old(autoSaveEnabled)
      ensures d.id != old(diagram.id) ==>
                name == d.name && content == d.content && !hasChanges && !hasNameChanges && !timerArmed
      ensures d.id == old(diagram.id) ==>
                name == old(name) && content == old(content)
                && hasChanges == old(hasChanges) && hasNameChanges == old(hasNameChanges)
      ensures TimerFollows(old(Deps()), old(timerArmed), old(timerNameFlag))
      ensures Valid()
      ensures old(NameEditKeepsUnsaved()) ==> NameEditKeepsUnsaved()
    {
      var prev := Deps();
      if d.id != diagram.id {
        name := d.name;
        content := d.content;
        hasChanges := false;
        hasNameChanges := false;
      }
      diagram := d;
      RunAutoSaveEffect(prev);
    }
  }

  /** Content edit, then a name edit within the debounce, then a successful
      autosave, in the code as written: the name edit is still pending but the
      unsaved indicator is off and Save is disabled. */
  method StaleNameFlagScenario() returns (nameEdited: bool, unsavedShown: bool)
    ensures nameEdited && !unsavedShown
  {
    var e := new DiagramEditor(Diagram(1, 1, "Flow", "graph TD", "t0", "t0"), true);
    e.ContentChange("graph LR");
    e.NameChange("Flow v2");
    var _ := e.AutoSaveTimerFiresAsWritten(true);
    nameEdited, unsavedShown := e.hasNameChanges, e.hasChanges;
  }

  /** The same events with the current name flag: the indicator stays on. */
  method NameFlagScenario() returns (nameEdited: bool, unsavedShown: bool)
    ensures nameEdited && unsavedShown
  {
    var e := new DiagramEditor(Diagram(1, 1, "Flow", "graph TD", "t0", "t0"), true);
    e.ContentChange("graph LR");
    e.NameChange("Flow v2");
    var _ := e.AutoSaveTimerFires(true);
    nameEdited, unsavedShown := e.hasNameChanges, e.hasChanges;
  }
}
