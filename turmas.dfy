/**
 * The classes page (src/pages/Dashboard/turmas.tsx): the list of classes kept in browser
 * storage under "classes", the class currently open, and the create/update/delete
 * handlers it gives the list and detail views.
 */
module Turmas {
  import opened Wrappers
  import opened Seqs
  import opened Types

  /** `{ ...classData, id, students: [] }`. */
  function NewClass(draft: ClassDraft, id: string): (c: ClassItem)
    ensures c.id == id && c.students == []
    ensures c.name == draft.name && c.grade == draft.grade
    ensures c.teacher == draft.teacher && c.period == draft.period
  {
    ClassItem(id, draft.name, draft.grade, draft.teacher, draft.period, [])
  }

  function ReplaceIfSameId(updated: ClassItem): ClassItem -> ClassItem
  {
    (c: ClassItem) => if c.id == updated.id then updated else c
  }

  /** `classes.map((c) => (c.id === updated.id ? updated : c))`: every class with the
      updated class's id is replaced by it, every other class stays where it was. */
  function ReplaceClass(cs: seq<ClassItem>, updated: ClassItem): (r: seq<ClassItem>)
    ensures |r| == |cs|
    ensures forall i :: 0 <= i < |cs| ==> r[i] == (if cs[i].id == updated.id then updated else cs[i])
  {
    MapSeq(cs, ReplaceIfSameId(updated))
  }

  function KeepOtherClass(id: string): ClassItem -> bool
  {
    (c: ClassItem) => c.id != id
  }

  /** `classes.filter((c) => c.id !== classId)`. */
  function RemoveClass(cs: seq<ClassItem>, id: string): (r: seq<ClassItem>)
    ensures forall c :: c in r <==> c in cs && c.id != id
  {
    Filter(cs, KeepOtherClass(id))
  }

  // ----- lemmas -----

  /** Deleting keeps the remaining classes in their order: it distributes over any split. */
  lemma RemoveClassConcat(a: seq<ClassItem>, b: seq<ClassItem>, id: string)
    ensures RemoveClass(a + b, id) == RemoveClass(a, id) + RemoveClass(b, id)
  {
    FilterConcat(a, b, KeepOtherClass(id));
  }

  /** Deleting a freshly created class gives back the list from before its creation,
      provided no earlier class shares its id. */
  lemma CreateThenDelete(cs: seq<ClassItem>, draft: ClassDraft, id: string)
    requires forall c :: c in cs ==> c.id != id
    ensures RemoveClass(cs + [NewClass(draft, id)], id) == cs
  {
    RemoveClassConcat(cs, [NewClass(draft, id)], id);
    FilterKeepsAll(cs, KeepOtherClass(id));
    assert RemoveClass([NewClass(draft, id)], id) == [];
  }

  /** Updating twice with the same class is updating once. */
  lemma ReplaceClassIdempotent(cs: seq<ClassItem>, updated: ClassItem)
    ensures ReplaceClass(ReplaceClass(cs, updated), updated) == ReplaceClass(cs, updated)
  {
  }

  /** An update keeps the set of ids, so deleting after an update removes the same
      classes as deleting before it. */
  lemma DeleteAfterReplace(cs: seq<ClassItem>, updated: ClassItem)
    ensures RemoveClass(ReplaceClass(cs, updated), updated.id) == RemoveClass(cs, updated.id)
  {
    FilterAfterReplace(cs, updated);
  }

  lemma {:induction false} FilterAfterReplace(cs: seq<ClassItem>, updated: ClassItem)
    ensures Filter(ReplaceClass(cs, updated), KeepOtherClass(updated.id)) == Filter(cs, KeepOtherClass(updated.id))
  {
    if cs != [] {
      var r := ReplaceClass(cs, updated);
      assert r[1..] == ReplaceClass(cs[1..], updated);
      FilterAfterReplace(cs[1..], updated);
    }
  }

  // ----- the page -----

  /** The page's state, with `stored` standing for the "classes" entry of browser storage
      (None while absent). */
  class ClassesPage {
    var classes: seq<ClassItem>
    var selectedClass: Option<ClassItem>
    var isLoading: bool
    var stored: Option<seq<ClassItem>>

    /** After mounting: loading is over and storage holds the in-memory list. */
    ghost predicate Valid()
      reads this
    {
      !isLoading && stored == Some(classes)
    }

    /** The second effect: once loading is over, write the list to storage. */
    method PersistClasses()
      modifies this`stored
      ensures stored == if isLoading then old(stored) else Some(classes)
    {
      if !isLoading {
        stored := Some(classes);
      }
    }

    /** Mounting: start empty and loading, load the stored list when there is one, end
        loading; the persist effect then writes the list back. */
    constructor Mount(saved: Option<seq<ClassItem>>)
      ensures Valid()
      ensures classes == saved.GetOr([])
      ensures selectedClass == None
    {
      classes := [];
      selectedClass := None;
      isLoading := true;
      stored := saved;
      new;
      if saved.Some? {
        classes := saved.value;
      }
      isLoading := false;
      PersistClasses();
    }

    /** `handleCreateClass`: append one class with no students. */
    method HandleCreateClass(draft: ClassDraft, id: string)
      requires Valid()
      modifies this`classes, this`stored
      ensures Valid()
      ensures classes == old(classes) + [NewClass(draft, id)]
    {
      classes := classes + [NewClass(draft, id)];
      PersistClasses();
    }

    /** `handleUpdateClass`: replace the classes with the same id and open the updated one. */
    method HandleUpdateClass(updated: ClassItem)
      requires Valid()
      modifies this`classes, this`stored, this`selectedClass
      ensures Valid()
      ensures classes == ReplaceClass(old(classes), updated)
      ensures selectedClass == Some(updated)
    {
      classes := ReplaceClass(classes, updated);
      selectedClass := Some(updated);
      PersistClasses();
    }

    /** `handleDeleteClass`: drop every class with this id and close the detail view. */
    method HandleDeleteClass(classId: string)
      requires Valid()
      modifies this`classes, this`stored, this`selectedClass
      ensures Valid()
      ensures classes == RemoveClass(old(classes), classId)
      ensures selectedClass == None
    {
      classes := RemoveClass(classes, classId);
      selectedClass := None;
      PersistClasses();
    }

    /** `onSelectClass`: open a class in the detail view. */
    method SelectClass(c: ClassItem)
      modifies this`selectedClass
      ensures selectedClass == Some(c)
    {
      selectedClass := Some(c);
    }

    /** `onBack`: return to the list. */
    method Back()
      modifies this`selectedClass
      ensures selectedClass == None
    {
      selectedClass := None;
    }
  }
}
