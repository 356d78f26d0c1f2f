/**
 * The detail view of one class (src/components/classDetail.tsx): it builds the updated
 * class for each student change and hands it to the page's update handler; it keeps only
 * two flags of its own, whether the new-student form is open and which student is being
 * edited.
 */
module ClassDetail {
  import opened Wrappers
  import opened Seqs
  import opened Types

  /** `{ ...studentData, id }`: the student is the form's data plus the id, and dropping
      the id (`Omit<Student, "id">`) gives the form's data back. */
  function NewStudent(draft: StudentDraft, id: string): (r: Student)
    ensures r.id == id
    ensures StudentDraft(r.name, r.registrationNumber, r.email, r.grades, r.attendance) == draft
  {
    Student(id, draft.name, draft.registrationNumber, draft.email, draft.grades, draft.attendance)
  }

  /** `{ ...s, ...studentData }`: every field from the form, the id from the student.
      A spread copies only the keys the form's object has, so a form object without
      `grades` or `attendance` would keep the student's own; here the draft's `None`
      replaces them instead. The student form always hands over both fields (see
      `StudentForm.StudentFormView.HandleSubmit`), so that case does not arise. */
  function MergeStudent(s: Student, draft: StudentDraft): (r: Student)
    ensures r.id == s.id
    ensures r == NewStudent(draft, s.id)
  {
    s.(name := draft.name, registrationNumber := draft.registrationNumber, email := draft.email,
       grades := draft.grades, attendance := draft.attendance)
  }

  function MergeIfSameId(editingId: string, draft: StudentDraft): Student -> Student
  {
    (s: Student) => if s.id == editingId then MergeStudent(s, draft) else s
  }

  /** The students after editing the one with `editingId`: the students with that id take
      the form's fields and keep their id; the others are untouched; the order and length
      are those of the old list. */
  function UpdateStudents(students: seq<Student>, editingId: string, draft: StudentDraft): (r: seq<Student>)
    ensures |r| == |students|
    ensures forall i :: 0 <= i < |students| ==> r[i].id == students[i].id
    ensures forall i :: 0 <= i < |students| && students[i].id == editingId ==> r[i] == NewStudent(draft, editingId)
    ensures forall i :: 0 <= i < |students| && students[i].id != editingId ==> r[i] == students[i]
  {
    MapSeq(students, MergeIfSameId(editingId, draft))
  }

  function KeepOtherStudent(id: string): Student -> bool
  {
    (s: Student) => s.id != id
  }

  /** `classItem.students.filter((s) => s.id !== studentId)`. */
  function RemoveStudent(students: seq<Student>, id: string): (r: seq<Student>)
    ensures forall s :: s in r <==> s in students && s.id != id
  {
    Filter(students, KeepOtherStudent(id))
  }

  /** The class with a new student list and every other field as it was. */
  predicate SameClassApartFromStudents(a: ClassItem, b: ClassItem)
  {
    a.id == b.id && a.name == b.name && a.grade == b.grade && a.teacher == b.teacher && a.period == b.period
  }

  // ----- lemmas -----

  /** Deleting a student keeps the others in order: removal distributes over any split. */
  lemma RemoveStudentConcat(a: seq<Student>, b: seq<Student>, id: string)
    ensures RemoveStudent(a + b, id) == RemoveStudent(a, id) + RemoveStudent(b, id)
  {
    FilterConcat(a, b, KeepOtherStudent(id));
  }

  /** Deleting a freshly added student gives back the list from before, provided no
      earlier student shares its id. */
  lemma AddThenDelete(students: seq<Student>, draft: StudentDraft, id: string)
    requires forall s :: s in students ==> s.id != id
    ensures RemoveStudent(students + [NewStudent(draft, id)], id) == students
  {
    RemoveStudentConcat(students, [NewStudent(draft, id)], id);
    FilterKeepsAll(students, KeepOtherStudent(id));
    assert RemoveStudent([NewStudent(draft, id)], id) == [];
  }

  /** Editing a student keeps the list's ids in place, so the same students can be found,
      edited or deleted afterwards. */
  lemma UpdateKeepsIds(students: seq<Student>, editingId: string, draft: StudentDraft, id: string)
    ensures (exists s :: s in UpdateStudents(students, editingId, draft) && s.id == id)
        <==> (exists s :: s in students && s.id == id)
    ensures RemoveStudent(UpdateStudents(students, editingId, draft), id) == []
        <==> RemoveStudent(students, id) == []
  {
    var u := UpdateStudents(students, editingId, draft);
    if exists s :: s in students && s.id == id {
      var s :| s in students && s.id == id;
      var i :| 0 <= i < |students| && students[i] == s;
      assert u[i] in u && u[i].id == id;
    }
    if exists s :: s in u && s.id == id {
      var s :| s in u && s.id == id;
      var i :| 0 <= i < |u| && u[i] == s;
      assert students[i] in students && students[i].id == id;
    }
    OtherIdsKept(students, editingId, draft, id);
  }

  /** After an edit, some student has an id other than `id` exactly when some student had
      one before. */
  lemma OtherIdsKept(students: seq<Student>, editingId: string, draft: StudentDraft, id: string)
    ensures RemoveStudent(UpdateStudents(students, editingId, draft), id) == []
        <==> RemoveStudent(students, id) == []
  {
    var r := UpdateStudents(students, editingId, draft);
    if RemoveStudent(students, id) == [] {
      forall s | s in r ensures !KeepOtherStudent(id)(s) {
        var i :| 0 <= i < |r| && r[i] == s;
        assert students[i] in students;
      }
      FilterDropsAll(r, KeepOtherStudent(id));
    } else {
      var x := RemoveStudent(students, id)[0];
      assert x in RemoveStudent(students, id);
      var i :| 0 <= i < |students| && students[i] == x;
      assert r[i].id == x.id && r[i] in r;
      assert r[i] in RemoveStudent(r, id);
    }
  }

  // ----- the view -----

  class ClassDetailView {
    const classItem: ClassItem
    var showStudentForm: bool
    var editingStudent: Option<Student>

    constructor (classItem: ClassItem)
      ensures this.classItem == classItem
      ensures !showStudentForm && editingStudent == None
    {
      this.classItem := classItem;
      showStudentForm := false;
      editingStudent := None;
    }

    /** The "add student" button opens the empty form. */
    method OpenStudentForm()
      modifies this`showStudentForm
      ensures showStudentForm
    {
      showStudentForm := true;
    }

    /** A student's edit button opens the form on that student. */
    method StartEditing(s: Student)
      modifies this`editingStudent
      ensures editingStudent == Some(s)
    {
      editingStudent := Some(s);
    }

    /** The form's cancel button closes it in both modes. */
    method CancelForm()
      modifies this`showStudentForm, this`editingStudent
      ensures !showStudentForm && editingStudent == None
    {
      showStudentForm := false;
      editingStudent := None;
    }

    /** `handleAddStudent`: the class handed to `onUpdate` has the new student appended;
        the form closes. */
    method HandleAddStudent(draft: StudentDraft, id: string) returns (update: ClassItem)
      modifies this`showStudentForm
      ensures SameClassApartFromStudents(update, classItem)
      ensures update.students == classItem.students + [NewStudent(draft, id)]
      ensures !showStudentForm
    {
      var newStudent := NewStudent(draft, id);
      update := classItem.(students := classItem.students + [newStudent]);
      showStudentForm := false;
    }

    /** `handleUpdateStudent`: with no student being edited nothing happens; otherwise the
        class handed to `onUpdate` has that student's fields replaced and editing ends. */
    method HandleUpdateStudent(draft: StudentDraft) returns (update: Option<ClassItem>)
      modifies this`editingStudent
      ensures old(editingStudent) == None ==> update == None && editingStudent == None
      ensures old(editingStudent).Some? ==>
        update.Some? && SameClassApartFromStudents(update.value, classItem) &&
        update.value.students == UpdateStudents(classItem.students, old(editingStudent).value.id, draft) &&
        editingStudent == None
    {
      if editingStudent.Some? {
        var students := UpdateStudents(classItem.students, editingStudent.value.id, draft);
        update := Some(classItem.(students := students));
        editingStudent := None;
      } else {
        update := None;
      }
    }

    /** `handleDeleteStudent`: the class handed to `onUpdate` lacks the students with this
        id. */
    method HandleDeleteStudent(studentId: string) returns (update: ClassItem)
      ensures SameClassApartFromStudents(update, classItem)
      ensures update.students == RemoveStudent(classItem.students, studentId)
      ensures |update.students| <= |classItem.students|
    {
      update := classItem.(students := RemoveStudent(classItem.students, studentId));
    }

    /** `handleDeleteClass`: when the confirmation is accepted, ask the page to delete this
        class (`onDelete`) and go back (`onBack`); otherwise do nothing. */
    method HandleDeleteClass(confirmed: bool) returns (deleteId: Option<string>, goBack: bool)
      ensures confirmed ==> deleteId == Some(classItem.id) && goBack
      ensures !confirmed ==> deleteId == None && !goBack
    {
      if confirmed {
        deleteId := Some(classItem.id);
        goBack := true;
      } else {
        deleteId := None;
        goBack := false;
      }
    }
  }
}
