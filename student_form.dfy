/**
 * The student form (src/components/studentForm.tsx): three text fields started from the
 * student being edited, and a submit that hands over a student record only when name and
 * registration number are filled in.
 */
module StudentForm {
  import opened Wrappers
  import opened Types

  /** `initialData?.grades || []`. */
  function InitialGrades(initialData: Option<Student>): (g: seq<Grade>)
    ensures initialData.Some? && initialData.value.grades.Some? ==> g == initialData.value.grades.value
    ensures initialData.None? || initialData.value.grades.None? ==> g == []
  {
    if initialData.Some? then initialData.value.grades.GetOr([]) else []
  }

  /** `initialData?.attendance || []`. */
  function InitialAttendance(initialData: Option<Student>): (a: seq<Attendance>)
    ensures initialData.Some? && initialData.value.attendance.Some? ==> a == initialData.value.attendance.value
    ensures initialData.None? || initialData.value.attendance.None? ==> a == []
  {
    if initialData.Some? then initialData.value.attendance.GetOr([]) else []
  }

  class StudentFormView {
    const initialData: Option<Student>
    var name: string
    var registrationNumber: string
    var email: string

    /** The form starts from the edited student's fields, or empty for a new student. */
    constructor (initialData: Option<Student>)
      ensures this.initialData == initialData
      ensures initialData.Some? ==>
        name == initialData.value.name &&
        registrationNumber == initialData.value.registrationNumber &&
        email == initialData.value.email
      ensures initialData.None? ==> name == "" && registrationNumber == "" && email == ""
    {
      this.initialData := initialData;
      if initialData.Some? {
        name := initialData.value.name;
        registrationNumber := initialData.value.registrationNumber;
        email := initialData.value.email;
      } else {
        name, registrationNumber, email := "", "", "";
      }
    }

    method SetName(value: string)
      modifies this`name
      ensures name == value
    {
      name := value;
    }

    method SetRegistrationNumber(value: string)
      modifies this`registrationNumber
      ensures registrationNumber == value
    {
      registrationNumber := value;
    }

    method SetEmail(value: string)
      modifies this`email
      ensures email == value
    {
      email := value;
    }

    /** `handleSubmit`: the record handed to `onSubmit`, present exactly when name and
        registration number are non-empty (email may be empty); it carries the three
        fields as typed and the edited student's grades and attendance, or none. */
    method HandleSubmit() returns (submitted: Option<StudentDraft>)
      ensures submitted.Some? <==> name != "" && registrationNumber != ""
      ensures submitted.Some? ==>
        submitted.value.name == name && submitted.value.registrationNumber == registrationNumber &&
        submitted.value.email == email
      ensures submitted.Some? ==>
        submitted.value.grades == Some(InitialGrades(initialData)) &&
        submitted.value.attendance == Some(InitialAttendance(initialData))
    {
      if name != "" && registrationNumber != "" {
        submitted := Some(StudentDraft(name, registrationNumber, email,
                                       Some(InitialGrades(initialData)), Some(InitialAttendance(initialData))));
      } else {
        submitted := None;
      }
    }
  }
}
