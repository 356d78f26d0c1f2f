/** The records the class and student screens share (src/types/index.ts). */
module Types {
  import opened Wrappers

  datatype Grade = Grade(subject: string, value: real, date: string)

  datatype Attendance = Attendance(date: string, present: bool)

  /** A student; `grades` and `attendance` are optional fields. */
  datatype Student = Student(id: string, name: string, registrationNumber: string, email: string,
                             grades: Option<seq<Grade>>, attendance: Option<seq<Attendance>>)

  /** A class (`Class` in the source) with its students. */
  datatype ClassItem = ClassItem(id: string, name: string, grade: string, teacher: string,
                                 period: string, students: seq<Student>)

  /** `Omit<Class, "id" | "students">`: what the create-class form hands over. */
  datatype ClassDraft = ClassDraft(name: string, grade: string, teacher: string, period: string)

  /** `Omit<Student, "id">`: what the student form hands over. */
  datatype StudentDraft = StudentDraft(name: string, registrationNumber: string, email: string,
                                       grades: Option<seq<Grade>>, attendance: Option<seq<Attendance>>)
}
