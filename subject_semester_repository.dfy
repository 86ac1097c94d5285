/**
 * StoreLectureOnSubject: for each subject of a semester, replace its lecturers (the
 * m_subject_lecture pivot), all items in one transaction.
 */
module SubjectSemesterRepository {
  import opened Base
  import opened Domain
  import Pivot

  /** One item of the request: a subject-semester row and the employees who lecture it. */
  datatype LectureMapping = LectureMapping(subjectSemesterId: string, lectureIds: seq<string>)

  function OtherSubject(subjectSemesterId: string): SubjectLecture -> bool {
    (l: SubjectLecture) => l.subjectSemesterId != subjectSemesterId
  }

  function OfSubject(subjectSemesterId: string): SubjectLecture -> bool {
    (l: SubjectLecture) => l.subjectSemesterId == subjectSemesterId
  }

  /** The rows inserted for item `k`: one per lecturer, in order, the j-th with primary key uuid(k, j). */
  function LectureRows(item: LectureMapping, k: nat, uuid: (nat, nat) -> string): (rows: seq<SubjectLecture>)
    ensures |rows| == |item.lectureIds|
  {
    seq(|item.lectureIds|, j requires 0 <= j < |item.lectureIds| =>
      SubjectLecture(uuid(k, j), item.subjectSemesterId, item.lectureIds[j]))
  }

  /** The lecturers of a list of pivot rows, in order. */
  function LecturersOf(rows: seq<SubjectLecture>): (ids: seq<string>)
    ensures |ids| == |rows|
  {
    seq(|rows|, j requires 0 <= j < |rows| => rows[j].employeeId)
  }

  /**
   * The transaction's work on item `k`: the subject-semester row must exist, its lecturer
   * rows are deleted and, when the item names lecturers, the new rows are inserted.
   * `deleteErr(k)` and `insertErr(k)` are the errors those statements return for item `k`.
   */
  function Step(lectures: seq<SubjectLecture>, item: LectureMapping, k: nat, subjectSemesterIds: set<string>,
                uuid: (nat, nat) -> string, deleteErr: nat -> Option<string>, insertErr: nat -> Option<string>)
    : (r: Result<seq<SubjectLecture>>)
    ensures r.Ok? ==> r.value == Pivot.Replace(lectures, OtherSubject(item.subjectSemesterId), LectureRows(item, k, uuid))
  {
    if item.subjectSemesterId !in subjectSemesterIds then Err("record not found")
    else if deleteErr(k).Some? then Err(deleteErr(k).value)
    else
      var kept := Pivot.Filter(lectures, OtherSubject(item.subjectSemesterId));
      if item.lectureIds == [] then assert kept + [] == kept; Ok(kept)
      else if insertErr(k).Some? then Err(insertErr(k).value)
      else Ok(kept + LectureRows(item, k, uuid))
  }

  /** The table after the first `n` items, or the first error met. */
  function Run(lectures: seq<SubjectLecture>, data: seq<LectureMapping>, n: nat, subjectSemesterIds: set<string>,
               uuid: (nat, nat) -> string, deleteErr: nat -> Option<string>, insertErr: nat -> Option<string>)
    : Result<seq<SubjectLecture>>
    requires n <= |data|
  {
    if n == 0 then Ok(lectures)
    else
      match Run(lectures, data, n - 1, subjectSemesterIds, uuid, deleteErr, insertErr)
      case Err(e) => Err(e)
      case Ok(ls) => Step(ls, data[n - 1], n - 1, subjectSemesterIds, uuid, deleteErr, insertErr)
  }

  class SubjectSemesters {
    /** Primary keys of m_subject_semester. */
    var subjectSemesterIds: set<string>
    var lectures: seq<SubjectLecture>

    constructor(subjectSemesterIds: set<string>, lectures: seq<SubjectLecture>)
      ensures this.subjectSemesterIds == subjectSemesterIds && this.lectures == lectures
    {
      this.subjectSemesterIds := subjectSemesterIds;
      this.lectures := lectures;
    }

    /** All items or none: the first failing statement rolls back every earlier item. */
    method StoreLectureOnSubject(data: seq<LectureMapping>, uuid: (nat, nat) -> string,
                                 deleteErr: nat -> Option<string>, insertErr: nat -> Option<string>)
      returns (r: Option<string>)
      modifies this
      ensures subjectSemesterIds == old(subjectSemesterIds)
      ensures match Run(old(lectures), data, |data|, old(subjectSemesterIds), uuid, deleteErr, insertErr)
        case Err(e) => r == Some(e) && lectures == old(lectures)
        case Ok(ls) => r.None? && lectures == ls
    {
      var outcome := RunItems(lectures, data, subjectSemesterIds, uuid, deleteErr, insertErr);
      match outcome
      case Err(e) =>
        r := Some(e);
      case Ok(tx) =>
        lectures := tx;
        r := None;
    }
  }

  /** The transaction's loop: each item in turn on the transaction's view of the table, stopping at the first error. */
  method RunItems(lectures: seq<SubjectLecture>, data: seq<LectureMapping>, subjectSemesterIds: set<string>,
                  uuid: (nat, nat) -> string, deleteErr: nat -> Option<string>, insertErr: nat -> Option<string>)
    returns (r: Result<seq<SubjectLecture>>)
    ensures r == Run(lectures, data, |data|, subjectSemesterIds, uuid, deleteErr, insertErr)
  {
    var tx := lectures;
    var k := 0;
    while k < |data|
      invariant 0 <= k <= |data|
      invariant Run(lectures, data, k, subjectSemesterIds, uuid, deleteErr, insertErr) == Ok(tx)
    {
      var step := StoreItem(tx, data[k], k, subjectSemesterIds, uuid, deleteErr, insertErr);
      RunNext(lectures, data, k, subjectSemesterIds, uuid, deleteErr, insertErr, tx);
      if step.Err? {
        FirstFailureReported(lectures, data, subjectSemesterIds, uuid, deleteErr, insertErr, k + 1);
        r := step;
        return;
      }
      tx := step.value;
      k := k + 1;
    }
    r := Ok(tx);
  }

  /** One pass of the transaction's loop: check, delete, build and insert for item `k`. */
  method StoreItem(tx: seq<SubjectLecture>, item: LectureMapping, k: nat, subjectSemesterIds: set<string>,
                   uuid: (nat, nat) -> string, deleteErr: nat -> Option<string>, insertErr: nat -> Option<string>)
    returns (r: Result<seq<SubjectLecture>>)
    ensures r == Step(tx, item, k, subjectSemesterIds, uuid, deleteErr, insertErr)
  {
    if item.subjectSemesterId !in subjectSemesterIds {
      return Err("record not found");
    }
    if deleteErr(k).Some? {
      return Err(deleteErr(k).value);
    }
    var kept := Pivot.Filter(tx, OtherSubject(item.subjectSemesterId));
    if |item.lectureIds| == 0 {
      return Ok(kept);
    }
    var pivots := BuildLectures(item, k, uuid);
    assert pivots == LectureRows(item, k, uuid);
    if insertErr(k).Some? {
      return Err(insertErr(k).value);
    }
    r := Ok(kept + pivots);
  }

  /** The loop that builds one item's rows. */
  method BuildLectures(item: LectureMapping, k: nat, uuid: (nat, nat) -> string) returns (pivots: seq<SubjectLecture>)
    ensures |pivots| == |item.lectureIds|
    ensures forall j :: 0 <= j < |pivots| ==>
      pivots[j].id == uuid(k, j) && pivots[j].subjectSemesterId == item.subjectSemesterId && pivots[j].employeeId == item.lectureIds[j]
  {
    pivots := [];
    var j := 0;
    while j < |item.lectureIds|
      invariant 0 <= j <= |item.lectureIds|
      invariant |pivots| == j
      invariant forall i :: 0 <= i < j ==>
        pivots[i].id == uuid(k, i) && pivots[i].subjectSemesterId == item.subjectSemesterId && pivots[i].employeeId == item.lectureIds[i]
    {
      pivots := pivots + [SubjectLecture(uuid(k, j), item.subjectSemesterId, item.lectureIds[j])];
      j := j + 1;
    }
  }

  /**
   * After an item is stored, its subject's lecturers are exactly the item's, in order, and the
   * lecturers of every other subject are untouched.
   */
  lemma StepReplaces(lectures: seq<SubjectLecture>, item: LectureMapping, k: nat, uuid: (nat, nat) -> string)
    ensures var after := Pivot.Replace(lectures, OtherSubject(item.subjectSemesterId), LectureRows(item, k, uuid));
      LecturersOf(Pivot.Filter(after, OfSubject(item.subjectSemesterId))) == item.lectureIds &&
      Pivot.Filter(after, OtherSubject(item.subjectSemesterId)) == Pivot.Filter(lectures, OtherSubject(item.subjectSemesterId))
  {
    var added := LectureRows(item, k, uuid);
    Pivot.ReplaceSelects(lectures, OtherSubject(item.subjectSemesterId), OfSubject(item.subjectSemesterId), added);
    assert LecturersOf(added) == item.lectureIds;
  }

  /** Two items for the same subject: the later one wins, as if the earlier were not there. */
  lemma LaterItemWins(lectures: seq<SubjectLecture>, first: LectureMapping, second: LectureMapping, i: nat, j: nat,
                      subjectSemesterIds: set<string>, uuid: (nat, nat) -> string,
                      deleteErr: nat -> Option<string>, insertErr: nat -> Option<string>)
    requires first.subjectSemesterId == second.subjectSemesterId
    requires Step(lectures, first, i, subjectSemesterIds, uuid, deleteErr, insertErr).Ok?
    ensures Step(Step(lectures, first, i, subjectSemesterIds, uuid, deleteErr, insertErr).value, second, j,
                 subjectSemesterIds, uuid, deleteErr, insertErr)
            == Step(lectures, second, j, subjectSemesterIds, uuid, deleteErr, insertErr)
  {
    var keep := OtherSubject(first.subjectSemesterId);
    var mid := Step(lectures, first, i, subjectSemesterIds, uuid, deleteErr, insertErr).value;
    Pivot.ReplaceOverwrites(lectures, keep, LectureRows(first, i, uuid), []);
    Pivot.ReplaceOverwrites(lectures, keep, LectureRows(first, i, uuid), LectureRows(second, j, uuid));
    assert Pivot.Filter(mid, keep) == Pivot.Filter(lectures, keep) by {
      Pivot.FilterAppend(Pivot.Filter(lectures, keep), LectureRows(first, i, uuid), keep);
      Pivot.FilterTwice(lectures, keep);
      Pivot.FilterNone(LectureRows(first, i, uuid), keep);
      assert Pivot.Filter(lectures, keep) + [] == Pivot.Filter(lectures, keep);
    }
  }

  /** After the first `k` items succeeded with table `tx`, one more item is one more Step. */
  lemma RunNext(lectures: seq<SubjectLecture>, data: seq<LectureMapping>, k: nat, subjectSemesterIds: set<string>,
                uuid: (nat, nat) -> string, deleteErr: nat -> Option<string>, insertErr: nat -> Option<string>,
                tx: seq<SubjectLecture>)
    requires k < |data|
    requires Run(lectures, data, k, subjectSemesterIds, uuid, deleteErr, insertErr) == Ok(tx)
    ensures Run(lectures, data, k + 1, subjectSemesterIds, uuid, deleteErr, insertErr)
            == Step(tx, data[k], k, subjectSemesterIds, uuid, deleteErr, insertErr)
  {
  }

  /** A transaction that fails on some item leaves the table as it was (the method states the rollback); here: the error is the first item's. */
  lemma FirstFailureReported(lectures: seq<SubjectLecture>, data: seq<LectureMapping>, subjectSemesterIds: set<string>,
                             uuid: (nat, nat) -> string, deleteErr: nat -> Option<string>, insertErr: nat -> Option<string>, n: nat)
    requires n <= |data|
    requires Run(lectures, data, n, subjectSemesterIds, uuid, deleteErr, insertErr).Err?
    ensures Run(lectures, data, |data|, subjectSemesterIds, uuid, deleteErr, insertErr)
            == Run(lectures, data, n, subjectSemesterIds, uuid, deleteErr, insertErr)
    decreases |data| - n
  {
    if n < |data| {
      FirstFailureReported(lectures, data, subjectSemesterIds, uuid, deleteErr, insertErr, n + 1);
    }
  }
}
