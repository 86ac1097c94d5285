/** The part of the semester repository that replaces a semester's subjects (the m_subject_semester pivot). */
module SemesterRepository {
  import opened Base
  import opened Domain
  import Pivot

  function OtherSemester(semesterId: string): SubjectSemester -> bool {
    (p: SubjectSemester) => p.semesterId != semesterId
  }

  function OfSemester(semesterId: string): SubjectSemester -> bool {
    (p: SubjectSemester) => p.semesterId == semesterId
  }

  /**
   * The pivot rows SettingSubjectSemester inserts: one per subject, in order; the k-th gets
   * the primary key `uuid(k)` that BeforeCreate draws.
   */
  function SubjectRows(semesterId: string, subjectIds: seq<string>, uuid: nat -> string): (rows: seq<SubjectSemester>)
    ensures |rows| == |subjectIds|
  {
    seq(|subjectIds|, k requires 0 <= k < |subjectIds| => SubjectSemester(uuid(k), subjectIds[k], semesterId))
  }

  /** The subjects of a list of pivot rows, in order. */
  function SubjectsOf(rows: seq<SubjectSemester>): (ids: seq<string>)
    ensures |ids| == |rows|
  {
    seq(|rows|, k requires 0 <= k < |rows| => rows[k].subjectId)
  }

  class Semesters {
    /** Primary keys of m_semester. */
    var semesterIds: set<string>
    var subjectSemesters: seq<SubjectSemester>

    constructor(semesterIds: set<string>, subjectSemesters: seq<SubjectSemester>)
      ensures this.semesterIds == semesterIds && this.subjectSemesters == subjectSemesters
    {
      this.semesterIds := semesterIds;
      this.subjectSemesters := subjectSemesters;
    }

    /**
     * SettingSubjectSemester, one transaction: the semester must exist; its pivot rows are
     * deleted and one row per subject id is inserted. `deleteErr` and `insertErr` are the
     * errors those statements return; any failure rolls everything back.
     */
    method SettingSubjectSemester(semesterId: string, subjectIds: seq<string>, uuid: nat -> string,
                                  deleteErr: Option<string>, insertErr: Option<string>) returns (r: Option<string>)
      modifies this
      ensures semesterIds == old(semesterIds)
      ensures
        if semesterId !in old(semesterIds) then r == Some("record not found") && subjectSemesters == old(subjectSemesters)
        else if deleteErr.Some? then r == deleteErr && subjectSemesters == old(subjectSemesters)
        else if subjectIds != [] && insertErr.Some? then r == insertErr && subjectSemesters == old(subjectSemesters)
        else r.None? && subjectSemesters == Pivot.Replace(old(subjectSemesters), OtherSemester(semesterId), SubjectRows(semesterId, subjectIds, uuid))
    {
      if semesterId !in semesterIds {
        return Some("record not found");
      }
      if deleteErr.Some? {
        return deleteErr;
      }
      var kept := Pivot.Filter(subjectSemesters, OtherSemester(semesterId));
      if |subjectIds| == 0 {
        assert kept + [] == kept;
        subjectSemesters := kept;
        return None;
      }
      var pivots := BuildPivots(semesterId, subjectIds, uuid);
      if insertErr.Some? {
        return insertErr;
      }
      subjectSemesters := kept + pivots;
      r := None;
    }
  }

  /** The loop that builds the pivot rows to insert. */
  method BuildPivots(semesterId: string, subjectIds: seq<string>, uuid: nat -> string) returns (pivots: seq<SubjectSemester>)
    ensures |pivots| == |subjectIds|
    ensures forall k :: 0 <= k < |subjectIds| ==>
      pivots[k].id == uuid(k) && pivots[k].subjectId == subjectIds[k] && pivots[k].semesterId == semesterId
  {
    pivots := [];
    var k := 0;
    while k < |subjectIds|
      invariant 0 <= k <= |subjectIds|
      invariant |pivots| == k
      invariant forall j :: 0 <= j < k ==>
        pivots[j].id == uuid(j) && pivots[j].subjectId == subjectIds[j] && pivots[j].semesterId == semesterId
    {
      pivots := pivots + [SubjectSemester(uuid(k), subjectIds[k], semesterId)];
      k := k + 1;
    }
  }

  /**
   * After a successful setting the semester's subjects are exactly the given ids, in order,
   * and the pivot rows of every other semester are untouched.
   */
  lemma SettingReplaces(rows: seq<SubjectSemester>, semesterId: string, subjectIds: seq<string>, uuid: nat -> string)
    ensures var after := Pivot.Replace(rows, OtherSemester(semesterId), SubjectRows(semesterId, subjectIds, uuid));
      SubjectsOf(Pivot.Filter(after, OfSemester(semesterId))) == subjectIds &&
      Pivot.Filter(after, OtherSemester(semesterId)) == Pivot.Filter(rows, OtherSemester(semesterId))
  {
    var added := SubjectRows(semesterId, subjectIds, uuid);
    Pivot.ReplaceSelects(rows, OtherSemester(semesterId), OfSemester(semesterId), added);
    assert SubjectsOf(added) == subjectIds;
  }

  /** A second setting of the same semester leaves no row of the first. */
  lemma SettingOverwrites(rows: seq<SubjectSemester>, semesterId: string, first: seq<string>, second: seq<string>,
                          uuid1: nat -> string, uuid2: nat -> string)
    ensures var keep := OtherSemester(semesterId);
      Pivot.Replace(Pivot.Replace(rows, keep, SubjectRows(semesterId, first, uuid1)), keep, SubjectRows(semesterId, second, uuid2))
      == Pivot.Replace(rows, keep, SubjectRows(semesterId, second, uuid2))
  {
    Pivot.ReplaceOverwrites(rows, OtherSemester(semesterId), SubjectRows(semesterId, first, uuid1), SubjectRows(semesterId, second, uuid2));
  }
}
