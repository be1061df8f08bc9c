/** `ResumeRepository`: the resume table as a map from id to record. */
module ResumeRepository {
  import opened Wrappers
  import opened Exceptions

  /** A `resumes` row. */
  datatype Resume = Resume(id: int, userId: int, filename: string, uploadTimestamp: string)

  /** A row before insertion: the database assigns its id. */
  datatype ResumeDraft = ResumeDraft(userId: int, filename: string, uploadTimestamp: string)

  /** One `setattr(resume, key, value)` of `update_resume`, for one of the non-key columns. */
  datatype ResumeAssignment =
    | SetUserId(userId: int)
    | SetFilename(filename: string)
    | SetUploadTimestamp(uploadTimestamp: string)

  const NotFound: Exc := ValueError("Resume not found")

  function Assign(r: Resume, a: ResumeAssignment): Resume
  {
    match a
    case SetUserId(u) => r.(userId := u)
    case SetFilename(f) => r.(filename := f)
    case SetUploadTimestamp(t) => r.(uploadTimestamp := t)
  }

  /** The record after applying the assignments in order. */
  function AssignAll(r: Resume, updates: seq<ResumeAssignment>): Resume
    decreases |updates|
  {
    if updates == [] then r else Assign(AssignAll(r, updates[..|updates| - 1]), updates[|updates| - 1])
  }

  /** The last assignment to the user column, if any. */
  function LastUserId(updates: seq<ResumeAssignment>): Option<int>
    decreases |updates|
  {
    if updates == [] then None
    else if updates[|updates| - 1].SetUserId? then Some(updates[|updates| - 1].userId)
    else LastUserId(updates[..|updates| - 1])
  }

  function LastFilename(updates: seq<ResumeAssignment>): Option<string>
    decreases |updates|
  {
    if updates == [] then None
    else if updates[|updates| - 1].SetFilename? then Some(updates[|updates| - 1].filename)
    else LastFilename(updates[..|updates| - 1])
  }

  function LastUploadTimestamp(updates: seq<ResumeAssignment>): Option<string>
    decreases |updates|
  {
    if updates == [] then None
    else if updates[|updates| - 1].SetUploadTimestamp? then Some(updates[|updates| - 1].uploadTimestamp)
    else LastUploadTimestamp(updates[..|updates| - 1])
  }

  /** Each column ends up with the value of its last assignment, or keeps its value when it is not
      assigned; the id never changes. */
  lemma {:induction false} AssignAllEffect(r: Resume, updates: seq<ResumeAssignment>)
    ensures AssignAll(r, updates).id == r.id
    ensures AssignAll(r, updates).userId == LastUserId(updates).GetOr(r.userId)
    ensures AssignAll(r, updates).filename == LastFilename(updates).GetOr(r.filename)
    ensures AssignAll(r, updates).uploadTimestamp == LastUploadTimestamp(updates).GetOr(r.uploadTimestamp)
    decreases |updates|
  {
    if updates != [] {
      AssignAllEffect(r, updates[..|updates| - 1]);
    }
  }

  /** The table, changed in place by create, delete and update. */
  class ResumeTable {
    var rows: map<int, Resume>
    var nextId: int

    /** Every row is stored under its own id, and ids below `nextId` are the only ones in use. */
    ghost predicate Valid()
      reads this
    {
      forall k :: k in rows ==> rows[k].id == k && k < nextId
    }

    constructor ()
      ensures Valid() && rows == map[] && nextId == 1
    {
      rows := map[];
      nextId := 1;
    }

    /** `create_resume`: the row is inserted under a fresh id and returned with it. */
    method CreateResume(draft: ResumeDraft) returns (r: Resume)
      requires Valid()
      modifies this
      ensures Valid()
      ensures r == Resume(old(nextId), draft.userId, draft.filename, draft.uploadTimestamp)
      ensures old(nextId) !in old(rows)
      ensures rows == old(rows)[r.id := r] && nextId == old(nextId) + 1
      ensures GetResumeById(r.id) == Some(r)
    {
      r := Resume(nextId, draft.userId, draft.filename, draft.uploadTimestamp);
      rows := rows[nextId := r];
      nextId := nextId + 1;
    }

    /** `get_resume_by_id`: the row with that id, or `None`. */
    function GetResumeById(id: int): (r: Option<Resume>)
      reads this
      ensures r.None? <==> id !in rows
      ensures r.Some? ==> r.value == rows[id]
    {
      if id in rows then Some(rows[id]) else None
    }

    /** `get_all_resumes`. */
    function GetAllResumes(): (r: set<Resume>)
      reads this
      ensures forall k :: k in rows ==> rows[k] in r
      ensures forall x :: x in r ==> exists k :: k in rows && rows[k] == x
    {
      set k | k in rows :: rows[k]
    }

    /** `get_resumes_by_user_id`: exactly the rows of that user. */
    function GetResumesByUserId(userId: int): (r: set<Resume>)
      reads this
      ensures forall x :: x in r <==> x in rows.Values && x.userId == userId
    {
      set x | x in rows.Values && x.userId == userId
    }

    /** `delete_resume`: removes the row, or raises "Resume not found" and changes nothing. */
    method DeleteResume(id: int) returns (r: Result<(), Exc>)
      requires Valid()
      modifies this
      ensures Valid() && nextId == old(nextId)
      ensures id in old(rows) ==> r == Success(()) && rows == old(rows) - {id}
      ensures id !in old(rows) ==> r == Failure(NotFound) && rows == old(rows)
    {
      var found := GetResumeById(id);
      if found.Some? {
        rows := rows - {id};
        r := Success(());
      } else {
        r := Failure(NotFound);
      }
    }

    /** `update_resume`: raises "Resume not found" for an absent id; otherwise applies every assignment
        to the row in place, leaves every other row alone and returns the updated row. */
    method UpdateResume(id: int, updates: seq<ResumeAssignment>) returns (r: Result<Resume, Exc>)
      requires Valid()
      modifies this
      ensures Valid() && nextId == old(nextId)
      ensures id !in old(rows) ==> r == Failure(NotFound) && rows == old(rows)
      ensures id in old(rows) ==>
        rows == old(rows)[id := AssignAll(old(rows)[id], updates)] && r == Success(rows[id])
    {
      var found := GetResumeById(id);
      if found.None? {
        return Failure(NotFound);
      }
      for i := 0 to |updates|
        invariant rows == old(rows)[id := AssignAll(old(rows)[id], updates[..i])]
        invariant Valid() && nextId == old(nextId)
      {
        assert updates[..i + 1][..i] == updates[..i];
        AssignAllEffect(old(rows)[id], updates[..i]);
        rows := rows[id := Assign(rows[id], updates[i])];
      }
      assert updates[..|updates|] == updates;
      r := Success(rows[id]);
    }
  }
}
