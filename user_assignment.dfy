/** The admin screen that assigns question sets to users: the assignment map,
    its update after an assignment, and the per-role set list. */
module UserAssignment {
  import opened Wrappers
  import Seqs

  datatype QuestionSet = QuestionSet(id: int, setName: string, category: string)

  /** What the screen remembers about one user's assignment. */
  datatype Assignment = Assignment(setId: int, setName: string)

  /** One row of the assignments reply. */
  datatype AssignmentRow = AssignmentRow(userId: int, questionSetId: int, setName: string)

  function AssignmentOf(row: AssignmentRow): Assignment {
    Assignment(row.questionSetId, row.setName)
  }

  /** The map the rows produce when written one after another: a later row
      for the same user overwrites an earlier one. */
  function AssignmentMap(rows: seq<AssignmentRow>): map<int, Assignment> {
    if rows == [] then map[]
    else
      var last := rows[|rows| - 1];
      AssignmentMap(rows[..|rows| - 1])[last.userId := AssignmentOf(last)]
  }

  /** The `forEach` of `fetchAssignments`. */
  method BuildAssignments(rows: seq<AssignmentRow>) returns (m: map<int, Assignment>)
    ensures m == AssignmentMap(rows)
  {
    m := map[];
    var i := 0;
    while i < |rows|
      invariant 0 <= i <= |rows|
      invariant m == AssignmentMap(rows[..i])
    {
      assert rows[..i + 1][..i] == rows[..i];
      m := m[rows[i].userId := AssignmentOf(rows[i])];
      i := i + 1;
    }
    assert rows[..i] == rows;
  }

  /** The map has one entry per distinct user id of the rows. */
  lemma {:induction false} AssignmentMapKeys(rows: seq<AssignmentRow>)
    ensures AssignmentMap(rows).Keys == set k | 0 <= k < |rows| :: rows[k].userId
  {
    if rows != [] {
      var init := rows[..|rows| - 1];
      AssignmentMapKeys(init);
      assert forall k :: 0 <= k < |init| ==> init[k] == rows[k];
      assert (set k | 0 <= k < |rows| :: rows[k].userId) ==
        (set k | 0 <= k < |init| :: init[k].userId) + {rows[|rows| - 1].userId};
    }
  }

  /** A user's entry comes from the last row for that user. */
  lemma {:induction false} AssignmentMapLastWins(rows: seq<AssignmentRow>, i: int)
    requires 0 <= i < |rows|
    requires forall j :: i < j < |rows| ==> rows[j].userId != rows[i].userId
    ensures rows[i].userId in AssignmentMap(rows)
    ensures AssignmentMap(rows)[rows[i].userId] == AssignmentOf(rows[i])
  {
    if i < |rows| - 1 {
      var init := rows[..|rows| - 1];
      assert forall j :: 0 <= j < |init| ==> init[j] == rows[j];
      AssignmentMapLastWins(init, i);
    }
  }

  /** Position `k` holds the first set with that id. */
  predicate FirstWithId(sets: seq<QuestionSet>, k: int, id: int) {
    0 <= k < |sets| && sets[k].id == id && forall j :: 0 <= j < k ==> sets[j].id != id
  }

  /** `sets.find((s) => s.id === id)`: the first set with that id. */
  function FindSet(sets: seq<QuestionSet>, id: int): (r: Option<QuestionSet>)
    ensures r.None? <==> forall k :: 0 <= k < |sets| ==> sets[k].id != id
    ensures r.Some? ==> exists k :: FirstWithId(sets, k, id) && sets[k] == r.value
  {
    if sets == [] then None
    else if sets[0].id == id then
      assert FirstWithId(sets, 0, id);
      Some(sets[0])
    else
      var r := FindSet(sets[1..], id);
      assert forall k :: 1 <= k < |sets| ==> sets[k] == sets[1..][k - 1];
      if r.Some? then
        var k :| FirstWithId(sets[1..], k, id) && sets[1..][k] == r.value;
        assert FirstWithId(sets, k + 1, id);
        r
      else r
  }

  /** `availableSetsForRole`: the sets of the selected role's category, in order. */
  function AvailableSets(sets: seq<QuestionSet>, role: string): (r: seq<QuestionSet>)
    ensures forall s :: s in r <==> s in sets && s.category == role
    ensures |r| <= |sets|
  {
    Seqs.Filter((s: QuestionSet) => s.category == role, sets)
  }

  /** The assign button of a user row is disabled while that user is being
      assigned, or when the role has no sets. */
  predicate AssignDisabled(assigning: Option<int>, userId: int, sets: seq<QuestionSet>, role: string) {
    assigning == Some(userId) || |AvailableSets(sets, role)| == 0
  }

  /** The row of a user is enabled exactly when some set of the role exists
      and no assignment of that user is under way. */
  lemma AssignEnabledIff(assigning: Option<int>, userId: int, sets: seq<QuestionSet>, role: string)
    ensures !AssignDisabled(assigning, userId, sets, role) <==>
      assigning != Some(userId) && exists s :: s in sets && s.category == role
  {
    var r := AvailableSets(sets, role);
    if exists s :: s in sets && s.category == role {
      var s :| s in sets && s.category == role;
      assert s in r;
    } else if |r| != 0 {
      assert r[0] in r;
    }
  }

  datatype Message = AssignedMsg | ReassignedMsg | AssignFailedMsg

  /** The state of the screen. */
  class Board {
    var sets: seq<QuestionSet>
    var assignments: map<int, Assignment>
    var selectedRole: string
    var assigningUserId: Option<int>

    constructor ()
      ensures sets == [] && assignments == map[] && selectedRole == "driver" && assigningUserId == None
    {
      sets, assignments, selectedRole, assigningUserId := [], map[], "driver", None;
    }

    /** `fetchSets`, with the reply as a parameter: a failed request, or a
        body without `data`, leaves no sets. */
    method FetchSets(reply: Option<Option<seq<QuestionSet>>>)
      modifies this`sets
      ensures sets == if reply.Some? then reply.value.GetOr([]) else []
    {
      sets := if reply.Some? then reply.value.GetOr([]) else [];
    }

    /** Choosing a role tab refetches that role's assignments. */
    method SelectRole(role: string, assignmentsReply: Option<seq<AssignmentRow>>)
      modifies this`selectedRole, this`assignments
      ensures selectedRole == role
      ensures assignments ==
        if assignmentsReply.Some? then AssignmentMap(assignmentsReply.value) else old(assignments)
    {
      selectedRole := role;
      FetchAssignments(assignmentsReply);
    }

    /** `fetchAssignments`, with the reply's rows as a parameter: a failed
        request leaves the map as it was. */
    method FetchAssignments(reply: Option<seq<AssignmentRow>>)
      modifies this`assignments
      ensures assignments == if reply.Some? then AssignmentMap(reply.value) else old(assignments)
    {
      if reply.Some? {
        assignments := BuildAssignments(reply.value);
      }
    }

    /** `assignSetToUser`, with the set id the server picked as a parameter.
        Only that user's entry can change, and only when the id is one of
        the known sets; the message says "re-assigned" exactly when the user
        had an entry before the call. */
    method AssignSetToUser(userId: int, reply: Option<int>) returns (message: Message)
      modifies this`assignments, this`assigningUserId
      ensures assigningUserId == None
      ensures reply.None? ==> message == AssignFailedMsg && assignments == old(assignments)
      ensures reply.Some? ==> (message == ReassignedMsg <==> userId in old(assignments))
      ensures reply.Some? ==> (message == AssignedMsg <==> userId !in old(assignments))
      ensures reply.Some? && FindSet(sets, reply.value).None? ==> assignments == old(assignments)
      ensures reply.Some? && FindSet(sets, reply.value).Some? ==>
        assignments == old(assignments)[userId :=
          Assignment(reply.value, FindSet(sets, reply.value).value.setName)]
    {
      assigningUserId := Some(userId);
      var isAssigned := userId in assignments;
      if reply.None? {
        message := AssignFailedMsg;
      } else {
        var newSetId := reply.value;
        var newSet := FindSet(sets, newSetId);
        if newSet.Some? {
          assignments := assignments[userId := Assignment(newSetId, newSet.value.setName)];
        }
        message := if isAssigned then ReassignedMsg else AssignedMsg;
      }
      assigningUserId := None;
    }
  }
}
