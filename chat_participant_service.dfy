/**
 * The participant registry: for each bug, the set of users in its chat.
 * A bug with no participants has no entry.
 */
module ChatParticipants {

  import opened Entities

  /** The participants recorded for a bug, none when the bug has no entry. */
  function ParticipantsOf(m: map<Id, set<string>>, bugId: Id): set<string> {
    if bugId in m then m[bugId] else {}
  }

  /** No entry holds an empty set. */
  predicate NoEmptyEntries(m: map<Id, set<string>>) {
    forall b :: b in m ==> m[b] != {}
  }

  /** `addParticipant`: the entry is created if missing and the user joins it. */
  function Added(m: map<Id, set<string>>, bugId: Id, username: string): (r: map<Id, set<string>>)
    ensures bugId in r && r[bugId] == ParticipantsOf(m, bugId) + {username}
    ensures forall b :: b != bugId ==> (b in r <==> b in m) && (b in m ==> r[b] == m[b])
  {
    m[bugId := ParticipantsOf(m, bugId) + {username}]
  }

  /** `removeParticipant`: the user leaves; an entry left empty is dropped; an absent bug is untouched. */
  function Removed(m: map<Id, set<string>>, bugId: Id, username: string): (r: map<Id, set<string>>)
    ensures bugId !in m ==> r == m
    ensures bugId in m && m[bugId] - {username} == {} ==> r == m - {bugId}
    ensures bugId in m && m[bugId] - {username} != {} ==> r == m[bugId := m[bugId] - {username}]
    ensures ParticipantsOf(r, bugId) == ParticipantsOf(m, bugId) - {username}
  {
    if bugId !in m then m
    else
      var rest := m[bugId] - {username};
      if rest == {} then m - {bugId} else m[bugId := rest]
  }

  lemma {:induction false} AddedKeepsNoEmptyEntries(m: map<Id, set<string>>, bugId: Id, username: string)
    requires NoEmptyEntries(m)
    ensures NoEmptyEntries(Added(m, bugId, username))
  {
    var r := Added(m, bugId, username);
    assert username in r[bugId];
  }

  lemma {:induction false} RemovedKeepsNoEmptyEntries(m: map<Id, set<string>>, bugId: Id, username: string)
    requires NoEmptyEntries(m)
    ensures NoEmptyEntries(Removed(m, bugId, username))
  {
  }

  /** Joining twice is joining once. */
  lemma {:induction false} AddIdempotent(m: map<Id, set<string>>, bugId: Id, username: string)
    ensures Added(Added(m, bugId, username), bugId, username) == Added(m, bugId, username)
  {
  }

  /** A user who was not a participant and joins, then leaves, leaves the registry as it was. */
  lemma {:induction false} AddThenRemove(m: map<Id, set<string>>, bugId: Id, username: string)
    requires NoEmptyEntries(m) && username !in ParticipantsOf(m, bugId)
    ensures Removed(Added(m, bugId, username), bugId, username) == m
  {
    var a := Added(m, bugId, username);
    assert a[bugId] - {username} == ParticipantsOf(m, bugId);
    if bugId in m {
      assert Removed(a, bugId, username) == a[bugId := m[bugId]];
    } else {
      assert Removed(a, bugId, username) == a - {bugId};
    }
  }

  class ChatParticipantService {
    var bugParticipants: map<Id, set<string>>

    ghost predicate Valid()
      reads this
    {
      NoEmptyEntries(bugParticipants)
    }

    constructor ()
      ensures Valid() && bugParticipants == map[]
    {
      bugParticipants := map[];
    }

    method AddParticipant(bugId: Id, username: string)
      requires Valid()
      modifies this
      ensures Valid()
      ensures bugParticipants == Added(old(bugParticipants), bugId, username)
    {
      AddedKeepsNoEmptyEntries(bugParticipants, bugId, username);
      var current := if bugId in bugParticipants then bugParticipants[bugId] else {};
      bugParticipants := bugParticipants[bugId := current + {username}];
    }

    method RemoveParticipant(bugId: Id, username: string)
      requires Valid()
      modifies this
      ensures Valid()
      ensures bugParticipants == Removed(old(bugParticipants), bugId, username)
    {
      RemovedKeepsNoEmptyEntries(bugParticipants, bugId, username);
      if bugId in bugParticipants {
        var rest := bugParticipants[bugId] - {username};
        if rest == {} {
          bugParticipants := bugParticipants - {bugId};
        } else {
          bugParticipants := bugParticipants[bugId := rest];
        }
      }
    }

    /** `getCurrentParticipantsForBug`: a copy of the bug's participants, empty for an unknown bug. */
    method GetCurrentParticipantsForBug(bugId: Id) returns (r: set<string>)
      ensures r == ParticipantsOf(bugParticipants, bugId)
      ensures bugId !in bugParticipants ==> r == {}
    {
      r := if bugId in bugParticipants then bugParticipants[bugId] else {};
    }
  }
}
