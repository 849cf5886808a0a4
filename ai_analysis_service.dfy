/**
 * The AI-assisted bug analysis. The language model's replies are inputs
 * (any string); the model captures how each reply is parsed, with its
 * fallback, and how the suggestion is assembled.
 */
module AIAnalysis {

  import opened Base
  import opened Text
  import opened Entities
  import opened Db

  /** A reply token as compared with an enum constant: trimmed, then upper-cased. */
  function Clean(token: string): string {
    ToUpper(Trim(token))
  }

  // ---------------------------------------------------------------------
  // determineBugTypeWithAI
  // ---------------------------------------------------------------------

  /** The bug type named by the reply, OTHER when it names none. */
  function DetermineBugType(response: string): (r: BugType)
    ensures ParseBugType(Clean(response)).Some? ==> r == ParseBugType(Clean(response)).value
    ensures ParseBugType(Clean(response)).None? ==> r == BugType.Other
    ensures r != BugType.Other ==> BugTypeName(r) == Clean(response)
  {
    var parsed := ParseBugType(Clean(response));
    if parsed.Some? then parsed.value else BugType.Other
  }

  lemma {:induction false} BugTypeNameIsUpperName(t: BugType)
    ensures UpperName(BugTypeName(t)) && BugTypeName(t) != []
    ensures ParseBugType(BugTypeName(t)) == Some(t)
  {
    var s := BugTypeName(t);
    match t
    case Frontend => assert s == "FRONTEND";
    case Backend => assert s == "BACKEND";
    case Integration => assert s == "INTEGRATION";
    case Performance => assert s == "PERFORMANCE";
    case Security => assert s == "SECURITY";
    case Other => assert s == "OTHER";
  }

  /** A reply naming a type in any letter case, with surrounding whitespace, yields that type. */
  lemma {:induction false} BugTypeReplyTolerated(t: BugType, pad1: string, pad2: string)
    requires forall i :: 0 <= i < |pad1| ==> IsTrimmable(pad1[i])
    requires forall i :: 0 <= i < |pad2| ==> IsTrimmable(pad2[i])
    ensures DetermineBugType(pad1 + ToLower(BugTypeName(t)) + pad2) == t
  {
    var name := BugTypeName(t);
    BugTypeNameIsUpperName(t);
    UpperOfLowerName(name);
    TrimPadded(pad1, ToLower(name), pad2);
  }

  // ---------------------------------------------------------------------
  // determineRequiredDeveloperTypesWithAI
  // ---------------------------------------------------------------------

  /** The developer types named by the comma-separated tokens of the reply; tokens naming none are dropped. */
  function RequiredDeveloperTypes(response: string): (r: set<DeveloperType>)
    ensures forall t :: t in r <==>
      exists i :: 0 <= i < |JavaSplit(response, ',')| && ParseDeveloperType(Clean(JavaSplit(response, ',')[i])) == Some(t)
  {
    var tokens := JavaSplit(response, ',');
    set i | 0 <= i < |tokens| && ParseDeveloperType(Clean(tokens[i])).Some? :: ParseDeveloperType(Clean(tokens[i])).value
  }

  function DeveloperTypeNames(ts: seq<DeveloperType>): (r: seq<string>)
    ensures |r| == |ts| && forall i :: 0 <= i < |ts| ==> r[i] == DeveloperTypeName(ts[i])
  {
    seq(|ts|, i requires 0 <= i < |ts| => DeveloperTypeName(ts[i]))
  }

  lemma {:induction false} DeveloperTypeNameIsClean(t: DeveloperType)
    ensures DeveloperTypeName(t) != [] && ',' !in DeveloperTypeName(t)
    ensures Clean(DeveloperTypeName(t)) == DeveloperTypeName(t)
    ensures ParseDeveloperType(DeveloperTypeName(t)) == Some(t)
  {
    var s := DeveloperTypeName(t);
    DeveloperTypeNameIsUpperName(t);
    TrimIdentity(s);
    UpperOfUpper(s);
  }

  lemma {:induction false} DeveloperTypeNameIsUpperName(t: DeveloperType)
    ensures UpperName(DeveloperTypeName(t)) && DeveloperTypeName(t) != []
    ensures ParseDeveloperType(DeveloperTypeName(t)) == Some(t)
  {
    var s := DeveloperTypeName(t);
    match t
    case Backend => assert s == "BACKEND";
    case Frontend => assert s == "FRONTEND";
    case FullStack => assert s == "FULL_STACK";
    case Other => assert s == "OTHER";
  }

  /** A reply listing developer types the way the prompt asks ("BACKEND,FRONTEND") yields exactly those types. */
  lemma {:induction false} RequiredTypesRoundTrip(ts: seq<DeveloperType>)
    requires ts != []
    ensures RequiredDeveloperTypes(Text.Join(",", DeveloperTypeNames(ts))) == set t | t in ts
  {
    var names := DeveloperTypeNames(ts);
    forall i | 0 <= i < |names| ensures ',' !in names[i] && names[i] != [] {
      DeveloperTypeNameIsClean(ts[i]);
    }
    SplitJoinRoundTrip(names, ',');
    assert [','] == ",";
    var tokens := JavaSplit(Text.Join(",", names), ',');
    assert tokens == names;
    forall t ensures t in RequiredDeveloperTypes(Text.Join(",", names)) <==> t in ts {
      if t in ts {
        var i :| 0 <= i < |ts| && ts[i] == t;
        DeveloperTypeNameIsClean(t);
        assert ParseDeveloperType(Clean(tokens[i])) == Some(t);
      }
      if t in RequiredDeveloperTypes(Text.Join(",", names)) {
        var i :| 0 <= i < |tokens| && ParseDeveloperType(Clean(tokens[i])) == Some(t);
        DeveloperTypeNameIsClean(ts[i]);
      }
    }
  }

  // ---------------------------------------------------------------------
  // estimateTimeToFixWithAI
  // ---------------------------------------------------------------------

  const DefaultEstimateHours := 8

  /** The trimmed reply as a Java int, 8 hours when it does not parse. */
  function EstimateTime(response: string): (r: int)
    ensures ParseInt(Trim(response)).None? ==> r == DefaultEstimateHours
    ensures ParseInt(Trim(response)).Some? ==> r == ParseInt(Trim(response)).value
    ensures IntMin <= r <= IntMax
  {
    var parsed := ParseInt(Trim(response));
    if parsed.Some? then parsed.value else DefaultEstimateHours
  }

  /** A whole number of hours, written as `Integer.toString` writes it and padded with whitespace, is read back. */
  lemma {:induction false} EstimateReadsBack(n: int, pad1: string, pad2: string)
    requires IntMin <= n <= IntMax
    requires forall i :: 0 <= i < |pad1| ==> IsTrimmable(pad1[i])
    requires forall i :: 0 <= i < |pad2| ==> IsTrimmable(pad2[i])
    ensures EstimateTime(pad1 + IntToString(n) + pad2) == n
  {
    var s := IntToString(n);
    assert !IsTrimmable(s[0]) && !IsTrimmable(s[|s| - 1]) by {
      if n < 0 {
        assert s == "-" + NatToString(-n);
        assert s[|s| - 1] == NatToString(-n)[|NatToString(-n)| - 1];
      }
    }
    TrimPadded(pad1, s, pad2);
    ParseIntOfIntToString(n);
  }

  // ---------------------------------------------------------------------
  // getDeveloperSuggestions
  // ---------------------------------------------------------------------

  /** `findByAssignedProjectsIdAndRole(projectId, DEVELOPER)`, keyed by id. */
  function ProjectDevelopers(users: map<Id, User>, projects: map<Id, Project>, projectId: Id): (r: map<Id, User>)
    ensures forall id :: id in r <==>
      id in users && users[id].role == Some(Developer) && projectId in AssignedProjects(projects, id)
    ensures forall id :: id in r ==> r[id] == users[id]
  {
    map id | id in users && users[id].role == Some(Developer) && projectId in AssignedProjects(projects, id) :: users[id]
  }

  /** The ids in the reply: its comma-separated tokens, trimmed. */
  function SuggestedIds(response: string): (r: seq<string>)
    ensures |r| == |JavaSplit(response, ',')|
    ensures forall i :: 0 <= i < |r| ==> r[i] == Trim(JavaSplit(response, ',')[i])
  {
    var tokens := JavaSplit(response, ',');
    seq(|tokens|, i requires 0 <= i < |tokens| => Trim(tokens[i]))
  }

  /** The ids that name a developer of the pool, in the reply's order. */
  function KnownIds(ids: seq<string>, pool: map<Id, User>): (r: seq<string>)
    ensures forall k :: 0 <= k < |r| ==> r[k] in pool && r[k] in ids
    ensures |r| <= |ids|
  {
    if ids == [] then []
    else (if ids[0] in pool then [ids[0]] else []) + KnownIds(ids[1..], pool)
  }

  /** The filter keeps the reply's order: it distributes over concatenation. */
  lemma {:induction false} KnownIdsAppend(a: seq<string>, b: seq<string>, pool: map<Id, User>)
    ensures KnownIds(a + b, pool) == KnownIds(a, pool) + KnownIds(b, pool)
    decreases |a|
  {
    if a == [] {
      assert a + b == b;
    } else {
      assert (a + b)[0] == a[0];
      assert (a + b)[1..] == a[1..] + b;
      KnownIdsAppend(a[1..], b, pool);
    }
  }

  /** A reply naming only developers of the pool is kept whole, repetitions included. */
  lemma {:induction false} KnownIdsAllKnown(ids: seq<string>, pool: map<Id, User>)
    requires forall i :: 0 <= i < |ids| ==> ids[i] in pool
    ensures KnownIds(ids, pool) == ids
    decreases |ids|
  {
    if ids != [] {
      KnownIdsAllKnown(ids[1..], pool);
      assert [ids[0]] + ids[1..] == ids;
    }
  }

  /** An id naming no developer of the pool contributes nothing. */
  lemma {:induction false} UnknownIdDropped(id: string, pool: map<Id, User>)
    requires id !in pool
    ensures KnownIds([id], pool) == []
  {
    assert [id][1..] == [];
  }

  /** Each suggested id replaced by the developer it names, ids naming none dropped. */
  function PickDevelopers(ids: seq<string>, pool: map<Id, User>): (r: seq<User>)
    ensures |r| == |KnownIds(ids, pool)|
    ensures forall k :: 0 <= k < |r| ==> r[k] == pool[KnownIds(ids, pool)[k]]
  {
    if ids == [] then []
    else
      var rest := PickDevelopers(ids[1..], pool);
      if ids[0] in pool then [pool[ids[0]]] + rest else rest
  }

  /** Every suggested developer is a DEVELOPER assigned to the bug's project, named in the reply. */
  lemma {:induction false} SuggestionsAreProjectDevelopers(users: map<Id, User>, projects: map<Id, Project>, projectId: Id, response: string)
    requires UsersOk(users)
    ensures var pool := ProjectDevelopers(users, projects, projectId);
      var r := PickDevelopers(SuggestedIds(response), pool);
      forall k :: 0 <= k < |r| ==>
        r[k].id in users && users[r[k].id] == r[k] && r[k].role == Some(Developer)
        && projectId in AssignedProjects(projects, r[k].id) && r[k].id in SuggestedIds(response)
  {
    var pool := ProjectDevelopers(users, projects, projectId);
    var ids := SuggestedIds(response);
    var r := PickDevelopers(ids, pool);
    forall k | 0 <= k < |r|
      ensures r[k].id in users && users[r[k].id] == r[k] && r[k].role == Some(Developer)
      ensures projectId in AssignedProjects(projects, r[k].id) && r[k].id in ids
    {
      var id := KnownIds(ids, pool)[k];
      assert r[k] == users[id];
      assert users[id].id == id;
    }
  }

  // ---------------------------------------------------------------------
  // the past-bugs text of the suggestion prompt
  // ---------------------------------------------------------------------

  const NoSimilarBugs := "No similar past bugs found"
  const UnknownDeveloper := "Unknown developer"

  /** One id of a past bug's assignee list: that developer's email, or "Unknown developer". */
  function DeveloperLabel(id: string, developers: map<Id, User>): (r: string)
    ensures Trim(id) in developers ==> r == developers[Trim(id)].email
    ensures Trim(id) !in developers ==> r == UnknownDeveloper
  {
    if Trim(id) in developers then developers[Trim(id)].email else UnknownDeveloper
  }

  /** The labels of a comma-separated assignee list, joined by ", ". */
  function DevelopersInfo(assignedIds: string, developers: map<Id, User>): (r: string)
    ensures ',' !in assignedIds ==> r == DeveloperLabel(assignedIds, developers)
  {
    var tokens := JavaSplit(assignedIds, ',');
    Text.Join(", ", seq(|tokens|, i requires 0 <= i < |tokens| => DeveloperLabel(tokens[i], developers)))
  }

  /** The prompt line of one past bug. */
  function PastBugLine(b: BugDocument, developers: map<Id, User>): (r: string)
    requires b.assignedDeveloperId.Some?
    ensures |r| > 0 && r[0] == '-'
  {
    var hours := if b.actualTimeHours.Some? then b.actualTimeHours.value else 0;
    "- Similar bug '" + b.title + "' was fixed by " + DevelopersInfo(b.assignedDeveloperId.value, developers)
      + " in " + IntToString(hours) + " hours"
  }

  /** The lines of the similar bugs that have an assignee list, in order. */
  function PastBugLines(similar: seq<BugDocument>, developers: map<Id, User>): (r: seq<string>)
    ensures |r| <= |similar|
    ensures r == [] <==> forall i :: 0 <= i < |similar| ==> similar[i].assignedDeveloperId.None?
    ensures forall k :: 0 <= k < |r| ==> |r[k]| > 0 && r[k][0] == '-'
  {
    if similar == [] then []
    else
      var rest := PastBugLines(similar[1..], developers);
      assert forall i :: 1 <= i < |similar| ==> similar[i] == similar[1..][i - 1];
      if similar[0].assignedDeveloperId.Some? then [PastBugLine(similar[0], developers)] + rest else rest
  }

  /** `pastBugsInfo`: the lines joined by newlines, or the fallback text when there are none. */
  function PastBugsInfo(similar: seq<BugDocument>, developers: map<Id, User>): (r: string)
    ensures PastBugLines(similar, developers) != [] ==> r == Text.Join("\n", PastBugLines(similar, developers))
  {
    var joined := Text.Join("\n", PastBugLines(similar, developers));
    if joined == "" then NoSimilarBugs else joined
  }

  lemma {:induction false} JoinStartsWithFirst(sep: string, parts: seq<string>)
    requires parts != [] && parts[0] != []
    ensures |Text.Join(sep, parts)| > 0 && Text.Join(sep, parts)[0] == parts[0][0]
  {
  }

  /** The fallback text appears exactly when no similar bug has an assignee list. */
  lemma {:induction false} NoSimilarBugsExactly(similar: seq<BugDocument>, developers: map<Id, User>)
    ensures PastBugsInfo(similar, developers) == NoSimilarBugs <==>
      forall i :: 0 <= i < |similar| ==> similar[i].assignedDeveloperId.None?
  {
    var lines := PastBugLines(similar, developers);
    if lines != [] {
      JoinStartsWithFirst("\n", lines);
      assert PastBugsInfo(similar, developers)[0] == '-';
      assert NoSimilarBugs[0] == 'N';
    }
  }

  /**
   * A bug indexed without assignees carries an empty assignee list, which
   * is not null: it is listed as fixed by an unknown developer.
   */
  lemma {:induction false} EmptyAssigneeListIsUnknown(developers: map<Id, User>)
    requires "" !in developers
    ensures DevelopersInfo("", developers) == UnknownDeveloper
  {
    assert JavaSplit("", ',') == [""];
    TrimIdentity("");
  }

  // ---------------------------------------------------------------------
  // getBugSuggestions
  // ---------------------------------------------------------------------

  datatype DeveloperSuggestion = DeveloperSuggestion(userId: Id, email: string, developerType: Option<DeveloperType>)

  datatype BugSuggestion = BugSuggestion(
    bugId: Id,
    suggestedBugType: BugType,
    requiredDeveloperTypes: set<DeveloperType>,
    estimatedTimeHours: int,
    suggestedDevelopers: seq<DeveloperSuggestion>)

  function ToSuggestions(devs: seq<User>): (r: seq<DeveloperSuggestion>)
    ensures |r| == |devs|
    ensures forall k :: 0 <= k < |devs| ==> r[k] == DeveloperSuggestion(devs[k].id, devs[k].email, devs[k].developerType)
  {
    seq(|devs|, k requires 0 <= k < |devs| => DeveloperSuggestion(devs[k].id, devs[k].email, devs[k].developerType))
  }

  /**
   * `getBugSuggestions`, with the model's four replies as parameters: an
   * unknown bug is refused; otherwise the type, the required developer
   * types, the estimate and the developers are each parsed from their reply.
   */
  function GetBugSuggestions(bugs: map<Id, Bug>, users: map<Id, User>, projects: map<Id, Project>, bugId: Id,
                             typeReply: string, developerTypesReply: string, timeReply: string, developersReply: string)
    : (r: Result<BugSuggestion>)
    ensures bugId !in bugs ==> r == Err(NotFound(NoSuchElement, "Bug not found"))
    ensures bugId in bugs ==>
      r.Ok? && r.value.bugId == bugId
      && r.value.suggestedBugType == DetermineBugType(typeReply)
      && r.value.requiredDeveloperTypes == RequiredDeveloperTypes(developerTypesReply)
      && r.value.estimatedTimeHours == EstimateTime(timeReply)
      && r.value.suggestedDevelopers
         == ToSuggestions(PickDevelopers(SuggestedIds(developersReply), ProjectDevelopers(users, projects, bugs[bugId].projectId)))
  {
    if bugId !in bugs then Err(NotFound(NoSuchElement, "Bug not found"))
    else
      var bug := bugs[bugId];
      var developers := PickDevelopers(SuggestedIds(developersReply), ProjectDevelopers(users, projects, bug.projectId));
      Ok(BugSuggestion(bugId, DetermineBugType(typeReply), RequiredDeveloperTypes(developerTypesReply),
                       EstimateTime(timeReply), ToSuggestions(developers)))
  }
}
