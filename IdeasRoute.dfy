/**
 * The endpoint that stores a submitted list of ideas: it reads the JSON body,
 * validates the `ideas` array, the creator id and every idea in turn, and
 * then asks the database to create one record per idea, all in one new
 * group and numbered by position. The database and the id generator are
 * inputs: the group id, an id per record, and whether the connection or a
 * creation fails.
 */
module IdeasRoute {
  import opened Wrappers
  import SubmissionForm

  /** A JSON value as the request body parser produces it. */
  datatype Json =
    | Null
    | Bool(b: bool)
    | Num(n: int)
    | Str(s: string)
    | Arr(items: seq<Json>)
    | Obj(fields: map<string, Json>)

  /** JavaScript truthiness of a JSON value. */
  predicate Truthy(v: Json) {
    match v
    case Null => false
    case Bool(b) => b
    case Num(n) => n != 0
    case Str(s) => s != ""
    case Arr(_) => true
    case Obj(_) => true
  }

  /** Reading property `key` of a non-null value: `None` stands for `undefined`. */
  function Member(v: Json, key: string): Option<Json> {
    if v.Obj? && key in v.fields then Some(v.fields[key]) else None
  }

  /** A property read that is truthy (`undefined` is not). */
  predicate TruthyMember(v: Json, key: string) {
    var m := Member(v, key);
    m.Some? && Truthy(m.value)
  }

  /** An idea the loop accepts: its title and description are both truthy. */
  predicate IdeaValid(idea: Json) {
    TruthyMember(idea, "title") && TruthyMember(idea, "description")
  }

  /** An idea the loop passes over: not null (reading a property of null throws) and valid. */
  predicate Passes(idea: Json) {
    !idea.Null? && IdeaValid(idea)
  }

  /** The index of the first idea the loop stops at, or the length when it stops at none. */
  function FirstFailing(items: seq<Json>): (k: nat)
    ensures k <= |items|
    ensures forall j :: 0 <= j < k ==> Passes(items[j])
    ensures k < |items| ==> !Passes(items[k])
  {
    if |items| == 0 || !Passes(items[0]) then 0 else 1 + FirstFailing(items[1..])
  }

  /** What the database does: connect and create everything, or fail at one of the two steps. */
  datatype DbOutcome = Stored | ConnectFails | CreateFails

  /** The document the handler asks the database to create. */
  datatype Record = Record(
    title: Json,
    description: Json,
    shareableId: string,
    groupId: string,
    creatorId: Json,
    order: nat)

  /** The JSON response: status, message, and the group id and count on success. */
  datatype Response = Response(status: nat, message: string, groupId: Option<string>, count: Option<nat>)

  const NeedIdeas := "At least one idea is required"
  const NeedCreator := "Creator ID is required"
  const NeedFields := "Title and description are required for each idea"
  const Failed := "Failed to submit ideas"
  const Submitted := "Ideas submitted successfully"

  function BadRequest(message: string): Response {
    Response(400, message, None, None)
  }

  function ServerError(): Response {
    Response(500, Failed, None, None)
  }

  /** The records for `items`: one per idea, in order, all in group `groupId`. */
  function Records(items: seq<Json>, creatorId: Json, groupId: string, newId: nat -> string): (r: seq<Record>)
    ensures |r| == |items|
    ensures forall i :: 0 <= i < |items| ==>
      r[i] == Record(Member(items[i], "title").GetOr(Null), Member(items[i], "description").GetOr(Null),
                     newId(i), groupId, creatorId, i)
  {
    seq(|items|, i requires 0 <= i < |items| =>
      Record(Member(items[i], "title").GetOr(Null), Member(items[i], "description").GetOr(Null),
             newId(i), groupId, creatorId, i))
  }

  /** The `ideas` field when it is a non-empty array. */
  predicate HasIdeas(body: Json) {
    var ideas := Member(body, "ideas");
    ideas.Some? && ideas.value.Arr? && |ideas.value.items| > 0
  }

  /**
   * The POST handler. `body` is the parsed request body (`None` when it is
   * not JSON); `groupId` and `newId` stand for the generated ids, `db` for
   * what the database does. Returns the response and the records the
   * handler asks the database to create.
   */
  method Post(body: Option<Json>, groupId: string, newId: nat -> string, db: DbOutcome)
    returns (response: Response, requested: seq<Record>)
    // A body that is not JSON, or is `null`, fails before validation.
    ensures body.None? || body.value.Null? ==> response == ServerError() && requested == []
    // A missing, non-array or empty `ideas` is rejected first.
    ensures body.Some? && !body.value.Null? && !HasIdeas(body.value) ==>
      response == BadRequest(NeedIdeas) && requested == []
    // A falsy creator id is rejected next.
    ensures body.Some? && HasIdeas(body.value) && !TruthyMember(body.value, "creatorId") ==>
      response == BadRequest(NeedCreator) && requested == []
    // The first idea that is null makes the loop throw; the first invalid one is rejected.
    ensures body.Some? && HasIdeas(body.value) && TruthyMember(body.value, "creatorId") ==>
      var items := Member(body.value, "ideas").value.items;
      var k := FirstFailing(items);
      (k < |items| && items[k].Null? ==> response == ServerError() && requested == [])
      && (k < |items| && !items[k].Null? ==> response == BadRequest(NeedFields) && requested == [])
      && (k == |items| && db == ConnectFails ==> response == ServerError() && requested == [])
      && (k == |items| && db != ConnectFails ==>
            requested == Records(items, Member(body.value, "creatorId").value, groupId, newId))
      && (k == |items| && db == CreateFails ==> response == ServerError())
      && (k == |items| && db == Stored ==>
            response == Response(200, Submitted, Some(groupId), Some(|items|)))
  {
    requested := [];
    if body.None? || body.value.Null? {
      return ServerError(), [];
    }
    var ideas := Member(body.value, "ideas");
    var creatorId := Member(body.value, "creatorId");
    if !(ideas.Some? && ideas.value.Arr?) || |ideas.value.items| == 0 {
      return BadRequest(NeedIdeas), [];
    }
    if !(creatorId.Some? && Truthy(creatorId.value)) {
      return BadRequest(NeedCreator), [];
    }
    var items := ideas.value.items;
    var i := 0;
    while i < |items|
      invariant 0 <= i <= |items|
      invariant forall j :: 0 <= j < i ==> Passes(items[j])
    {
      if items[i].Null? {
        return ServerError(), [];
      }
      if !IdeaValid(items[i]) {
        return BadRequest(NeedFields), [];
      }
      i := i + 1;
    }
    if db == ConnectFails {
      return ServerError(), [];
    }
    requested := Records(items, creatorId.value, groupId, newId);
    if db == CreateFails {
      return ServerError(), requested;
    }
    response := Response(200, Submitted, Some(groupId), Some(|requested|));
  }

  // ---------------------------------------------------------------------
  // The submission form's request, as this endpoint receives it
  // ---------------------------------------------------------------------

  /** One parsed idea of the form as a JSON object. */
  function IdeaJson(idea: SubmissionForm.IdeaInput): Json {
    Obj(map["title" := Str(idea.title), "description" := Str(idea.description)])
  }

  function IdeasJson(ideas: seq<SubmissionForm.IdeaInput>): (r: seq<Json>)
    ensures |r| == |ideas|
    ensures forall k :: 0 <= k < |ideas| ==> r[k] == IdeaJson(ideas[k])
  {
    seq(|ideas|, k requires 0 <= k < |ideas| => IdeaJson(ideas[k]))
  }

  /** The body the form posts. */
  function RequestJson(request: SubmissionForm.SubmitRequest): Json {
    Obj(map["ideas" := Arr(IdeasJson(request.ideas)), "creatorId" := Str(request.creatorId)])
  }

  /**
   * A parsed idea passes the endpoint's check exactly when its title is not
   * empty: the form fills an empty description with the title, so the
   * description is empty only when the title is.
   */
  lemma FormIdeaPasses(idea: SubmissionForm.IdeaInput)
    requires SubmissionForm.WellFormed(idea)
    ensures Passes(IdeaJson(idea)) <==> idea.title != ""
  {
    assert Member(IdeaJson(idea), "title") == Some(Str(idea.title));
    assert Member(IdeaJson(idea), "description") == Some(Str(idea.description));
  }

  /**
   * A request the form sends (some ideas and a creator id) is rejected with
   * 400 exactly when one of its ideas has an empty title, as a block holding
   * only a list marker gives.
   */
  lemma FormRequestValidation(request: SubmissionForm.SubmitRequest)
    requires |request.ideas| > 0 && request.creatorId != ""
    requires forall k :: 0 <= k < |request.ideas| ==> SubmissionForm.WellFormed(request.ideas[k])
    ensures var body := RequestJson(request);
      HasIdeas(body) && TruthyMember(body, "creatorId")
      && var items := Member(body, "ideas").value.items;
      (FirstFailing(items) < |items| <==> exists k :: 0 <= k < |request.ideas| && request.ideas[k].title == "")
      && (FirstFailing(items) < |items| ==> !items[FirstFailing(items)].Null?)
  {
    var body := RequestJson(request);
    assert Member(body, "ideas") == Some(Arr(IdeasJson(request.ideas)));
    assert Member(body, "creatorId") == Some(Str(request.creatorId));
    var items := IdeasJson(request.ideas);
    forall k | 0 <= k < |request.ideas| ensures Passes(items[k]) <==> request.ideas[k].title != "" {
      FormIdeaPasses(request.ideas[k]);
    }
    var f := FirstFailing(items);
    if f < |items| {
      assert request.ideas[f].title == "";
    }
  }
}
