/**
 * The validation chains of the task routes (backend/src/routes/task.routes.ts)
 * and the validation middleware that answers 400 when any of them failed.
 * Each chain converts the field to text as the validator library does
 * (`ToStr`), `optional()` skips a field only when it is absent (`undefined`),
 * and every failing check adds one entry, in schema order.
 */
module TaskRoutes {
  import opened Common
  import opened Entities
  import opened JsonValues
  import opened Http

  /** The body fields the task routes look at. */
  datatype TaskRequestBody = TaskRequestBody(
    title: Json, description: Json, priority: Json, listId: Json, assignedId: Json, position: Json)

  const PriorityNames: seq<string> := ["LOW", "MEDIUM", "HIGH"]

  // ----- validators -----

  /** `notEmpty()` */
  predicate NotEmpty(v: Json) { ToStr(v) != "" }

  /** `isIn(options)` */
  predicate IsIn(v: Json, options: seq<string>) { ToStr(v) in options }

  /** `isInt({ min: 0 })` */
  predicate IsNonNegativeInt(v: Json)
  {
    IsIntText(ToStr(v)) && IntTextValue(ToStr(v)) >= 0
  }

  predicate IsHexDigit(c: char) { '0' <= c <= '9' || 'a' <= c <= 'f' || 'A' <= c <= 'F' }

  /** Text matching `^[0-9A-F]{8}-[0-9A-F]{4}-[0-9A-F]{4}-[0-9A-F]{4}-[0-9A-F]{12}$`, case-insensitively. */
  predicate IsUuidText(s: string)
  {
    && |s| == 36
    && (forall i :: 0 <= i < 36 && (i == 8 || i == 13 || i == 18 || i == 23) ==> s[i] == '-')
    && (forall i :: 0 <= i < 36 && i != 8 && i != 13 && i != 18 && i != 23 ==> IsHexDigit(s[i]))
  }

  /** `isUUID()` */
  predicate IsUuid(v: Json) { IsUuidText(ToStr(v)) }

  /** The entry a failing check adds, or nothing. */
  function Check(ok: bool, path: string, msg: string): seq<FieldError>
  {
    if ok then [] else [FieldError(path, msg)]
  }

  // ----- what the validators mean -----

  /** `notEmpty()` rejects exactly undefined, null and the empty string; numbers, booleans and objects pass. */
  lemma NotEmptyMeans(v: Json)
    ensures NotEmpty(v) <==> v != Absent && v != JNull && v != JString("")
  {
  }

  /**
   * `isInt({ min: 0 })` accepts a JSON number exactly when it is
   * non-negative, and a string exactly when it spells a non-negative
   * integer; nothing else passes.
   */
  lemma NonNegativeIntMeans(v: Json)
    ensures v.JNumber? ==> (IsNonNegativeInt(v) <==> v.n >= 0)
    ensures v.JString? ==> (IsNonNegativeInt(v) <==> IsIntText(v.s) && IntTextValue(v.s) >= 0)
    ensures v.Absent? || v.JNull? || v.JBool? || v.JObject? ==> !IsNonNegativeInt(v)
  {
    if v.JNumber? {
      IntStringRoundTrip(v.n);
    }
  }

  /** The priority a value names, if it names one. */
  function PriorityOf(v: Json): (r: Option<Priority>)
    ensures r.Some? <==> v.JString? && v.s in PriorityNames
  {
    if v == JString("LOW") then Some(LOW)
    else if v == JString("MEDIUM") then Some(MEDIUM)
    else if v == JString("HIGH") then Some(HIGH)
    else None
  }

  /** `isIn(['LOW', 'MEDIUM', 'HIGH'])` accepts exactly the three priority names given as strings. */
  lemma PriorityCheckMeans(v: Json)
    ensures IsIn(v, PriorityNames) <==> PriorityOf(v).Some?
  {
    if v.JNumber? {
      var s := IntString(v.n);
      assert s[0] == '-' || IsDigit(s[0]);
    }
  }

  // ----- the schemas -----

  /** `createTaskSchema` */
  function CreateTaskErrors(b: TaskRequestBody): (r: seq<FieldError>)
    ensures FieldError("title", "Title is required") in r <==> !NotEmpty(b.title)
    ensures FieldError("priority", "Invalid priority") in r <==> b.priority != Absent && !IsIn(b.priority, PriorityNames)
    ensures FieldError("listId", "List ID is required") in r <==> !NotEmpty(b.listId)
    ensures FieldError("assignedId", "Invalid user ID") in r <==> b.assignedId != Absent && !IsUuid(b.assignedId)
    ensures |r| <= 4
  {
    var c1, c2 := NotEmpty(b.title), b.priority == Absent || IsIn(b.priority, PriorityNames);
    var c3, c4 := NotEmpty(b.listId), b.assignedId == Absent || IsUuid(b.assignedId);
    FourChecks(c1, "title", "Title is required", c2, "priority", "Invalid priority",
      c3, "listId", "List ID is required", c4, "assignedId", "Invalid user ID");
    Check(c1, "title", "Title is required") + Check(c2, "priority", "Invalid priority")
    + Check(c3, "listId", "List ID is required") + Check(c4, "assignedId", "Invalid user ID")
  }

  /** Four checks on four different paths: each one's entry is there exactly when that check fails. */
  lemma FourChecks(c1: bool, p1: string, m1: string, c2: bool, p2: string, m2: string,
                   c3: bool, p3: string, m3: string, c4: bool, p4: string, m4: string)
    requires p1 != p2 && p1 != p3 && p1 != p4 && p2 != p3 && p2 != p4 && p3 != p4
    ensures var r := Check(c1, p1, m1) + Check(c2, p2, m2) + Check(c3, p3, m3) + Check(c4, p4, m4);
      && (FieldError(p1, m1) in r <==> !c1) && (FieldError(p2, m2) in r <==> !c2)
      && (FieldError(p3, m3) in r <==> !c3) && (FieldError(p4, m4) in r <==> !c4)
      && |r| <= 4
  {
    var a, b, c, d := Check(c1, p1, m1), Check(c2, p2, m2), Check(c3, p3, m3), Check(c4, p4, m4);
    forall e | true ensures e in a + b + c + d <==> e in a || e in b || e in c || e in d {
      assert e in a + b + c + d <==> e in a + b + c || e in d;
      assert e in a + b + c <==> e in a + b || e in c;
    }
  }

  /** `updateTaskSchema`: no field is required. */
  function UpdateTaskErrors(b: TaskRequestBody): (r: seq<FieldError>)
    ensures FieldError("priority", "Invalid priority") in r <==> b.priority != Absent && !IsIn(b.priority, PriorityNames)
    ensures FieldError("assignedId", "Invalid user ID") in r <==> b.assignedId != Absent && !IsUuid(b.assignedId)
    ensures |r| <= 2
  {
    Check(b.priority == Absent || IsIn(b.priority, PriorityNames), "priority", "Invalid priority")
    + Check(b.assignedId == Absent || IsUuid(b.assignedId), "assignedId", "Invalid user ID")
  }

  /** `updatePositionSchema` */
  function UpdatePositionErrors(b: TaskRequestBody): (r: seq<FieldError>)
    ensures FieldError("position", "Position must be a non-negative integer") in r <==> !IsNonNegativeInt(b.position)
    ensures FieldError("listId", "List ID is required") in r <==> !NotEmpty(b.listId)
    ensures |r| <= 2
  {
    Check(IsNonNegativeInt(b.position), "position", "Position must be a non-negative integer")
    + Check(NotEmpty(b.listId), "listId", "List ID is required")
  }

  /** The `listId` query check of `GET /`. */
  function ListQueryErrors(listId: Json): (r: seq<FieldError>)
    ensures r == [] <==> NotEmpty(listId)
  {
    Check(NotEmpty(listId), "listId", "List ID is required")
  }

  /** A title passes creation exactly when it is present and not empty text; so does a list id. */
  lemma CreateTaskAccepts(b: TaskRequestBody)
    ensures CreateTaskErrors(b) == [] ==>
      && b.title != Absent && b.title != JNull && b.title != JString("")
      && b.listId != Absent && b.listId != JNull && b.listId != JString("")
      && (b.priority == Absent || PriorityOf(b.priority).Some?)
      && (b.assignedId == Absent || IsUuid(b.assignedId))
  {
    NotEmptyMeans(b.title);
    NotEmptyMeans(b.listId);
    PriorityCheckMeans(b.priority);
  }

  /** Both schemas check the priority the same way. */
  lemma PriorityRuleShared(b: TaskRequestBody)
    ensures (FieldError("priority", "Invalid priority") in CreateTaskErrors(b))
        <==> (FieldError("priority", "Invalid priority") in UpdateTaskErrors(b))
  {
  }

  // ----- sanitizers -----

  /** A `trim()` sanitizer after `optional()`: an absent field stays absent, anything else becomes trimmed text. */
  function TrimOptional(v: Json): Json
  {
    if v == Absent then Absent else JString(Trim(ToStr(v)))
  }

  /** The body the create handler receives: `title` and `description` trimmed. */
  function SanitizeCreate(b: TaskRequestBody): TaskRequestBody
  {
    b.(title := JString(Trim(ToStr(b.title))), description := TrimOptional(b.description))
  }

  /** The body the update handler receives: `title` and `description` trimmed when present. */
  function SanitizeUpdate(b: TaskRequestBody): TaskRequestBody
  {
    b.(title := TrimOptional(b.title), description := TrimOptional(b.description))
  }

  /**
   * `notEmpty()` runs before `trim()` in the title chain, so a title made
   * only of white space is accepted and reaches the service as empty text.
   */
  lemma WhitespaceTitleAccepted(b: TaskRequestBody)
    requires b.title == JString("   ") && b.listId == JString("list") && b.priority == Absent && b.assignedId == Absent
    ensures CreateTaskErrors(b) == []
    ensures SanitizeCreate(b).title == JString("")
  {
    assert NotEmpty(b.title) && NotEmpty(b.listId);
    assert Check(NotEmpty(b.title), "title", "Title is required") == [];
    assert Check(NotEmpty(b.listId), "listId", "List ID is required") == [];
    TitleOfSpaces();
  }

  lemma TitleOfSpaces()
    ensures Trim("   ") == ""
  {
    assert AllSpace("   ") by {
      assert forall i :: 0 <= i < 3 ==> "   "[i] == ' ';
    }
    TrimShape("   ");
  }

  /** After sanitizing, a present title or description has no white space at either end. */
  lemma SanitizedTextTrimmed(b: TaskRequestBody)
    ensures Trimmed(SanitizeCreate(b).title.s)
    ensures SanitizeUpdate(b).description.JString? ==> Trimmed(SanitizeUpdate(b).description.s)
  {
    SanitizedTitle(b);
    SanitizedDescription(b);
  }

  lemma SanitizedTitle(b: TaskRequestBody)
    ensures Trimmed(SanitizeCreate(b).title.s)
  {
    var t := Trim(ToStr(b.title));
    TrimShape(ToStr(b.title));
    assert SanitizeCreate(b).title == JString(t);
  }

  lemma SanitizedDescription(b: TaskRequestBody)
    ensures SanitizeUpdate(b).description.JString? ==> Trimmed(SanitizeUpdate(b).description.s)
  {
    if b.description != Absent {
      var t := Trim(ToStr(b.description));
      TrimShape(ToStr(b.description));
      assert SanitizeUpdate(b).description == JString(t);
    }
  }

  /** `validationMiddleware`: any entry answers 400 VALIDATION_ERROR with the entries; otherwise the handler runs. */
  function Validate(errors: seq<FieldError>): (r: Option<Response<()>>)
    ensures r.None? <==> errors == []
    ensures r.Some? ==> r.value == Failure(400, ErrorBody(VALIDATION_ERROR, FieldDetails(errors)))
  {
    if errors == [] then None else Some(Failure(400, ErrorBody(VALIDATION_ERROR, FieldDetails(errors))))
  }
}
