/** The task record of `api/src/models/Task.js`: the allowed statuses and
    priorities, the constructor that fills in defaults, the JSON projection
    and the accumulating input validation. */
module Tasks {
  import opened Js

  /** A point in time held by a row or a cached payload; `findAll` orders rows by it. */
  type Timestamp = nat

  const Statuses: seq<string> := ["TODO", "IN_PROGRESS", "DONE"]
  const Priorities: seq<string> := ["LOW", "MEDIUM", "HIGH"]

  /** A plain object handed to the constructor or to `validate`: a request
      body, a database row (snake-case timestamps) or a cached JSON record
      (camel-case timestamps). Every field may be missing. */
  datatype TaskData = TaskData(
    id: Option<int>,
    title: Option<string>,
    description: Option<string>,
    status: Option<string>,
    priority: Option<string>,
    created_at: Option<Timestamp>,
    updated_at: Option<Timestamp>,
    createdAt: Option<Timestamp>,
    updatedAt: Option<Timestamp>)

  /** An instance of the `Task` class. */
  datatype Task = Task(
    id: Option<int>,
    title: Option<string>,
    description: string,
    status: string,
    priority: string,
    createdAt: Option<Timestamp>,
    updatedAt: Option<Timestamp>)

  /** The plain object `toJSON` returns: exactly these seven fields. */
  datatype TaskJson = TaskJson(
    id: Option<int>,
    title: Option<string>,
    description: string,
    status: string,
    priority: string,
    createdAt: Option<Timestamp>,
    updatedAt: Option<Timestamp>)

  /** `x || y` on optional timestamps: a present timestamp is a `Date` or a
      non-empty string, which JavaScript treats as truthy. */
  function FirstPresent(x: Option<Timestamp>, y: Option<Timestamp>): Option<Timestamp>
  {
    if x.Some? then x else y
  }

  /** `new Task(data)`. */
  function New(d: TaskData): (t: Task)
    ensures t.id == d.id && t.title == d.title
    ensures t.description == (if Truthy(d.description) then d.description.value else "")
    ensures Truthy(d.status) ==> t.status == d.status.value
    ensures !Truthy(d.status) ==> t.status == "TODO"
    ensures Truthy(d.priority) ==> t.priority == d.priority.value
    ensures !Truthy(d.priority) ==> t.priority == "MEDIUM"
    ensures t.status != "" && t.priority != ""
    ensures t.createdAt == (if d.created_at.Some? then d.created_at else d.createdAt)
    ensures t.updatedAt == (if d.updated_at.Some? then d.updated_at else d.updatedAt)
  {
    Task(d.id, d.title, OrElse(d.description, ""), OrElse(d.status, "TODO"),
         OrElse(d.priority, "MEDIUM"), FirstPresent(d.created_at, d.createdAt),
         FirstPresent(d.updated_at, d.updatedAt))
  }

  /** `task.toJSON()`. */
  function ToJson(t: Task): TaskJson
  {
    TaskJson(t.id, t.title, t.description, t.status, t.priority, t.createdAt, t.updatedAt)
  }

  /** A JSON record read back as constructor input. */
  function JsonData(j: TaskJson): TaskData
  {
    TaskData(j.id, j.title, Some(j.description), Some(j.status), Some(j.priority),
             None, None, j.createdAt, j.updatedAt)
  }

  /** `tasks.map(t => t.toJSON())`. */
  function ToJsonList(ts: seq<Task>): seq<TaskJson>
  {
    seq(|ts|, i requires 0 <= i < |ts| => ToJson(ts[i]))
  }

  /** Building a Task from a projected Task and projecting again changes
      nothing: projection after construction is idempotent. */
  lemma ToJsonIdempotent(d: TaskData)
    ensures ToJson(New(JsonData(ToJson(New(d))))) == ToJson(New(d))
  {
  }

  const TitleRequired := "Title is required"
  const TitleTooLong := "Title must be less than 200 characters"
  const StatusInvalid := "Status must be one of: TODO, IN_PROGRESS, DONE"
  const PriorityInvalid := "Priority must be one of: LOW, MEDIUM, HIGH"

  /** The validation messages in the order the rules are checked. */
  const Messages: seq<string> := [TitleRequired, TitleTooLong, StatusInvalid, PriorityInvalid]

  /** The enum messages list the enum values joined by `', '`. */
  lemma EnumMessagesListValues()
    ensures StatusInvalid == "Status must be one of: " + Join(Statuses, ", ")
    ensures PriorityInvalid == "Priority must be one of: " + Join(Priorities, ", ")
  {
  }

  /** The `{ isValid, errors }` object `validate` returns. */
  datatype Validation = Validation(isValid: bool, errors: seq<string>)

  /** The title rule that yields `TitleRequired`: missing, empty or blank. */
  predicate TitleMissing(d: TaskData)
  {
    !Truthy(d.title) || |Trim(d.title.value)| == 0
  }

  /** The title rule that yields `TitleTooLong`: over 200 UTF-16 code units. */
  predicate TitleOverlong(d: TaskData)
  {
    Truthy(d.title) && Utf16Length(d.title.value) > 200
  }

  /** `Task.validate(data)`: each violated rule adds one message, in rule order. */
  function Validate(d: TaskData): (v: Validation)
    ensures v.isValid <==> v.errors == []
    ensures forall e :: e in v.errors ==> e in Messages
    ensures TitleRequired in v.errors <==> TitleMissing(d)
    ensures TitleTooLong in v.errors <==> TitleOverlong(d)
    ensures StatusInvalid in v.errors <==> Truthy(d.status) && d.status.value !in Statuses
    ensures PriorityInvalid in v.errors <==> Truthy(d.priority) && d.priority.value !in Priorities
  {
    MessagesDistinct();
    var errors := Selection(TitleMissing(d), TitleOverlong(d),
      Truthy(d.status) && d.status.value !in Statuses,
      Truthy(d.priority) && d.priority.value !in Priorities);
    Validation(|errors| == 0, errors)
  }

  /** The messages appear in the order of `Messages`, each at most once. */
  lemma ValidateOrdered(d: TaskData)
    ensures Subsequence(Validate(d).errors, Messages)
  {
    SelectionOrdered(TitleMissing(d), TitleOverlong(d),
      Truthy(d.status) && d.status.value !in Statuses,
      Truthy(d.priority) && d.priority.value !in Priorities);
  }

  lemma SelectionOrdered(b1: bool, b2: bool, b3: bool, b4: bool)
    ensures Subsequence(Selection(b1, b2, b3, b4), Messages)
  {
    var e4: seq<string> := if b4 then [PriorityInvalid] else [];
    var e3 := (if b3 then [StatusInvalid] else []) + e4;
    var e2 := (if b2 then [TitleTooLong] else []) + e3;
    var e1 := (if b1 then [TitleRequired] else []) + e2;
    assert Subsequence(e4, [PriorityInvalid]) by {
      assert e4 == [] || e4[1..] == [];
    }
    SubsequenceOptionalCons(b3, StatusInvalid, e4, [PriorityInvalid]);
    SubsequenceOptionalCons(b2, TitleTooLong, e3, [StatusInvalid, PriorityInvalid]);
    SubsequenceOptionalCons(b1, TitleRequired, e2, [TitleTooLong, StatusInvalid, PriorityInvalid]);
    assert Selection(b1, b2, b3, b4) == e1;
  }

  /** The messages of the violated rules, listed in rule order. */
  function Selection(b1: bool, b2: bool, b3: bool, b4: bool): seq<string>
  {
    (if b1 then [TitleRequired] else []) + (if b2 then [TitleTooLong] else [])
    + (if b3 then [StatusInvalid] else []) + (if b4 then [PriorityInvalid] else [])
  }

  /** `e` lists elements of `ms` in their order in `ms`. */
  predicate Subsequence(e: seq<string>, ms: seq<string>)
    decreases |ms|
  {
    if e == [] then true
    else if ms == [] then false
    else (e[0] == ms[0] && Subsequence(e[1..], ms[1..])) || Subsequence(e, ms[1..])
  }

  /** Prefixing both lists with `m`, or only the longer one, keeps the order. */
  lemma SubsequenceOptionalCons(b: bool, m: string, e: seq<string>, ms: seq<string>)
    requires Subsequence(e, ms)
    ensures Subsequence((if b then [m] else []) + e, [m] + ms)
  {
    if b {
      assert ([m] + e)[1..] == e;
    } else {
      assert [] + e == e;
      assert ([m] + ms)[1..] == ms;
    }
  }

  /** The four messages are pairwise different. */
  lemma MessagesDistinct()
    ensures |TitleRequired| == 17 && |TitleTooLong| == 38
    ensures |StatusInvalid| == 46 && |PriorityInvalid| == 42
  {
  }

  /** A title that is empty or only whitespace is rejected as required. */
  lemma BlankTitleRequired(d: TaskData)
    requires d.title.Some? && AllWhitespace(d.title.value)
    ensures !Validate(d).isValid && TitleRequired in Validate(d).errors
  {
    TrimEmptyIffAllWhitespace(d.title.value);
  }

  /** For a title inside the Basic Multilingual Plane with a non-blank
      character, the length rule fires exactly above 200 characters: 200 is
      still accepted. */
  lemma TitleLengthBoundary(d: TaskData)
    requires d.title.Some? && !AllWhitespace(d.title.value)
    requires forall i :: 0 <= i < |d.title.value| ==> d.title.value[i] as int <= 0xFFFF
    ensures TitleRequired !in Validate(d).errors
    ensures TitleTooLong in Validate(d).errors <==> |d.title.value| > 200
  {
    TrimEmptyIffAllWhitespace(d.title.value);
    Utf16LengthOfBmp(d.title.value);
  }

  /** An absent or empty status and priority are never validation errors. */
  lemma AbsentEnumsAccepted(d: TaskData)
    requires !Truthy(d.status) && !Truthy(d.priority)
    ensures StatusInvalid !in Validate(d).errors && PriorityInvalid !in Validate(d).errors
  {
  }
}
