/** The editable course rows shared by the coordinator's two course tables
    (src/module/coordinator/pages/Manage/ManageCourses.js and
    src/module/coordinator/pages/Manage/StructureCourses.js). A row is an
    object that `updateCourseField` changes in place through a shallow copy
    of the list, so it is a class here; adding and removing build a new
    list of the same row objects. */
module CourseRows {
  import opened Common
  import opened Api

  /** What a row holds: the server's id (none for a new row), the three text
      inputs and the category select (null when none is chosen). */
  datatype CourseValue = CourseValue(
    courseId: Option<int>,
    code: string,
    name: string,
    credit: string,
    categoryId: Option<string>)

  /** A new row: no id, empty texts, no category. */
  const BlankCourse := CourseValue(None, "", "", "", None)

  /** The four inputs of a row. */
  datatype CourseEdit = EditCode(code: string) | EditName(name: string) | EditCredit(credit: string)
                      | EditCategory(category: Option<string>)

  function WithEdit(v: CourseValue, e: CourseEdit): (r: CourseValue)
    ensures r.courseId == v.courseId
    ensures e.EditCode? ==> r == v.(code := e.code)
    ensures e.EditName? ==> r == v.(name := e.name)
    ensures e.EditCredit? ==> r == v.(credit := e.credit)
    ensures e.EditCategory? ==> r == v.(categoryId := e.category)
  {
    match e
    case EditCode(s) => v.(code := s)
    case EditName(s) => v.(name := s)
    case EditCredit(s) => v.(credit := s)
    case EditCategory(c) => v.(categoryId := c)
  }

  /** The category select stores `e.target.value || null`. */
  function CategoryChoice(selected: string): (c: Option<string>)
    ensures c.None? <==> selected == ""
  {
    if selected == "" then None else Some(selected)
  }

  class CourseRow {
    var courseId: Option<int>
    var code: string
    var name: string
    var credit: string
    var categoryId: Option<string>

    function Value(): CourseValue
      reads this
    {
      CourseValue(courseId, code, name, credit, categoryId)
    }

    constructor (v: CourseValue)
      ensures Value() == v
    {
      courseId := v.courseId;
      code := v.code;
      name := v.name;
      credit := v.credit;
      categoryId := v.categoryId;
    }

    /** `updated[index][field] = value` on this row object. */
    method Edit(e: CourseEdit)
      modifies this
      ensures Value() == WithEdit(old(Value()), e)
    {
      match e
      case EditCode(s) => code := s;
      case EditName(s) => name := s;
      case EditCredit(s) => credit := s;
      case EditCategory(c) => categoryId := c;
    }
  }

  /** No row object appears twice in a list, so an edit of one position
      changes no other. */
  predicate Distinct(rows: seq<CourseRow>) {
    forall i, j :: 0 <= i < j < |rows| ==> rows[i] != rows[j]
  }

  function Values(rows: seq<CourseRow>): (vs: seq<CourseValue>)
    reads set i | 0 <= i < |rows| :: rows[i]
    ensures |vs| == |rows|
    ensures forall i :: 0 <= i < |rows| ==> vs[i] == rows[i].Value()
  {
    seq(|rows|, i reads rows requires 0 <= i < |rows| => rows[i].Value())
  }

  /** `list.filter((_, i) => i !== index)`: an index outside the list
      removes nothing. */
  function RemoveAt<T>(s: seq<T>, index: int): (r: seq<T>)
    ensures 0 <= index < |s| ==> |r| == |s| - 1
    ensures 0 <= index < |s| ==> r[..index] == s[..index]
    ensures 0 <= index < |s| ==> forall i :: index <= i < |r| ==> r[i] == s[i + 1]
    ensures !(0 <= index < |s|) ==> r == s
  {
    if 0 <= index < |s| then s[..index] + s[index + 1..] else s
  }

  /** Every element other than the removed one is kept, and no other. */
  lemma RemoveAtMembers<T>(s: seq<T>, index: int, x: T)
    requires 0 <= index < |s|
    requires forall i :: 0 <= i < |s| && i != index ==> s[i] != s[index]
    ensures x in RemoveAt(s, index) <==> x in s && x != s[index]
  {
    var r := RemoveAt(s, index);
    if x in r {
      var k :| 0 <= k < |r| && r[k] == x;
      if k < index { assert s[k] == x; } else { assert s[k + 1] == x; }
    }
    if x in s && x != s[index] {
      var k :| 0 <= k < |s| && s[k] == x;
      if k < index { assert r[k] == x; } else { assert r[k - 1] == x; }
    }
  }

  /** Removing keeps the rows distinct. */
  lemma RemoveAtDistinct(rows: seq<CourseRow>, index: int)
    requires Distinct(rows)
    ensures Distinct(RemoveAt(rows, index))
  {
    var r := RemoveAt(rows, index);
    if 0 <= index < |rows| {
      forall i, j | 0 <= i < j < |r| ensures r[i] != r[j] {
        var i' := if i < index then i else i + 1;
        var j' := if j < index then j else j + 1;
        assert r[i] == rows[i'] && r[j] == rows[j'];
      }
    }
  }

  /** `updateCourseField(index, field, value)`: the row object at `index` is
      changed in place; the list keeps the same objects and every other row
      keeps its value. */
  method EditAt(rows: seq<CourseRow>, index: int, e: CourseEdit)
    requires Distinct(rows) && 0 <= index < |rows|
    modifies rows[index]
    ensures Values(rows) == old(Values(rows))[index := WithEdit(old(Values(rows))[index], e)]
  {
    ghost var before := Values(rows);
    rows[index].Edit(e);
    forall j | 0 <= j < |rows| && j != index ensures rows[j].Value() == before[j] {
      assert rows[j] != rows[index];
    }
  }

  /** `addCourseRow`: the same row objects followed by one new blank row. */
  method AppendBlank(rows: seq<CourseRow>) returns (r: seq<CourseRow>)
    ensures |r| == |rows| + 1 && r[..|rows|] == rows && fresh(r[|rows|])
    ensures Values(r) == Values(rows) + [BlankCourse]
    ensures Distinct(rows) ==> Distinct(r)
  {
    var row := new CourseRow(BlankCourse);
    r := rows + [row];
    assert r[..|rows|] == rows;
  }

  // ---------------------------------------------------------------------
  // Save payload

  /** A row as sent: `course_id` left out (undefined) for a falsy id,
      `course_credit` and `category_id` as an integer or null; the
      programme structure page sends no category at all. */
  datatype CoursePayload = CoursePayload(
    courseId: Option<int>,
    code: string,
    name: string,
    credit: IntField,
    categoryId: Option<IntField>)

  /** `c.course_id || undefined`. */
  function SentId(id: Option<int>): (r: Option<int>)
    ensures r.Some? <==> id.Some? && id.value != 0
    ensures r.Some? ==> r == id
  {
    if id.Some? && id.value != 0 then id else None
  }

  /** `c.category_id ? parseInt(c.category_id) : null`. */
  function CategoryField(c: Option<string>): (r: IntField)
    ensures r == Null <==> c.None? || c.value == ""
  {
    if c.None? then Null else IntOrNull(c.value)
  }

  function WithCategory(v: CourseValue): (p: CoursePayload)
    ensures p.courseId == SentId(v.courseId) && p.code == v.code && p.name == v.name
    ensures p.credit == IntOrNull(v.credit) && p.categoryId == Some(CategoryField(v.categoryId))
  {
    CoursePayload(SentId(v.courseId), v.code, v.name, IntOrNull(v.credit), Some(CategoryField(v.categoryId)))
  }

  function WithoutCategory(v: CourseValue): (p: CoursePayload)
    ensures p.courseId == SentId(v.courseId) && p.code == v.code && p.name == v.name
    ensures p.credit == IntOrNull(v.credit) && p.categoryId.None?
  {
    CoursePayload(SentId(v.courseId), v.code, v.name, IntOrNull(v.credit), None)
  }

  /** One row as the page sends it. */
  function RowPayload(v: CourseValue, withCategory: bool): CoursePayload {
    if withCategory then WithCategory(v) else WithoutCategory(v)
  }

  /** The rows mapped one by one, in order. */
  function Payload(vs: seq<CourseValue>, withCategory: bool): (r: seq<CoursePayload>)
    ensures |r| == |vs|
    ensures forall i :: 0 <= i < |vs| ==> r[i] == RowPayload(vs[i], withCategory)
  {
    seq(|vs|, i requires 0 <= i < |vs| => RowPayload(vs[i], withCategory))
  }

  /** The two pages' payloads differ only in the category field. */
  lemma PayloadsDifferInCategoryOnly(vs: seq<CourseValue>)
    ensures forall i :: 0 <= i < |vs| ==>
              Payload(vs, true)[i].(categoryId := None) == Payload(vs, false)[i]
  {
  }

  /** A row added and left blank is sent as a new course: no id, null
      credit, null (or no) category. */
  lemma BlankRowPayload(vs: seq<CourseValue>, withCategory: bool)
    ensures Payload(vs + [BlankCourse], withCategory) ==
            Payload(vs, withCategory) + [CoursePayload(None, "", "", Null, if withCategory then Some(Null) else None)]
  {
    var a := Payload(vs + [BlankCourse], withCategory);
    var b := Payload(vs, withCategory) + [CoursePayload(None, "", "", Null, if withCategory then Some(Null) else None)];
    assert |a| == |b|;
    forall i | 0 <= i < |a| ensures a[i] == b[i] {
      if i < |vs| { assert (vs + [BlankCourse])[i] == vs[i]; }
    }
  }

  /** A stored credit written as decimal digits is sent as that number. */
  lemma CreditSentAsNumber(v: CourseValue, n: nat)
    requires v.credit == NatToString(n)
    ensures WithCategory(v).credit == IntVal(n) && WithoutCategory(v).credit == IntVal(n)
  {
  }

  // ---------------------------------------------------------------------
  // Saving

  /** A JavaScript argument: one the caller passed, or `undefined` when
      the call supplies fewer arguments than the function declares. */
  datatype Argument<T> = Undefined | Given(value: T)

  /** `updateCourses(structureId, payload)`: without a token no request and
      the reply "Not authenticated"; otherwise `payload.courses` is read
      first, which throws on an undefined payload, and a defined one is
      sent, answered by `answer`. */
  function UpdateCourses(token: Option<string>, payload: Argument<seq<CoursePayload>>, answer: Reply<bool>): (c: Call<Reply<bool>>)
    ensures !HasToken(token) ==> c == Returned(Failure("Not authenticated"))
    ensures HasToken(token) ==> (c == Rejected <==> payload.Undefined?)
    ensures HasToken(token) && payload.Given? ==> c == Returned(answer)
  {
    if !HasToken(token) then Returned(Failure("Not authenticated"))
    else if payload.Undefined? then Rejected
    else Returned(answer)
  }

  /** Both course pages call `updateCourses(payload)`: the payload binds to
      `structureId` and `payload` is undefined, so a logged-in save always
      throws, whatever the rows and the server's answer. */
  lemma SaveWithoutIdThrows(token: Option<string>, answer: Reply<bool>)
    requires HasToken(token)
    ensures UpdateCourses(token, Undefined, answer) == Rejected
  {
  }
}
