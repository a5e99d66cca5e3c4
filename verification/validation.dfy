/** The request schemas of the newer service: the query body, the rating
    body and the document-id path parameter. */
module Validation {
  import opened Wrappers
  import opened Strings
  import opened Json

  predicate IsLowerHex(c: char) {
    '0' <= c <= '9' || 'a' <= c <= 'f'
  }

  /** `/^[a-f0-9]{24}$/`: the text form of a database id. */
  predicate IsObjectId(s: string) {
    |s| == 24 && forall i | 0 <= i < |s| :: IsLowerHex(s[i])
  }

  /** `objectIdSchema.parse(s)` */
  function ParseObjectId(s: string): (r: Result<string>)
    ensures r.Success? ==> r.value == s
  {
    if IsObjectId(s) then Success(s) else Failure("Invalid ObjectId format")
  }

  // ---------------------------------------------------------------------
  // The messages of the schema library's first issue

  /** The library's name for the type of a value, as its messages print it. */
  function TypeName(v: Json): string {
    match v
    case JNull => "null"
    case JBool(_) => "boolean"
    case JNum(_) => "number"
    case JStr(_) => "string"
    case JArr(_) => "array"
    case JObj(_) => "object"
  }

  /** The message of a value of the wrong type: `Required` when the value is
      missing, `Expected <type>, received <type>` otherwise. */
  function TypeMessage(expected: string, v: Option<Json>): string {
    if v.None? then "Required" else "Expected " + expected + ", received " + TypeName(v.value)
  }

  function AtLeastMessage(min: int): string {
    "Number must be greater than or equal to " + IntToString(min)
  }

  function AtMostMessage(max: int): string {
    "Number must be less than or equal to " + IntToString(max)
  }

  const NotIntegerMessage := "Expected integer, received float"
  const TooShortMessage := "String must contain at least 1 character(s)"
  const TooLongMessage := "String must contain at most 1000 character(s)"
  const BadPatternMessage := "Invalid"

  /** `z.number().int().min(lo).max(hi)`: a value of another type fails the
      type check and nothing else is tried; on a number the checks `int`,
      `min` and `max` run in that order and the first that fails gives the
      reported message. */
  function ParseIntIn(v: Option<Json>, lo: int, hi: int): (r: Result<int>)
  {
    match v
    case Some(JNum(x)) =>
      if !IsInteger(x) then Failure(NotIntegerMessage)
      else if x < lo as real then Failure(AtLeastMessage(lo))
      else if x > hi as real then Failure(AtMostMessage(hi))
      else Success(x.Floor)
    case _ => Failure(TypeMessage("number", v))
  }

  /** `ratingSchema.parse(body).rating`: `z.object({rating:
      z.number().int().min(1).max(5)})`. */
  function ParseRating(body: Json): (r: Result<int>)
  {
    if !body.JObj? then Failure(TypeMessage("object", Some(body)))
    else ParseIntIn(Field(body, "rating"), 1, 5)
  }

  /** A validated query body. */
  datatype Query = Query(question: string, topK: Option<int>, paperIds: Option<seq<string>>)

  /** `z.string().min(1).max(1000).trim()`: the length checks count the
      UTF-16 code units of the text as sent, before it is trimmed. */
  function ParseQuestion(v: Option<Json>): (r: Result<string>)
  {
    match v
    case Some(JStr(s)) =>
      if Utf16Length(s) < 1 then Failure(TooShortMessage)
      else if Utf16Length(s) > 1000 then Failure(TooLongMessage)
      else Success(JsTrim(s))
    case _ => Failure(TypeMessage("string", v))
  }

  /** `z.number().int().min(1).max(10).optional()`: a missing value is
      accepted as absent; an explicit `null` is not. */
  function ParseTopK(v: Option<Json>): (r: Result<Option<int>>)
  {
    if v.None? then Success(None)
    else
      var k :- ParseIntIn(v, 1, 10);
      Success(Some(k))
  }

  predicate AllObjectIds(items: seq<Json>) {
    forall i | 0 <= i < |items| :: items[i].JStr? && IsObjectId(items[i].s)
  }

  function Strs(items: seq<Json>): (r: seq<string>)
    requires forall i | 0 <= i < |items| :: items[i].JStr?
    ensures |r| == |items|
    ensures forall i | 0 <= i < |items| :: r[i] == items[i].s
  {
    seq(|items|, i requires 0 <= i < |items| => items[i].s)
  }

  /** The issue of one element of `paper_ids`, if any:
      `z.string().regex(/^[a-f0-9]{24}$/)`. */
  function IdIssue(item: Json): (r: Option<string>)
    ensures r.None? <==> item.JStr? && IsObjectId(item.s)
  {
    if !item.JStr? then Some(TypeMessage("string", Some(item)))
    else if !IsObjectId(item.s) then Some(BadPatternMessage)
    else None
  }

  /** The first element issue, elements being checked in index order. */
  function FirstIdIssue(items: seq<Json>): (r: Option<string>)
  {
    if |items| == 0 then None
    else if IdIssue(items[0]).Some? then IdIssue(items[0])
    else FirstIdIssue(items[1..])
  }

  /** `z.array(z.string().regex(/^[a-f0-9]{24}$/)).optional()` */
  function ParsePaperIds(v: Option<Json>): (r: Result<Option<seq<string>>>)
  {
    match v
    case None => Success(None)
    case Some(JArr(items)) =>
      if FirstIdIssue(items).Some? then Failure(FirstIdIssue(items).value)
      else
        FirstIdIssueNone(items);
        Success(Some(Strs(items)))
    case _ => Failure(TypeMessage("array", v))
  }

  /** `querySchema.parse(body)`: the fields are checked in the order
      `question`, `top_k`, `paper_ids`, and the first issue found is the
      reported one; unknown fields are dropped. */
  function ParseQuery(body: Json): (r: Result<Query>)
  {
    if !body.JObj? then Failure(TypeMessage("object", Some(body)))
    else
      var question :- ParseQuestion(Field(body, "question"));
      var topK :- ParseTopK(Field(body, "top_k"));
      var paperIds :- ParsePaperIds(Field(body, "paper_ids"));
      Success(Query(question, topK, paperIds))
  }

  /** No element issue means every element is a well-formed id; otherwise
      the issue is that of the first bad element. */
  lemma {:induction false} FirstIdIssueNone(items: seq<Json>)
    ensures FirstIdIssue(items).None? <==> AllObjectIds(items)
    ensures FirstIdIssue(items).Some? ==>
      exists k | 0 <= k < |items| :: FirstIdIssue(items) == IdIssue(items[k])
        && forall j | 0 <= j < k :: IdIssue(items[j]).None?
  {
    if |items| > 0 {
      FirstIdIssueNone(items[1..]);
      assert forall i | 1 <= i < |items| :: items[i] == items[1..][i - 1];
      if IdIssue(items[0]).None? && FirstIdIssue(items).Some? {
        var k :| 0 <= k < |items[1..]| && FirstIdIssue(items[1..]) == IdIssue(items[1..][k])
          && forall j | 0 <= j < k :: IdIssue(items[1..][j]).None?;
        assert forall j | 1 <= j < k + 1 :: IdIssue(items[j]) == IdIssue(items[1..][j - 1]);
        assert FirstIdIssue(items) == IdIssue(items[k + 1]);
      }
    }
  }

  // ---------------------------------------------------------------------
  // What the schemas accept

  /** An id is accepted exactly when it is 24 lower-case hex digits;
      anything else, upper-case hex included, is refused. */
  lemma ObjectIdAccepts(s: string)
    ensures ParseObjectId(s).Success? <==> |s| == 24 && forall i | 0 <= i < |s| :: '0' <= s[i] <= '9' || 'a' <= s[i] <= 'f'
    ensures |s| > 0 && 'A' <= s[0] <= 'F' ==> ParseObjectId(s).Failure?
  {
  }

  /** A number schema accepts exactly the integers from `lo` to `hi`, and
      its message names the first check that fails. */
  lemma IntInAccepts(v: Option<Json>, lo: int, hi: int)
    ensures ParseIntIn(v, lo, hi).Success? <==>
      v.Some? && v.value.JNum? && IsInteger(v.value.r) && lo as real <= v.value.r <= hi as real
    ensures ParseIntIn(v, lo, hi).Success? ==>
      ParseIntIn(v, lo, hi).value as real == v.value.r && lo <= ParseIntIn(v, lo, hi).value <= hi
    ensures v.None? ==> ParseIntIn(v, lo, hi) == Failure("Required")
    ensures v.Some? && !v.value.JNum? ==> ParseIntIn(v, lo, hi) == Failure(TypeMessage("number", v))
    ensures v.Some? && v.value.JNum? && !IsInteger(v.value.r) ==> ParseIntIn(v, lo, hi) == Failure(NotIntegerMessage)
    ensures v.Some? && v.value.JNum? && IsInteger(v.value.r) && v.value.r < lo as real ==>
      ParseIntIn(v, lo, hi) == Failure(AtLeastMessage(lo))
    ensures v.Some? && v.value.JNum? && IsInteger(v.value.r) && lo as real <= v.value.r && v.value.r > hi as real ==>
      ParseIntIn(v, lo, hi) == Failure(AtMostMessage(hi))
  {
  }

  /** A rating is accepted exactly when it is an integer from 1 to 5, and the
      accepted value is the number sent; a body that is not an object is
      refused with the object type message. */
  lemma RatingAccepts(body: Json)
    ensures ParseRating(body).Success? <==>
      body.JObj? && "rating" in body.fields && body.fields["rating"].JNum?
      && IsInteger(body.fields["rating"].r) && 1.0 <= body.fields["rating"].r <= 5.0
    ensures ParseRating(body).Success? ==>
      ParseRating(body).value as real == body.fields["rating"].r && 1 <= ParseRating(body).value <= 5
    ensures !body.JObj? ==> ParseRating(body) == Failure(TypeMessage("object", Some(body)))
    ensures body.JObj? && "rating" !in body.fields ==> ParseRating(body) == Failure("Required")
  {
    IntInAccepts(Field(body, "rating"), 1, 5);
  }

  /** A query body is accepted exactly when each field is; the accepted
      question is the trimmed text of 1 to 1000 UTF-16 code units as sent,
      `top_k` is within 1..10 and every paper id is a well-formed id. */
  lemma QueryAccepts(body: Json)
    ensures ParseQuery(body).Success? <==>
      body.JObj? && ParseQuestion(Field(body, "question")).Success?
      && ParseTopK(Field(body, "top_k")).Success? && ParsePaperIds(Field(body, "paper_ids")).Success?
    ensures ParseQuery(body).Success? ==>
      var q := ParseQuery(body).value;
      "question" in body.fields && body.fields["question"].JStr?
      && 1 <= Utf16Length(body.fields["question"].s) <= 1000
      && q.question == JsTrim(body.fields["question"].s)
      && (q.topK.Some? ==> 1 <= q.topK.value <= 10)
      && (q.topK.None? <==> "top_k" !in body.fields)
      && (q.paperIds.Some? ==> forall i | 0 <= i < |q.paperIds.value| :: IsObjectId(q.paperIds.value[i]))
  {
    if ParseQuery(body).Success? {
      var q := ParseQuery(body).value;
      IntInAccepts(Field(body, "top_k"), 1, 10);
      var pids := Field(body, "paper_ids");
      if pids.Some? {
        var items := pids.value.items;
        FirstIdIssueNone(items);
        assert q.paperIds == Some(Strs(items));
        forall i | 0 <= i < |items|
          ensures IsObjectId(Strs(items)[i])
        {
          assert items[i].JStr? && IsObjectId(items[i].s);
        }
      }
    }
  }

  /** The reported message is the first issue in field order: the object
      check, then `question`, then `top_k`, then `paper_ids`. */
  lemma QueryFirstIssue(body: Json)
    ensures !body.JObj? ==> ParseQuery(body) == Failure(TypeMessage("object", Some(body)))
    ensures body.JObj? && ParseQuestion(Field(body, "question")).Failure? ==>
      ParseQuery(body) == Failure(ParseQuestion(Field(body, "question")).error)
    ensures body.JObj? && ParseQuestion(Field(body, "question")).Success? && ParseTopK(Field(body, "top_k")).Failure? ==>
      ParseQuery(body) == Failure(ParseTopK(Field(body, "top_k")).error)
    ensures body.JObj? && ParseQuestion(Field(body, "question")).Success? && ParseTopK(Field(body, "top_k")).Success?
            && ParsePaperIds(Field(body, "paper_ids")).Failure? ==>
      ParseQuery(body) == Failure(ParsePaperIds(Field(body, "paper_ids")).error)
  {
  }

  /** The question's messages: a missing question is `Required`, another
      type names both types, an empty text is too short and one of more
      than 1000 UTF-16 code units too long. */
  lemma QuestionMessages(v: Option<Json>)
    ensures v.None? ==> ParseQuestion(v) == Failure("Required")
    ensures v.Some? && !v.value.JStr? ==> ParseQuestion(v) == Failure(TypeMessage("string", v))
    ensures v.Some? && v.value.JStr? && v.value.s == "" ==> ParseQuestion(v) == Failure(TooShortMessage)
    ensures v.Some? && v.value.JStr? && Utf16Length(v.value.s) > 1000 ==> ParseQuestion(v) == Failure(TooLongMessage)
  {
  }

  /** A paper-id list is accepted exactly when every element is an id, and
      is otherwise refused with the issue of its first bad element:
      `Expected string, received <type>` for a value that is not text, and
      `Invalid` for text that is not an id. */
  lemma PaperIdsMessages(v: Option<Json>)
    ensures v.Some? && !v.value.JArr? ==> ParsePaperIds(v) == Failure(TypeMessage("array", v))
    ensures v.Some? && v.value.JArr? ==>
      (ParsePaperIds(v).Success? <==> AllObjectIds(v.value.items))
    ensures v.Some? && v.value.JArr? && ParsePaperIds(v).Failure? ==>
      var items := v.value.items;
      exists k | 0 <= k < |items| :: IdIssue(items[k]).Some?
        && (forall j | 0 <= j < k :: IdIssue(items[j]).None?)
        && ParsePaperIds(v).error == IdIssue(items[k]).value
  {
    if v.Some? && v.value.JArr? {
      FirstIdIssueNone(v.value.items);
    }
  }

  /** The object-level messages on concrete bodies, as the schema library
      writes them; a missing question is reported even when `top_k` is
      also wrong. */
  lemma BodyMessageExamples()
    ensures ParseQuery(JNull) == Failure("Expected object, received null")
    ensures ParseQuery(JObj(map[])) == Failure("Required")
    ensures ParseQuery(JObj(map["top_k" := JNum(11.0)])) == Failure("Required")
  {
    assert TypeMessage("object", Some(JNull)) == "Expected object, received null" by {
      assert TypeName(JNull) == "null";
    }
  }

  /** The question messages on concrete values. */
  lemma QuestionMessageExamples()
    ensures ParseQuery(JObj(map["question" := JStr("")])) == Failure("String must contain at least 1 character(s)")
    ensures ParseQuestion(Some(JNum(3.0))) == Failure("Expected string, received number")
  {
    assert TypeMessage("string", Some(JNum(3.0))) == "Expected string, received number" by {
      assert TypeName(JNum(3.0)) == "number";
    }
  }

  /** The `top_k` messages on concrete values. */
  lemma TopKMessageExamples()
    ensures ParseTopK(Some(JNum(11.0))) == Failure("Number must be less than or equal to 10")
    ensures ParseTopK(Some(JNum(0.0))) == Failure("Number must be greater than or equal to 1")
  {
    assert IntToString(10) == "10" by {
      assert NatToString(10) == NatToString(1) + [DigitChar(0)];
    }
    assert AtMostMessage(10) == "Number must be less than or equal to 10";
    assert AtLeastMessage(1) == "Number must be greater than or equal to 1";
  }

  /** A `top_k` that is a fraction or not a number. */
  lemma TopKTypeExamples()
    ensures ParseTopK(Some(JNum(2.5))) == Failure("Expected integer, received float")
    ensures ParseTopK(Some(JNull)) == Failure("Expected number, received null")
  {
    assert TypeMessage("number", Some(JNull)) == "Expected number, received null" by {
      assert TypeName(JNull) == "null";
    }
  }

  /** The `paper_ids` messages for values of the wrong type. */
  lemma PaperIdsTypeExamples()
    ensures ParsePaperIds(Some(JStr("abc"))) == Failure("Expected array, received string")
  {
    assert TypeMessage("array", Some(JStr("abc"))) == "Expected array, received string" by {
      assert TypeName(JStr("abc")) == "string";
    }
  }

  /** An element that is not text is refused with the string type message. */
  lemma PaperIdsElementExample()
    ensures ParsePaperIds(Some(JArr([JNum(1.0)]))) == Failure("Expected string, received number")
  {
    assert IdIssue(JNum(1.0)) == Some("Expected string, received number") by {
      assert TypeName(JNum(1.0)) == "number";
      assert TypeMessage("string", Some(JNum(1.0))) == "Expected string, received number";
    }
  }

  /** Text that is not an id is refused with the bare pattern message. */
  lemma PaperIdsPatternExample()
    ensures ParsePaperIds(Some(JArr([JStr("0123456789abcdef01234567"), JStr("abc")]))) == Failure("Invalid")
  {
    assert IsObjectId("0123456789abcdef01234567");
    assert !IsObjectId("abc");
  }

  /** The rating test: 4 is accepted, 6 is refused with the upper-bound
      message, and the id `invalid` with the id message. */
  lemma RatingExamples()
    ensures ParseRating(JObj(map["rating" := JNum(4.0)])) == Success(4)
    ensures ParseRating(JObj(map["rating" := JNum(6.0)])) == Failure("Number must be less than or equal to 5")
    ensures ParseRating(JObj(map["rating" := JNum(2.5)])) == Failure("Expected integer, received float")
    ensures ParseObjectId("invalid") == Failure("Invalid ObjectId format")
  {
    assert |"invalid"| != 24;
  }

  /** A question of blanks passes the length check and becomes empty. */
  lemma BlankQuestionAccepted()
    ensures ParseQuestion(Some(JStr("   "))) == Success("")
  {
    assert JsTrim("   ") == "";
  }

  /** Length is counted in UTF-16 code units: 501 characters beyond the
      Basic Multilingual Plane are only 501 characters but 1002 units, so
      such a question is refused as too long. */
  lemma AstralQuestionTooLong()
    ensures var s := seq(501, _ => '\U{1F600}');
      |s| <= 1000 && ParseQuestion(Some(JStr(s))) == Failure(TooLongMessage)
  {
    var s := seq(501, _ => '\U{1F600}');
    Utf16LengthAstral(s);
  }
}
