/**
  Request bodies and their validation. A JSON body field is absent
  (`undefined`), a string, a number or anything else; each route checks its
  fields in a fixed order and reports only the first check that fails.
 */
module Requests {

  import opened Records

  /**
    A field of a parsed JSON request body. Only finite numbers are
    represented; an overflowing literal such as `1e400`, which parses to an
    infinity, is not.
   */
  datatype JsonValue = Undefined | Str(s: string) | Num(x: real) | Other

  datatype InspectRequest = InspectRequest(restaurantName: JsonValue, grade: JsonValue, score: JsonValue)
  datatype TopRequest = TopRequest(n: JsonValue)
  datatype SpecificRequest = SpecificRequest(n: JsonValue, b: JsonValue, c: JsonValue)

  /** What a request was rejected for; each kind has its own 400 message (see `MessagesDistinct`). */
  datatype InputError =
    | InspectFieldsMissing
    | NameNotString
    | GradeNotCapital
    | ScoreNotNumber
    | TopCountMissing
    | CountNotNatural
    | SpecificFieldsMissing
    | BoroughNotString
    | CuisineNotString

  datatype Validated<T> = Valid(value: T) | Invalid(error: InputError)

  datatype InspectInput = InspectInput(name: string, grade: string, score: real)
  datatype SpecificInput = SpecificInput(n: nat, borough: string, cuisine: string)

  /** The message the service sends with the 400 status for each rejection. */
  function Message(e: InputError): (m: string)
    ensures |m| > 0
  {
    match e
    case InspectFieldsMissing => "inputs require restaurant_name, grade, and score in req body as JSON."
    case NameNotString => "restaurant_name must be a string"
    case GradeNotCapital => "grade must be a singular capital letter"
    case ScoreNotNumber => "score must be a number"
    case TopCountMissing => "input n is required in the req body as JSON."
    case CountNotNatural => "n must be an integer >= 0"
    case SpecificFieldsMissing => "inputs require n, b(borough), and c(cuisine) in req body as JSON."
    case BoroughNotString => "b (bourough) must be a string"
    case CuisineNotString => "c (cuisine) must be a string"
  }

  /** Different rejections never share a message, so a client can tell which check failed. */
  lemma MessagesDistinct(e1: InputError, e2: InputError)
    ensures Message(e1) == Message(e2) <==> e1 == e2
  {
    if Message(e1) == Message(e2) {
      MessageLength(e1);
      MessageLength(e2);
      LengthsDiffer(e1, e2);
    }
  }

  /** The length of each message; the nine lengths are all different. */
  function ExpectedLength(e: InputError): nat {
    match e
    case InspectFieldsMissing => 69
    case NameNotString => 32
    case GradeNotCapital => 39
    case ScoreNotNumber => 22
    case TopCountMissing => 44
    case CountNotNatural => 25
    case SpecificFieldsMissing => 65
    case BoroughNotString => 29
    case CuisineNotString => 28
  }

  lemma MessageLength(e: InputError)
    ensures |Message(e)| == ExpectedLength(e)
  {
  }

  lemma LengthsDiffer(e1: InputError, e2: InputError)
    ensures ExpectedLength(e1) == ExpectedLength(e2) ==> e1 == e2
  {
  }

  predicate IsCapital(ch: char) {
    'A' <= ch <= 'Z'
  }

  /**
    `/[A-Z]/.test(v)`: the text of `v` contains a capital letter somewhere.
    The text of a finite number is made of digits, a sign, a point and a
    lower-case exponent mark, so it never does.
   */
  predicate HasCapital(v: JsonValue) {
    v.Str? && exists i :: 0 <= i < |v.s| && IsCapital(v.s[i])
  }

  /** `v.length`, which only a string has among the values modelled. */
  function Length(v: JsonValue): Option<nat> {
    if v.Str? then Some(|v.s|) else None
  }

  /**
    The grade test of the `/inspect` route, which passes when it does not
    reject: it admits exactly the strings made of one capital letter.
   */
  predicate GradeAccepted(v: JsonValue)
    ensures GradeAccepted(v) <==> v.Str? && |v.s| == 1 && IsCapital(v.s[0])
  {
    CapitalInFront(v);
    !(!HasCapital(v) || Length(v) != Some(1))
  }

  /** A string starting with a capital letter contains one. */
  lemma CapitalInFront(v: JsonValue)
    ensures v.Str? && |v.s| > 0 && IsCapital(v.s[0]) ==> HasCapital(v)
  {
    if v.Str? && |v.s| > 0 && IsCapital(v.s[0]) {
      assert 0 <= 0 < |v.s| && IsCapital(v.s[0]);
    }
  }

  /** Two letters, a lower-case letter, a digit and a number are all turned away. */
  lemma GradeExamples()
    ensures GradeAccepted(Str("A")) && GradeAccepted(Str("Z"))
    ensures !GradeAccepted(Str("ab")) && !GradeAccepted(Str("AB"))
    ensures !GradeAccepted(Str("a")) && !GradeAccepted(Str("1")) && !GradeAccepted(Str(""))
    ensures !GradeAccepted(Num(1.0))
  {
  }

  /**
    The checks of `PUT /inspect`, first failure wins: all three fields
    present, then a string name, then a one-capital-letter grade, then a
    numeric score.
   */
  function ValidateInspect(body: InspectRequest): (r: Validated<InspectInput>)
    ensures r == Invalid(InspectFieldsMissing) <==>
      Undefined in {body.restaurantName, body.grade, body.score}
    ensures r == Invalid(NameNotString) <==>
      Undefined !in {body.restaurantName, body.grade, body.score} && !body.restaurantName.Str?
    ensures r == Invalid(GradeNotCapital) <==>
      Undefined !in {body.restaurantName, body.grade, body.score} && body.restaurantName.Str? &&
      !(body.grade.Str? && |body.grade.s| == 1 && IsCapital(body.grade.s[0]))
    ensures r == Invalid(ScoreNotNumber) <==>
      body.restaurantName.Str? && body.grade.Str? && |body.grade.s| == 1 && IsCapital(body.grade.s[0]) &&
      body.score != Undefined && !body.score.Num?
    ensures r.Valid? <==>
      body.restaurantName.Str? && body.grade.Str? && |body.grade.s| == 1 && IsCapital(body.grade.s[0]) &&
      body.score.Num?
    ensures r.Valid? ==> r.value == InspectInput(body.restaurantName.s, body.grade.s, body.score.x)
  {
    if body.restaurantName == Undefined || body.grade == Undefined || body.score == Undefined then
      Invalid(InspectFieldsMissing)
    else if !body.restaurantName.Str? then
      Invalid(NameNotString)
    else if !GradeAccepted(body.grade) then
      Invalid(GradeNotCapital)
    else if !body.score.Num? then
      Invalid(ScoreNotNumber)
    else
      Valid(InspectInput(body.restaurantName.s, body.grade.s, body.score.x))
  }

  /**
    `typeof n !== 'number' || Math.floor(n) !== n || n < 0` fails: `v` is
    a whole number that is not negative.
   */
  predicate IsCount(v: JsonValue) {
    v.Num? && v.x.Floor as real == v.x && v.x >= 0.0
  }

  /** The value of an accepted count. */
  function CountOf(v: JsonValue): (n: nat)
    requires IsCount(v)
    ensures n as real == v.x
  {
    v.x.Floor
  }

  /** Every natural number passes the count test, and is the count it yields. */
  lemma NaturalIsCount(n: nat)
    ensures IsCount(Num(n as real)) && CountOf(Num(n as real)) == n
  {
    assert (n as real).Floor == n;
  }

  /** The checks of `GET /top`: `n` present, then a whole number at least 0. */
  function ValidateTop(body: TopRequest): (r: Validated<nat>)
    ensures r == Invalid(TopCountMissing) <==> body.n == Undefined
    ensures r == Invalid(CountNotNatural) <==>
      body.n != Undefined && !(body.n.Num? && body.n.x.Floor as real == body.n.x && body.n.x >= 0.0)
    ensures r.Valid? <==> body.n.Num? && body.n.x.Floor as real == body.n.x && body.n.x >= 0.0
    ensures r.Valid? ==> r.value as real == body.n.x
  {
    if body.n == Undefined then Invalid(TopCountMissing)
    else if !IsCount(body.n) then Invalid(CountNotNatural)
    else Valid(CountOf(body.n))
  }

  /**
    The checks of `GET /specific`: all of `n`, `b`, `c` present, then `n`
    a whole number at least 0, then `b` a string, then `c` a string.
   */
  function ValidateSpecific(body: SpecificRequest): (r: Validated<SpecificInput>)
    ensures r == Invalid(SpecificFieldsMissing) <==> Undefined in {body.n, body.b, body.c}
    ensures r == Invalid(CountNotNatural) <==>
      Undefined !in {body.n, body.b, body.c} && !IsCount(body.n)
    ensures r == Invalid(BoroughNotString) <==>
      IsCount(body.n) && body.b != Undefined && body.c != Undefined && !body.b.Str?
    ensures r == Invalid(CuisineNotString) <==>
      IsCount(body.n) && body.b.Str? && body.c != Undefined && !body.c.Str?
    ensures r.Valid? <==> IsCount(body.n) && body.b.Str? && body.c.Str?
    ensures r.Valid? ==> r.value.n as real == body.n.x && r.value.borough == body.b.s && r.value.cuisine == body.c.s
  {
    if body.n == Undefined || body.b == Undefined || body.c == Undefined then
      Invalid(SpecificFieldsMissing)
    else if !IsCount(body.n) then
      Invalid(CountNotNatural)
    else if !body.b.Str? then
      Invalid(BoroughNotString)
    else if !body.c.Str? then
      Invalid(CuisineNotString)
    else
      Valid(SpecificInput(CountOf(body.n), body.b.s, body.c.s))
  }

  /** Both count checks are one rule: `/top` and `/specific` accept the same `n`. */
  lemma CountRuleShared(n: JsonValue, b: string, c: string)
    ensures ValidateTop(TopRequest(n)).Valid? <==> ValidateSpecific(SpecificRequest(n, Str(b), Str(c))).Valid?
    ensures ValidateTop(TopRequest(n)).Valid? ==>
      ValidateTop(TopRequest(n)).value == ValidateSpecific(SpecificRequest(n, Str(b), Str(c))).value.n
  {
  }

  /** A fractional, negative or textual `n` is rejected by `/top`. */
  lemma CountExamples()
    ensures ValidateTop(TopRequest(Num(2.5))) == Invalid(CountNotNatural)
    ensures ValidateTop(TopRequest(Num(-1.0))) == Invalid(CountNotNatural)
    ensures ValidateTop(TopRequest(Str("5"))) == Invalid(CountNotNatural)
    ensures ValidateTop(TopRequest(Undefined)) == Invalid(TopCountMissing)
    ensures ValidateTop(TopRequest(Num(0.0))) == Valid(0)
    ensures ValidateTop(TopRequest(Num(3.0))) == Valid(3)
  {
  }

  /** A textual score is rejected once name and grade have passed. */
  lemma ScoreExample(name: string)
    ensures ValidateInspect(InspectRequest(Str(name), Str("B"), Str("five"))) == Invalid(ScoreNotNumber)
    ensures ValidateInspect(InspectRequest(Str(name), Str("ab"), Str("five"))) == Invalid(GradeNotCapital)
  {
  }
}
