/**
  The three routes of the restaurant router that hold logic: `PUT /inspect`
  appends a grade to a restaurant found by name, `GET /top` ranks all
  restaurants with at least five grades, and `GET /specific` ranks the
  restaurants of one borough and cuisine. The collection is an array of
  documents owned by a store object.
 */
module Handlers {

  import opened Records
  import opened Requests
  import opened Pipeline

  /** What a route answers: 200 with a value, 400 with a message, or 500 with a message. */
  datatype Response<T> = Ok(value: T) | BadRequest(message: string) | ServerError(message: string)

  /** One entry of the `/top` answer: `{name, avgScore}`. */
  datatype TopEntry = TopEntry(name: string, avgScore: real)

  /** The `/specific` answer: `{names, boroughs, cuisines}`, three arrays read index by index. */
  datatype SpecificResult = SpecificResult(names: seq<string>, boroughs: seq<string>, cuisines: seq<string>)

  /** The error message of a failed lookup; it quotes the name searched for. */
  function NotFoundMessage(name: string): (m: string)
    ensures |m| == |name| + 24
    ensures m[13..13 + |name|] == name
  {
    "Restaurant: '" + name + "' Not Found"
  }

  /** The `forEach` that turns each ranked group into `{name, avgScore}`, pushing in rank order. */
  method FormatTop(ranked: seq<Group<TopId>>) returns (formatted: seq<TopEntry>)
    ensures |formatted| == |ranked|
    ensures forall i :: 0 <= i < |ranked| ==>
      formatted[i].name == ranked[i].id.name && formatted[i].avgScore == ranked[i].avgScore
  {
    formatted := [];
    var i := 0;
    while i < |ranked|
      invariant 0 <= i <= |ranked|
      invariant |formatted| == i
      invariant forall k :: 0 <= k < i ==>
        formatted[k].name == ranked[k].id.name && formatted[k].avgScore == ranked[k].avgScore
    {
      formatted := formatted + [TopEntry(ranked[i].id.name, ranked[i].avgScore)];
      i := i + 1;
    }
  }

  /** The `forEach` that pushes each ranked group's name, borough and cuisine onto three arrays. */
  method FormatSpecific(ranked: seq<Group<SpecificId>>) returns (result: SpecificResult)
    ensures |result.names| == |ranked| && |result.boroughs| == |ranked| && |result.cuisines| == |ranked|
    ensures forall i :: 0 <= i < |ranked| ==>
      result.names[i] == ranked[i].id.name &&
      result.boroughs[i] == ranked[i].id.borough &&
      result.cuisines[i] == ranked[i].id.cuisine
  {
    var names, boroughs, cuisines := [], [], [];
    var i := 0;
    while i < |ranked|
      invariant 0 <= i <= |ranked|
      invariant |names| == i && |boroughs| == i && |cuisines| == i
      invariant forall k :: 0 <= k < i ==>
        names[k] == ranked[k].id.name && boroughs[k] == ranked[k].id.borough && cuisines[k] == ranked[k].id.cuisine
    {
      names := names + [ranked[i].id.name];
      boroughs := boroughs + [ranked[i].id.borough];
      cuisines := cuisines + [ranked[i].id.cuisine];
      i := i + 1;
    }
    result := SpecificResult(names, boroughs, cuisines);
  }

  /** The `restaurants` collection, in the order the store returns its documents. */
  class RestaurantStore {

    var docs: array<Restaurant>

    constructor (initial: seq<Restaurant>)
      ensures fresh(docs)
      ensures docs[..] == initial
    {
      docs := new Restaurant[|initial|](i requires 0 <= i < |initial| => initial[i]);
    }

    /**
      `PUT /inspect`. Nothing is looked up or changed unless the body passes
      every check. Then the first document with the requested name gets the
      new grade `{date: now, grade, score}` in front of its grades and
      replaces its old version; every other document stays as it was. With
      no such document the answer is a 500 quoting the name.
     */
    method Inspect(body: InspectRequest, now: string) returns (resp: Response<Restaurant>)
      modifies docs
      ensures ValidateInspect(body).Invalid? ==>
        resp == BadRequest(Message(ValidateInspect(body).error)) && docs[..] == old(docs[..])
      ensures ValidateInspect(body).Valid? ==>
        var input := ValidateInspect(body).value;
        var found := FindByName(old(docs[..]), input.name);
        if |found| == 0 then
          resp == ServerError(NotFoundMessage(input.name)) && docs[..] == old(docs[..])
        else
          var i := found[0];
          docs[..] == old(docs[..])[i := Unshift(old(docs[i]), Grade(now, input.grade, input.score))] &&
          resp == Ok(docs[i])
    {
      var checked := ValidateInspect(body);
      if checked.Invalid? {
        resp := BadRequest(Message(checked.error));
        return;
      }
      var input := checked.value;
      var found := FindByName(docs[..], input.name);
      if |found| == 0 {
        resp := ServerError(NotFoundMessage(input.name));
        return;
      }
      var i := found[0];
      var updated := Unshift(docs[i], Grade(now, input.grade, input.score));
      docs[i] := updated;
      resp := Ok(updated);
    }

    /**
      `GET /top`: after the checks on `n`, the first `n` groups of the
      global ranking as `{name, avgScore}`, at most `n` of them, averages
      never increasing.
     */
    method Top(body: TopRequest) returns (resp: Response<seq<TopEntry>>)
      ensures ValidateTop(body).Invalid? ==> resp == BadRequest(Message(ValidateTop(body).error))
      ensures ValidateTop(body).Valid? ==> resp.Ok?
      ensures ValidateTop(body).Valid? ==>
        var top := TopN(docs[..], ValidateTop(body).value);
        |resp.value| == |top| && |resp.value| <= ValidateTop(body).value &&
        (forall i :: 0 <= i < |top| ==>
          resp.value[i].name == top[i].id.name && resp.value[i].avgScore == top[i].avgScore) &&
        (forall i, j :: 0 <= i < j < |resp.value| ==> resp.value[i].avgScore >= resp.value[j].avgScore)
    {
      var checked := ValidateTop(body);
      if checked.Invalid? {
        resp := BadRequest(Message(checked.error));
        return;
      }
      TopNProperties(docs[..], checked.value);
      var ranked := TopRanking(docs[..]);
      var formatted := FormatTop(Take(ranked, checked.value));
      resp := Ok(formatted);
    }

    /**
      `GET /specific`: after the checks on `n`, `b` and `c`, the first `n`
      groups of the borough/cuisine ranking as three index-aligned arrays;
      every borough is `b`, every cuisine is `c`, averages never increase.
     */
    method Specific(body: SpecificRequest) returns (resp: Response<SpecificResult>)
      ensures ValidateSpecific(body).Invalid? ==> resp == BadRequest(Message(ValidateSpecific(body).error))
      ensures ValidateSpecific(body).Valid? ==> resp.Ok?
      ensures ValidateSpecific(body).Valid? ==>
        var input := ValidateSpecific(body).value;
        var top := SpecificN(docs[..], input.borough, input.cuisine, input.n);
        |resp.value.names| == |top| && |resp.value.boroughs| == |top| && |resp.value.cuisines| == |top| &&
        |top| <= input.n &&
        (forall i :: 0 <= i < |top| ==>
          resp.value.names[i] == top[i].id.name &&
          resp.value.boroughs[i] == input.borough && resp.value.cuisines[i] == input.cuisine) &&
        (forall i, j :: 0 <= i < j < |top| ==> top[i].avgScore >= top[j].avgScore)
    {
      var checked := ValidateSpecific(body);
      if checked.Invalid? {
        resp := BadRequest(Message(checked.error));
        return;
      }
      var input := checked.value;
      var ranked := SpecificRanking(docs[..], input.borough, input.cuisine);
      var top := Take(ranked, input.n);
      var result := FormatSpecific(top);
      resp := Ok(result);
    }
  }
}
