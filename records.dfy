/**
  The restaurant document as the `restaurants` collection stores it, and the
  two document-level operations the grade-append route performs on it:
  finding the documents with a given name, and putting a new grade in front
  of a document's grade list.
 */
module Records {

  datatype Option<T> = None | Some(value: T)

  /**
    The address sub-document. The schema only requires it to be an object;
    these four fields are the usual shape of the stored data and are
    illustrative. No operation of the service looks inside it.
   */
  datatype Address = Address(building: string, coord: seq<real>, street: string, zipcode: string)

  /** One inspection: when it happened, the letter grade and the numeric score. */
  datatype Grade = Grade(date: string, grade: string, score: real)

  /** The required fields of a restaurant document, in schema order. */
  datatype Restaurant = Restaurant(
    address: Address,
    borough: string,
    cuisine: string,
    grades: seq<Grade>,
    name: string,
    restaurantId: string)

  /** The document with `g` put in front of its grades (`grades.unshift(g)`). */
  function Unshift(d: Restaurant, g: Grade): (r: Restaurant)
    ensures |r.grades| == |d.grades| + 1
    ensures r.grades[0] == g
    ensures forall k :: 0 <= k < |d.grades| ==> r.grades[k + 1] == d.grades[k]
    ensures r.address == d.address && r.borough == d.borough && r.cuisine == d.cuisine
    ensures r.name == d.name && r.restaurantId == d.restaurantId
  {
    d.(grades := [g] + d.grades)
  }

  /**
    The positions, in store order, of the documents whose `name` equals
    `name`: what a `find({ name })` query yields.
   */
  function FindByName(docs: seq<Restaurant>, name: string): (r: seq<nat>)
    ensures forall k :: 0 <= k < |r| ==> r[k] < |docs| && docs[r[k]].name == name
    ensures forall i :: 0 <= i < |docs| && docs[i].name == name ==> i in r
    ensures forall k, l :: 0 <= k < l < |r| ==> r[k] < r[l]
    decreases |docs|
  {
    if docs == [] then []
    else
      var last := |docs| - 1;
      var rest := FindByName(docs[..last], name);
      if docs[last].name == name then rest + [last] else rest
  }

  /** The first result of the query is the earliest document in store order with that name. */
  lemma FirstMatchIsEarliest(docs: seq<Restaurant>, name: string)
    requires |FindByName(docs, name)| > 0
    ensures var i := FindByName(docs, name)[0];
      i < |docs| && docs[i].name == name &&
      forall j :: 0 <= j < i ==> docs[j].name != name
  {
  }

  /** No document has the name exactly when the query comes back empty. */
  lemma FindByNameEmpty(docs: seq<Restaurant>, name: string)
    ensures |FindByName(docs, name)| == 0 <==> forall i :: 0 <= i < |docs| ==> docs[i].name != name
  {
    var r := FindByName(docs, name);
    if |r| > 0 {
      assert docs[r[0]].name == name;
    }
  }

  /** Example: a diner graded A 90 and B 70 gets C 50 in front. */
  lemma UnshiftExample(address: Address, date: string)
    ensures
      var diner := Restaurant(address, "Manhattan", "American",
        [Grade("2014-12-24", "A", 90.0), Grade("2014-07-01", "B", 70.0)], "Test Diner", "41562415");
      Unshift(diner, Grade(date, "C", 50.0)).grades ==
        [Grade(date, "C", 50.0), Grade("2014-12-24", "A", 90.0), Grade("2014-07-01", "B", 70.0)]
  {
  }
}
