/**
  The two ranking aggregations, stage by stage: `$match` keeps the
  documents that satisfy a filter, `$unwind` turns each document into one
  row per grade, `$group` gathers the rows by a key built from restaurant
  fields and averages their scores, `$sort` orders the groups by that
  average, highest first, and `slice(0, n)` keeps the first `n`.
 */
module Pipeline {

  import opened Records

  /** An unwound document: the restaurant's fields with one of its grades in place of the list. */
  datatype Row = Row(doc: Restaurant, grade: Grade)

  /** A `$group` output: the group key and the mean score of the group's rows. */
  datatype Group<K> = Group(id: K, avgScore: real)

  /** Group key of the global ranking: `{restaurant_id, name}`. */
  datatype TopId = TopId(restaurantId: string, name: string)

  /** Group key of the borough/cuisine ranking: `{restaurant_id, name, borough, cuisine}`. */
  datatype SpecificId = SpecificId(restaurantId: string, name: string, borough: string, cuisine: string)

  function TopKey(d: Restaurant): TopId {
    TopId(d.restaurantId, d.name)
  }

  function SpecificKey(d: Restaurant): SpecificId {
    SpecificId(d.restaurantId, d.name, d.borough, d.cuisine)
  }

  /** Two documents fall in one `/top` group exactly when they share `restaurant_id` and `name`. */
  lemma TopKeyIdentifies(d1: Restaurant, d2: Restaurant)
    ensures TopKey(d1) == TopKey(d2) <==> d1.restaurantId == d2.restaurantId && d1.name == d2.name
  {
  }

  /** A `/specific` group also separates documents by borough and cuisine. */
  lemma SpecificKeyIdentifies(d1: Restaurant, d2: Restaurant)
    ensures SpecificKey(d1) == SpecificKey(d2) <==>
      TopKey(d1) == TopKey(d2) && d1.borough == d2.borough && d1.cuisine == d2.cuisine
  {
  }

  /** `{"grades.4": {$exists: true}}`: the grade list has an element at index 4, so at least five grades. */
  predicate Eligible(d: Restaurant) {
    4 < |d.grades|
  }

  /** `{borough: b, cuisine: c}`: the documents of borough `b` and cuisine `c`. */
  function PlaceFilter(b: string, c: string): Restaurant -> bool {
    (d: Restaurant) => d.borough == b && d.cuisine == c
  }

  // ---------------------------------------------------------------- stages

  /** `$match`: the documents satisfying `p`, in store order. */
  function Match(docs: seq<Restaurant>, p: Restaurant -> bool): (r: seq<Restaurant>)
    ensures forall d :: d in r <==> d in docs && p(d)
    ensures |r| <= |docs|
  {
    if docs == [] then []
    else (if p(docs[0]) then [docs[0]] else []) + Match(docs[1..], p)
  }

  /** The rows `$unwind` makes of document `d` for the grades `gs`, in grade order. */
  function UnwindOne(d: Restaurant, gs: seq<Grade>): (rows: seq<Row>)
    ensures |rows| == |gs|
    ensures forall i :: 0 <= i < |gs| ==> rows[i] == Row(d, gs[i])
    ensures forall row :: row in rows <==> row.doc == d && row.grade in gs
  {
    if gs == [] then [] else [Row(d, gs[0])] + UnwindOne(d, gs[1..])
  }

  /** `$unwind: '$grades'`: one row per (document, grade); a document without grades yields none. */
  function Unwind(docs: seq<Restaurant>): (rows: seq<Row>)
    ensures forall row :: row in rows <==> row.doc in docs && row.grade in row.doc.grades
  {
    if docs == [] then [] else UnwindOne(docs[0], docs[0].grades) + Unwind(docs[1..])
  }

  /** The `$grades.score` of every row whose key is `k`, in row order. */
  function ScoresOf<K(==,!new)>(rows: seq<Row>, key: Restaurant -> K, k: K): (s: seq<real>)
    ensures |s| <= |rows|
    ensures |s| > 0 <==> exists row :: row in rows && key(row.doc) == k
  {
    if rows == [] then []
    else (if key(rows[0].doc) == k then [rows[0].grade.score] else []) + ScoresOf(rows[1..], key, k)
  }

  /** The distinct keys of the rows (the `_id`s `$group` produces), in an order the store leaves open. */
  function GroupIds<K(==,!new)>(rows: seq<Row>, key: Restaurant -> K): (ks: seq<K>)
    ensures forall k :: k in ks <==> exists row :: row in rows && key(row.doc) == k
    ensures forall i, j :: 0 <= i < j < |ks| ==> ks[i] != ks[j]
  {
    if rows == [] then []
    else
      var rest := GroupIds(rows[1..], key);
      if key(rows[0].doc) in rest then rest else [key(rows[0].doc)] + rest
  }

  function Sum(xs: seq<real>): real {
    if xs == [] then 0.0 else xs[0] + Sum(xs[1..])
  }

  /** `$avg`: the arithmetic mean, computed exactly. */
  function Mean(xs: seq<real>): real
    requires |xs| > 0
  {
    Sum(xs) / (|xs| as real)
  }

  /**
    `$group` with `avgScore: {$avg: '$grades.score'}`: one group per key
    that occurs among the rows, whose average is the mean score of all rows
    with that key.
   */
  function GroupAverage<K(==,!new)>(rows: seq<Row>, key: Restaurant -> K): (gs: seq<Group<K>>)
    ensures forall i, j :: 0 <= i < j < |gs| ==> gs[i].id != gs[j].id
    ensures forall i :: 0 <= i < |gs| ==> exists row :: row in rows && key(row.doc) == gs[i].id
    ensures forall row :: row in rows ==> exists i :: 0 <= i < |gs| && gs[i].id == key(row.doc)
    ensures forall g :: g in gs ==>
      |ScoresOf(rows, key, g.id)| > 0 && g.avgScore == Mean(ScoresOf(rows, key, g.id))
  {
    GroupIdsHaveScores(rows, key);
    var gs := AverageEach(rows, key, GroupIds(rows, key));
    GroupAverageFacts(rows, key, gs);
    gs
  }

  lemma GroupIdsHaveScores<K(!new)>(rows: seq<Row>, key: Restaurant -> K)
    ensures forall k :: k in GroupIds(rows, key) ==> |ScoresOf(rows, key, k)| > 0
  {
    forall k | k in GroupIds(rows, key)
      ensures |ScoresOf(rows, key, k)| > 0
    {
      var row :| row in rows && key(row.doc) == k;
    }
  }

  lemma GroupAverageFacts<K(!new)>(rows: seq<Row>, key: Restaurant -> K, gs: seq<Group<K>>)
    requires forall k :: k in GroupIds(rows, key) ==> |ScoresOf(rows, key, k)| > 0
    requires gs == AverageEach(rows, key, GroupIds(rows, key))
    ensures forall i, j :: 0 <= i < j < |gs| ==> gs[i].id != gs[j].id
    ensures forall i :: 0 <= i < |gs| ==> exists row :: row in rows && key(row.doc) == gs[i].id
    ensures forall row :: row in rows ==> exists i :: 0 <= i < |gs| && gs[i].id == key(row.doc)
    ensures forall g :: g in gs ==>
      |ScoresOf(rows, key, g.id)| > 0 && g.avgScore == Mean(ScoresOf(rows, key, g.id))
  {
    GroupsHaveRows(rows, key, gs);
    RowsHaveGroups(rows, key, gs);
    GroupsAveraged(rows, key, gs);
  }

  lemma GroupsAveraged<K(!new)>(rows: seq<Row>, key: Restaurant -> K, gs: seq<Group<K>>)
    requires forall k :: k in GroupIds(rows, key) ==> |ScoresOf(rows, key, k)| > 0
    requires gs == AverageEach(rows, key, GroupIds(rows, key))
    ensures forall i, j :: 0 <= i < j < |gs| ==> gs[i].id != gs[j].id
    ensures forall g :: g in gs ==>
      |ScoresOf(rows, key, g.id)| > 0 && g.avgScore == Mean(ScoresOf(rows, key, g.id))
  {
    var ks := GroupIds(rows, key);
    forall g | g in gs
      ensures |ScoresOf(rows, key, g.id)| > 0 && g.avgScore == Mean(ScoresOf(rows, key, g.id))
    {
      var i :| 0 <= i < |gs| && gs[i] == g;
      assert ks[i] in ks;
    }
  }

  lemma GroupsHaveRows<K(!new)>(rows: seq<Row>, key: Restaurant -> K, gs: seq<Group<K>>)
    requires forall k :: k in GroupIds(rows, key) ==> |ScoresOf(rows, key, k)| > 0
    requires gs == AverageEach(rows, key, GroupIds(rows, key))
    ensures forall i :: 0 <= i < |gs| ==> exists row :: row in rows && key(row.doc) == gs[i].id
  {
    var ks := GroupIds(rows, key);
    forall i | 0 <= i < |gs|
      ensures exists row :: row in rows && key(row.doc) == gs[i].id
    {
      assert gs[i].id == ks[i] && ks[i] in ks;
    }
  }

  lemma RowsHaveGroups<K(!new)>(rows: seq<Row>, key: Restaurant -> K, gs: seq<Group<K>>)
    requires forall k :: k in GroupIds(rows, key) ==> |ScoresOf(rows, key, k)| > 0
    requires gs == AverageEach(rows, key, GroupIds(rows, key))
    ensures forall row :: row in rows ==> exists i :: 0 <= i < |gs| && gs[i].id == key(row.doc)
  {
    var ks := GroupIds(rows, key);
    forall row | row in rows
      ensures exists i :: 0 <= i < |gs| && gs[i].id == key(row.doc)
    {
      assert key(row.doc) in ks;
      var i :| 0 <= i < |ks| && ks[i] == key(row.doc);
      assert gs[i].id == ks[i];
    }
  }

  /** One group per key of `ks`, in that order, each with the mean score of its rows. */
  function AverageEach<K(==,!new)>(rows: seq<Row>, key: Restaurant -> K, ks: seq<K>): (gs: seq<Group<K>>)
    requires forall k :: k in ks ==> |ScoresOf(rows, key, k)| > 0
    ensures |gs| == |ks|
    ensures forall i :: 0 <= i < |ks| ==> gs[i] == Group(ks[i], Mean(ScoresOf(rows, key, ks[i])))
  {
    if ks == [] then []
    else [Group(ks[0], Mean(ScoresOf(rows, key, ks[0])))] + AverageEach(rows, key, ks[1..])
  }

  /** Average scores never increase along `gs`. */
  ghost predicate Descending<K>(gs: seq<Group<K>>) {
    forall i, j :: 0 <= i < j < |gs| ==> gs[i].avgScore >= gs[j].avgScore
  }

  function Insert<K(==,!new)>(g: Group<K>, gs: seq<Group<K>>): (r: seq<Group<K>>)
    requires Descending(gs)
    ensures Descending(r)
    ensures multiset(r) == multiset(gs) + multiset{g}
  {
    if gs == [] || gs[0].avgScore <= g.avgScore then
      PrependDescending(g, gs);
      [g] + gs
    else
      var rest := Insert(g, gs[1..]);
      assert gs == [gs[0]] + gs[1..];
      InsertedBelow(gs[0], g, gs[1..], rest);
      PrependDescending(gs[0], rest);
      [gs[0]] + rest
  }

  /** A group scoring at least as high as every group of a descending list can go in front of it. */
  lemma PrependDescending<K>(head: Group<K>, gs: seq<Group<K>>)
    requires Descending(gs)
    requires forall x :: x in gs ==> x.avgScore <= head.avgScore
    ensures Descending([head] + gs)
  {
    var r := [head] + gs;
    forall i, j | 0 <= i < j < |r|
      ensures r[i].avgScore >= r[j].avgScore
    {
      if i > 0 {
        assert r[i] == gs[i - 1] && r[j] == gs[j - 1];
      } else {
        assert r[j] == gs[j - 1];
        assert r[j] in gs;
      }
    }
  }

  /** Every element of `rest`, a rearrangement of `tail` and `g`, scores no higher than `head`. */
  lemma InsertedBelow<K>(head: Group<K>, g: Group<K>, tail: seq<Group<K>>, rest: seq<Group<K>>)
    requires g.avgScore < head.avgScore
    requires forall x :: x in tail ==> x.avgScore <= head.avgScore
    requires multiset(rest) == multiset(tail) + multiset{g}
    ensures forall x :: x in rest ==> x.avgScore <= head.avgScore
  {
    forall x | x in rest
      ensures x.avgScore <= head.avgScore
    {
      assert x in multiset(rest);
      if x != g {
        assert x in multiset(tail);
      }
    }
  }

  /**
    `$sort: {avgScore: -1}`: the same groups, highest average first. Groups
    with equal averages may come in any order; nothing here depends on it.
   */
  function SortByAverage<K(==,!new)>(gs: seq<Group<K>>): (r: seq<Group<K>>)
    ensures Descending(r)
    ensures multiset(r) == multiset(gs)
  {
    if gs == [] then []
    else
      assert gs == [gs[0]] + gs[1..];
      Insert(gs[0], SortByAverage(gs[1..]))
  }

  /** `slice(0, n)`: the first `n` elements, or all of them when there are fewer. */
  function Take<T>(s: seq<T>, n: nat): (r: seq<T>)
    ensures |r| == if n < |s| then n else |s|
    ensures forall i :: 0 <= i < |r| ==> r[i] == s[i]
  {
    if n < |s| then s[..n] else s
  }

  // ------------------------------------------------------------- pipelines

  /** Match, unwind, group by `key` with the mean score, sort by that mean descending. */
  function Rank<K(==,!new)>(docs: seq<Restaurant>, p: Restaurant -> bool, key: Restaurant -> K): (r: seq<Group<K>>)
    ensures Descending(r)
    ensures multiset(r) == multiset(GroupAverage(Unwind(Match(docs, p)), key))
  {
    SortByAverage(GroupAverage(Unwind(Match(docs, p)), key))
  }

  /**
    The aggregation behind `GET /top`: highest average first, and only
    restaurants with at least five grades have a group.
   */
  function TopRanking(docs: seq<Restaurant>): (r: seq<Group<TopId>>)
    ensures Descending(r)
    ensures forall g :: g in r ==> exists d :: d in docs && 5 <= |d.grades| && TopKey(d) == g.id
  {
    RankedFromGradedDocuments(docs, Eligible, TopKey);
    Rank(docs, Eligible, TopKey)
  }

  /**
    The aggregation behind `GET /specific`; it has no minimum number of
    grades. Highest average first, and every group is in borough `b` and
    cuisine `c`.
   */
  function SpecificRanking(docs: seq<Restaurant>, b: string, c: string): (r: seq<Group<SpecificId>>)
    ensures Descending(r)
    ensures forall g :: g in r ==> g.id.borough == b && g.id.cuisine == c
  {
    RankedInPlace(docs, b, c);
    Rank(docs, PlaceFilter(b, c), SpecificKey)
  }

  lemma RankedInPlace(docs: seq<Restaurant>, b: string, c: string)
    ensures forall g :: g in Rank(docs, PlaceFilter(b, c), SpecificKey) ==> g.id.borough == b && g.id.cuisine == c
  {
    RankedFromGradedDocuments(docs, PlaceFilter(b, c), SpecificKey);
  }

  /** The answer of `GET /top` before reshaping: at most `n` ranked groups, highest average first. */
  function TopN(docs: seq<Restaurant>, n: nat): (r: seq<Group<TopId>>)
    ensures |r| <= n
    ensures Descending(r)
    ensures forall g :: g in r ==> g in TopRanking(docs)
  {
    var ranked := TopRanking(docs);
    TakeOfDescending(ranked, n);
    Take(ranked, n)
  }

  /**
    The answer of `GET /specific` before reshaping: at most `n` ranked
    groups, highest average first, all in borough `b` and cuisine `c`.
   */
  function SpecificN(docs: seq<Restaurant>, b: string, c: string, n: nat): (r: seq<Group<SpecificId>>)
    ensures |r| <= n
    ensures Descending(r)
    ensures forall i :: 0 <= i < |r| ==> r[i].id.borough == b && r[i].id.cuisine == c
  {
    var ranked := SpecificRanking(docs, b, c);
    TakeOfDescending(ranked, n);
    Take(ranked, n)
  }

  /** The first `n` of a descending list are descending and are all groups of the list. */
  lemma TakeOfDescending<K>(s: seq<Group<K>>, n: nat)
    requires Descending(s)
    ensures Descending(Take(s, n))
    ensures forall i :: 0 <= i < |Take(s, n)| ==> Take(s, n)[i] in s
  {
    var r := Take(s, n);
    forall i | 0 <= i < |r|
      ensures r[i] in s
    {
      assert r[i] == s[i];
    }
  }

  // ----------------------------------------------------- scores of a group

  /** The scores of the grades `gs`, in order. */
  function Scores(gs: seq<Grade>): (s: seq<real>)
    ensures |s| == |gs|
    ensures forall i :: 0 <= i < |gs| ==> s[i] == gs[i].score
  {
    if gs == [] then [] else [gs[0].score] + Scores(gs[1..])
  }

  /** All grade scores of the documents that pass `p` and have key `k`, document by document. */
  function DocScores<K(==,!new)>(docs: seq<Restaurant>, p: Restaurant -> bool, key: Restaurant -> K, k: K): seq<real> {
    if docs == [] then []
    else (if p(docs[0]) && key(docs[0]) == k then Scores(docs[0].grades) else []) + DocScores(docs[1..], p, key, k)
  }

  lemma {:induction false} ScoresOfAppend<K(!new)>(r1: seq<Row>, r2: seq<Row>, key: Restaurant -> K, k: K)
    ensures ScoresOf(r1 + r2, key, k) == ScoresOf(r1, key, k) + ScoresOf(r2, key, k)
  {
    if r1 == [] {
      assert r1 + r2 == r2;
    } else {
      var head := if key(r1[0].doc) == k then [r1[0].grade.score] else [];
      assert (r1 + r2)[0] == r1[0];
      assert (r1 + r2)[1..] == r1[1..] + r2;
      calc {
        ScoresOf(r1 + r2, key, k);
        head + ScoresOf(r1[1..] + r2, key, k);
        { ScoresOfAppend(r1[1..], r2, key, k); }
        head + (ScoresOf(r1[1..], key, k) + ScoresOf(r2, key, k));
        (head + ScoresOf(r1[1..], key, k)) + ScoresOf(r2, key, k);
        ScoresOf(r1, key, k) + ScoresOf(r2, key, k);
      }
    }
  }

  lemma {:induction false} ScoresOfUnwindOne<K(!new)>(d: Restaurant, gs: seq<Grade>, key: Restaurant -> K, k: K)
    ensures ScoresOf(UnwindOne(d, gs), key, k) == if key(d) == k then Scores(gs) else []
  {
    if gs != [] {
      ScoresOfUnwindOne(d, gs[1..], key, k);
    }
  }

  /** The rows of a group carry exactly the grades of the documents with that key. */
  lemma {:induction false} ScoresOfUnwind<K(!new)>(docs: seq<Restaurant>, p: Restaurant -> bool, key: Restaurant -> K, k: K)
    ensures ScoresOf(Unwind(Match(docs, p)), key, k) == DocScores(docs, p, key, k)
  {
    if docs != [] {
      var head := if p(docs[0]) then [docs[0]] else [];
      assert Match(docs, p) == head + Match(docs[1..], p);
      UnwindAppend(head, Match(docs[1..], p));
      ScoresOfAppend(Unwind(head), Unwind(Match(docs[1..], p)), key, k);
      ScoresOfUnwind(docs[1..], p, key, k);
      if p(docs[0]) {
        assert head[1..] == [];
        assert Unwind(head) == UnwindOne(docs[0], docs[0].grades);
        ScoresOfUnwindOne(docs[0], docs[0].grades, key, k);
      } else {
        assert Unwind(head) == [];
      }
    }
  }

  lemma {:induction false} UnwindAppend(a: seq<Restaurant>, b: seq<Restaurant>)
    ensures Unwind(a + b) == Unwind(a) + Unwind(b)
  {
    if a == [] {
      assert a + b == b;
    } else {
      var t := a[1..];
      assert a == [a[0]] + t;
      assert a + b == [a[0]] + (t + b);
      var h := UnwindOne(a[0], a[0].grades);
      calc {
        Unwind(a + b);
        { UnwindCons(a[0], t + b); }
        h + Unwind(t + b);
        { UnwindAppend(t, b); }
        h + (Unwind(t) + Unwind(b));
        (h + Unwind(t)) + Unwind(b);
        { UnwindCons(a[0], t); }
        Unwind(a) + Unwind(b);
      }
    }
  }

  lemma UnwindCons(d: Restaurant, rest: seq<Restaurant>)
    ensures Unwind([d] + rest) == UnwindOne(d, d.grades) + Unwind(rest)
  {
    assert ([d] + rest)[0] == d;
    assert ([d] + rest)[1..] == rest;
  }

  /** When `docs[i]` is the only document passing `p` with its key, the group's scores are its own. */
  lemma {:induction false} DocScoresOfUniqueKey<K(!new)>(docs: seq<Restaurant>, p: Restaurant -> bool, key: Restaurant -> K, i: nat)
    requires i < |docs| && p(docs[i])
    requires forall j :: 0 <= j < |docs| && j != i ==> !(p(docs[j]) && key(docs[j]) == key(docs[i]))
    ensures DocScores(docs, p, key, key(docs[i])) == Scores(docs[i].grades)
  {
    var k := key(docs[i]);
    if i == 0 {
      DocScoresNone(docs[1..], p, key, k);
    } else {
      forall j | 0 <= j < |docs[1..]| && j != i - 1
        ensures !(p(docs[1..][j]) && key(docs[1..][j]) == k)
      {
        assert docs[1..][j] == docs[j + 1];
      }
      DocScoresOfUniqueKey(docs[1..], p, key, i - 1);
      assert !(p(docs[0]) && key(docs[0]) == k);
    }
  }

  lemma {:induction false} DocScoresNone<K(!new)>(docs: seq<Restaurant>, p: Restaurant -> bool, key: Restaurant -> K, k: K)
    requires forall j :: 0 <= j < |docs| ==> !(p(docs[j]) && key(docs[j]) == k)
    ensures DocScores(docs, p, key, k) == []
  {
    if docs != [] {
      assert forall j :: 0 <= j < |docs[1..]| ==> docs[1..][j] == docs[j + 1];
      DocScoresNone(docs[1..], p, key, k);
    }
  }

  // --------------------------------------------------- the mean of a group

  lemma {:induction false} SumBounds(xs: seq<real>, lo: real, hi: real)
    requires forall i :: 0 <= i < |xs| ==> lo <= xs[i] <= hi
    ensures (|xs| as real) * lo <= Sum(xs) <= (|xs| as real) * hi
  {
    if xs != [] {
      SumBounds(xs[1..], lo, hi);
    }
  }

  /** The mean of scores lies between their least and their greatest. */
  lemma MeanBounds(xs: seq<real>, lo: real, hi: real)
    requires |xs| > 0
    requires forall i :: 0 <= i < |xs| ==> lo <= xs[i] <= hi
    ensures lo <= Mean(xs) <= hi
  {
    SumBounds(xs, lo, hi);
    var n := |xs| as real;
    var m := Mean(xs);
    assert Sum(xs) == m * n;
    if m < lo {
      ScaleStrict(m, lo, n);
    }
    if hi < m {
      ScaleStrict(hi, m, n);
    }
  }

  lemma ScaleStrict(a: real, b: real, n: real)
    requires a < b && 0.0 < n
    ensures a * n < b * n
  {
  }

  // ----------------------------------------------------------- the ranking

  /** Sorting neither adds nor drops a group: the ranked groups are the averaged groups. */
  lemma RankedIffGrouped<K(!new)>(docs: seq<Restaurant>, p: Restaurant -> bool, key: Restaurant -> K, g: Group<K>)
    ensures g in Rank(docs, p, key) <==> g in GroupAverage(Unwind(Match(docs, p)), key)
  {
    var groups := GroupAverage(Unwind(Match(docs, p)), key);
    assert multiset(Rank(docs, p, key)) == multiset(groups);
    assert g in Rank(docs, p, key) <==> g in multiset(groups);
  }

  /** Each ranked group is the key of a document that passes the filter and has at least one grade. */
  lemma RankedFromGradedDocuments<K(!new)>(docs: seq<Restaurant>, p: Restaurant -> bool, key: Restaurant -> K)
    ensures forall g :: g in Rank(docs, p, key) ==>
      exists d :: d in docs && p(d) && |d.grades| > 0 && key(d) == g.id
  {
    forall g | g in Rank(docs, p, key)
      ensures exists d :: d in docs && p(d) && |d.grades| > 0 && key(d) == g.id
    {
      RankedGroupFromGradedDocument(docs, p, key, g);
    }
  }

  lemma RankedGroupFromGradedDocument<K(!new)>(docs: seq<Restaurant>, p: Restaurant -> bool, key: Restaurant -> K, g: Group<K>)
    requires g in Rank(docs, p, key)
    ensures exists d :: d in docs && p(d) && |d.grades| > 0 && key(d) == g.id
  {
    var rows := Unwind(Match(docs, p));
    var groups := GroupAverage(rows, key);
    RankedIffGrouped(docs, p, key, g);
    var row :| row in rows && key(row.doc) == g.id;
    assert row.doc in Match(docs, p);
    assert row.grade in row.doc.grades;
  }

  /** Each document that passes the filter and has a grade is represented by a group with its key. */
  lemma GradedDocumentsRanked<K(!new)>(docs: seq<Restaurant>, p: Restaurant -> bool, key: Restaurant -> K)
    ensures forall d :: d in docs && p(d) && |d.grades| > 0 ==>
      exists g :: g in Rank(docs, p, key) && g.id == key(d)
  {
    forall d | d in docs && p(d) && |d.grades| > 0
      ensures exists g :: g in Rank(docs, p, key) && g.id == key(d)
    {
      GradedDocumentRanked(docs, p, key, d);
    }
  }

  lemma GradedDocumentRanked<K(!new)>(docs: seq<Restaurant>, p: Restaurant -> bool, key: Restaurant -> K, d: Restaurant)
    requires d in docs && p(d) && |d.grades| > 0
    ensures exists g :: g in Rank(docs, p, key) && g.id == key(d)
  {
    var rows := Unwind(Match(docs, p));
    var groups := GroupAverage(rows, key);
    assert d in Match(docs, p);
    assert Row(d, d.grades[0]) in rows;
    var j :| 0 <= j < |groups| && groups[j].id == key(d);
    RankedIffGrouped(docs, p, key, groups[j]);
  }

  /** A group's average is the mean of all grade scores of the documents that passed the filter with its key. */
  lemma RankedAverage<K(!new)>(docs: seq<Restaurant>, p: Restaurant -> bool, key: Restaurant -> K)
    ensures forall g :: g in Rank(docs, p, key) ==>
      |DocScores(docs, p, key, g.id)| > 0 && g.avgScore == Mean(DocScores(docs, p, key, g.id))
  {
    forall g | g in Rank(docs, p, key)
      ensures |DocScores(docs, p, key, g.id)| > 0 && g.avgScore == Mean(DocScores(docs, p, key, g.id))
    {
      RankedGroupAverage(docs, p, key, g);
    }
  }

  lemma RankedGroupAverage<K(!new)>(docs: seq<Restaurant>, p: Restaurant -> bool, key: Restaurant -> K, g: Group<K>)
    requires g in Rank(docs, p, key)
    ensures |DocScores(docs, p, key, g.id)| > 0 && g.avgScore == Mean(DocScores(docs, p, key, g.id))
  {
    RankedIffGrouped(docs, p, key, g);
    ScoresOfUnwind(docs, p, key, g.id);
  }

  /**
    A restaurant that no other filtered document shares a key with is ranked
    with the mean of its own grade scores.
   */
  lemma RankedAverageOfRestaurant<K(!new)>(docs: seq<Restaurant>, p: Restaurant -> bool, key: Restaurant -> K, i: nat)
    requires i < |docs| && p(docs[i]) && |docs[i].grades| > 0
    requires forall j :: 0 <= j < |docs| && j != i ==> !(p(docs[j]) && key(docs[j]) == key(docs[i]))
    ensures Group(key(docs[i]), Mean(Scores(docs[i].grades))) in Rank(docs, p, key)
  {
    GradedDocumentRanked(docs, p, key, docs[i]);
    var g :| g in Rank(docs, p, key) && g.id == key(docs[i]);
    RankedAverage(docs, p, key);
    DocScoresOfUniqueKey(docs, p, key, i);
  }

  /**
    When no two filtered documents share a key, each ranked group is one
    restaurant, ranked with the mean of its own grade scores.
   */
  lemma RankedGroupIsOneRestaurant<K(!new)>(docs: seq<Restaurant>, p: Restaurant -> bool, key: Restaurant -> K, g: Group<K>)
    requires forall j, k :: 0 <= j < |docs| && 0 <= k < |docs| && j != k && p(docs[j]) && p(docs[k]) ==>
      key(docs[j]) != key(docs[k])
    requires g in Rank(docs, p, key)
    ensures exists k ::
      0 <= k < |docs| && p(docs[k]) && |docs[k].grades| > 0 &&
      g == Group(key(docs[k]), Mean(Scores(docs[k].grades)))
  {
    RankedFromGradedDocuments(docs, p, key);
    RankedAverage(docs, p, key);
    var d :| d in docs && p(d) && |d.grades| > 0 && key(d) == g.id;
    var k :| 0 <= k < |docs| && docs[k] == d;
    DocScoresOfUniqueKey(docs, p, key, k);
  }

  /** Keeping the first `n` of a ranking keeps groups that score at least as high as every group dropped. */
  lemma {:induction false} TakeKeepsTheBest<K>(s: seq<Group<K>>, n: nat)
    requires Descending(s)
    ensures forall g, e :: g in s && g !in Take(s, n) && e in Take(s, n) ==> g.avgScore <= e.avgScore
  {
    var r := Take(s, n);
    forall g, e | g in s && g !in r && e in r
      ensures g.avgScore <= e.avgScore
    {
      var j :| 0 <= j < |s| && s[j] == g;
      var i :| 0 <= i < |r| && r[i] == e;
    }
  }

  // ------------------------------------------------------------- GET /top

  /**
    The `/top` result: `min(n, #groups)` groups, highest average first, the
    best of all groups, each the key of a restaurant with at least five
    grades and averaging the scores of every such restaurant with that key.
   */
  lemma TopNProperties(docs: seq<Restaurant>, n: nat)
    ensures |TopN(docs, n)| == if n < |TopRanking(docs)| then n else |TopRanking(docs)|
    ensures n == 0 ==> TopN(docs, n) == []
    ensures forall i, j :: 0 <= i < j < |TopN(docs, n)| ==> TopN(docs, n)[i].avgScore >= TopN(docs, n)[j].avgScore
    ensures forall g, e :: g in TopRanking(docs) && g !in TopN(docs, n) && e in TopN(docs, n) ==>
      g.avgScore <= e.avgScore
    ensures forall e :: e in TopN(docs, n) ==> exists d :: d in docs && 5 <= |d.grades| && TopKey(d) == e.id
    ensures forall e :: e in TopN(docs, n) ==>
      |DocScores(docs, Eligible, TopKey, e.id)| > 0 && e.avgScore == Mean(DocScores(docs, Eligible, TopKey, e.id))
  {
    var ranked := TopRanking(docs);
    var top := TopN(docs, n);
    assert forall e :: e in top ==> e in ranked;
    TakeKeepsTheBest(ranked, n);
    RankedFromGradedDocuments(docs, Eligible, TopKey);
    RankedAverage(docs, Eligible, TopKey);
  }

  /** An eligible restaurant whose `(restaurant_id, name)` no other eligible one has is ranked with its own mean. */
  lemma TopAverageOfRestaurant(docs: seq<Restaurant>, i: nat)
    requires i < |docs| && 5 <= |docs[i].grades|
    requires forall j :: 0 <= j < |docs| && j != i && Eligible(docs[j]) ==> TopKey(docs[j]) != TopKey(docs[i])
    ensures Group(TopId(docs[i].restaurantId, docs[i].name), Mean(Scores(docs[i].grades))) in TopRanking(docs)
  {
    forall j | 0 <= j < |docs| && j != i
      ensures !(Eligible(docs[j]) && TopKey(docs[j]) == TopKey(docs[i]))
    {
    }
    RankedAverageOfRestaurant(docs, Eligible, TopKey, i);
  }

  /** Two eligible restaurants with one name but different `restaurant_id`s are ranked as two entries. */
  lemma SameNameRankedSeparately(docs: seq<Restaurant>, d1: Restaurant, d2: Restaurant)
    requires d1 in docs && d2 in docs && 5 <= |d1.grades| && 5 <= |d2.grades|
    requires d1.name == d2.name && d1.restaurantId != d2.restaurantId
    ensures exists g1, g2 ::
      g1 in TopRanking(docs) && g2 in TopRanking(docs) && g1 != g2 &&
      g1.id == TopId(d1.restaurantId, d1.name) && g2.id == TopId(d2.restaurantId, d2.name)
  {
    GradedDocumentRanked(docs, Eligible, TopKey, d1);
    GradedDocumentRanked(docs, Eligible, TopKey, d2);
  }

  /** A `(restaurant_id, name)` none of whose restaurants has five grades never reaches `/top`. */
  lemma FewGradesNeverTop(docs: seq<Restaurant>, k: TopId)
    requires forall d :: d in docs && TopKey(d) == k ==> |d.grades| < 5
    ensures forall g :: g in TopRanking(docs) ==> g.id != k
  {
    RankedFromGradedDocuments(docs, Eligible, TopKey);
  }

  /** Five inspections, all with the same score. */
  function FiveGrades(date: string, score: real): (gs: seq<Grade>)
    ensures |gs| == 5
    ensures forall i :: 0 <= i < 5 ==> gs[i].score == score
  {
    seq(5, _ => Grade(date, "A", score))
  }

  lemma MeanOfFive(date: string, score: real)
    ensures Mean(Scores(FiveGrades(date, score))) == score
  {
    MeanBounds(Scores(FiveGrades(date, score)), score, score);
  }

  /**
    When eligible restaurants have distinct `(restaurant_id, name)` keys and
    `docs[i]` has the strictly highest mean score among them, `/top` with
    `n = 1` answers exactly that restaurant with its mean.
   */
  lemma TopOneIsHighestMean(docs: seq<Restaurant>, i: nat)
    requires i < |docs| && Eligible(docs[i])
    requires forall j, k :: 0 <= j < |docs| && 0 <= k < |docs| && j != k && Eligible(docs[j]) && Eligible(docs[k]) ==>
      TopKey(docs[j]) != TopKey(docs[k])
    requires forall j :: 0 <= j < |docs| && j != i && Eligible(docs[j]) ==>
      Mean(Scores(docs[j].grades)) < Mean(Scores(docs[i].grades))
    ensures TopN(docs, 1) == [Group(TopKey(docs[i]), Mean(Scores(docs[i].grades)))]
  {
    var ranked := Rank(docs, Eligible, TopKey);
    var best := Group(TopKey(docs[i]), Mean(Scores(docs[i].grades)));
    RankedAverageOfRestaurant(docs, Eligible, TopKey, i);
    forall g | g in ranked
      ensures g.avgScore <= best.avgScore && (g.avgScore == best.avgScore ==> g == best)
    {
      BelowTheBest(docs, i, g);
    }
    BestComesFirst(ranked, best);
  }

  /** Under the assumptions of `TopOneIsHighestMean`, no other ranked group reaches the best mean. */
  lemma BelowTheBest(docs: seq<Restaurant>, i: nat, g: Group<TopId>)
    requires i < |docs| && Eligible(docs[i])
    requires forall j, k :: 0 <= j < |docs| && 0 <= k < |docs| && j != k && Eligible(docs[j]) && Eligible(docs[k]) ==>
      TopKey(docs[j]) != TopKey(docs[k])
    requires forall j :: 0 <= j < |docs| && j != i && Eligible(docs[j]) ==>
      Mean(Scores(docs[j].grades)) < Mean(Scores(docs[i].grades))
    requires g in Rank(docs, Eligible, TopKey)
    ensures g.avgScore <= Mean(Scores(docs[i].grades))
    ensures g.avgScore == Mean(Scores(docs[i].grades)) ==> g == Group(TopKey(docs[i]), Mean(Scores(docs[i].grades)))
  {
    RankedGroupIsOneRestaurant(docs, Eligible, TopKey, g);
  }

  /** In a descending list, a group that every other group scores strictly below is the only one kept by `slice(0, 1)`. */
  lemma BestComesFirst<K>(ranked: seq<Group<K>>, best: Group<K>)
    requires Descending(ranked)
    requires best in ranked
    requires forall g :: g in ranked ==> g.avgScore <= best.avgScore && (g.avgScore == best.avgScore ==> g == best)
    ensures Take(ranked, 1) == [best]
  {
    var j :| 0 <= j < |ranked| && ranked[j] == best;
    assert ranked[0] in ranked;
    assert ranked[0].avgScore >= ranked[j].avgScore;
  }

  /** Example: of Alpha (92), Beta (88) and Gamma (95), the top 1 is Gamma with 95. */
  lemma TopOneExample(address: Address, date: string)
    ensures
      var docs := [
        Restaurant(address, "Manhattan", "American", FiveGrades(date, 92.0), "Alpha", "1"),
        Restaurant(address, "Manhattan", "American", FiveGrades(date, 88.0), "Beta", "2"),
        Restaurant(address, "Manhattan", "American", FiveGrades(date, 95.0), "Gamma", "3")];
      TopN(docs, 1) == [Group(TopId("3", "Gamma"), 95.0)]
  {
    var docs := [
      Restaurant(address, "Manhattan", "American", FiveGrades(date, 92.0), "Alpha", "1"),
      Restaurant(address, "Manhattan", "American", FiveGrades(date, 88.0), "Beta", "2"),
      Restaurant(address, "Manhattan", "American", FiveGrades(date, 95.0), "Gamma", "3")];
    MeanOfFive(date, 92.0);
    MeanOfFive(date, 88.0);
    MeanOfFive(date, 95.0);
    TopOneIsHighestMean(docs, 2);
  }

  // -------------------------------------------------------- GET /specific

  /**
    The `/specific` result: `min(n, #groups)` groups in the requested
    borough and cuisine, highest average first, the best of all groups, each
    from a restaurant there with at least one grade.
   */
  lemma SpecificNProperties(docs: seq<Restaurant>, b: string, c: string, n: nat)
    ensures |SpecificN(docs, b, c, n)| ==
      if n < |SpecificRanking(docs, b, c)| then n else |SpecificRanking(docs, b, c)|
    ensures n == 0 ==> SpecificN(docs, b, c, n) == []
    ensures forall i, j :: 0 <= i < j < |SpecificN(docs, b, c, n)| ==>
      SpecificN(docs, b, c, n)[i].avgScore >= SpecificN(docs, b, c, n)[j].avgScore
    ensures forall g, e ::
      g in SpecificRanking(docs, b, c) && g !in SpecificN(docs, b, c, n) && e in SpecificN(docs, b, c, n) ==>
      g.avgScore <= e.avgScore
    ensures forall e :: e in SpecificN(docs, b, c, n) ==> e.id.borough == b && e.id.cuisine == c
    ensures forall e :: e in SpecificN(docs, b, c, n) ==>
      exists d :: d in docs && d.borough == b && d.cuisine == c && |d.grades| > 0 && SpecificKey(d) == e.id
    ensures forall e :: e in SpecificN(docs, b, c, n) ==>
      |DocScores(docs, PlaceFilter(b, c), SpecificKey, e.id)| > 0 &&
      e.avgScore == Mean(DocScores(docs, PlaceFilter(b, c), SpecificKey, e.id))
  {
    var ranked := SpecificRanking(docs, b, c);
    var top := SpecificN(docs, b, c, n);
    assert forall e :: e in top ==> e in ranked;
    TakeKeepsTheBest(ranked, n);
    RankedFromGradedDocuments(docs, PlaceFilter(b, c), SpecificKey);
    RankedAverage(docs, PlaceFilter(b, c), SpecificKey);
  }

  /** Unlike `/top`, one grade is enough: every graded restaurant in the borough and cuisine is ranked. */
  lemma SpecificRanksEveryGradedRestaurant(docs: seq<Restaurant>, b: string, c: string, d: Restaurant)
    requires d in docs && d.borough == b && d.cuisine == c && |d.grades| > 0
    ensures exists g :: g in SpecificRanking(docs, b, c) && g.id == SpecificId(d.restaurantId, d.name, b, c)
  {
    assert PlaceFilter(b, c)(d);
    GradedDocumentRanked(docs, PlaceFilter(b, c), SpecificKey, d);
    assert SpecificKey(d) == SpecificId(d.restaurantId, d.name, b, c);
  }
}
