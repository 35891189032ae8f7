# Restaurant inspection service — a Dafny model

The service keeps a `restaurants` collection of documents. Each document has an address, a borough, a cuisine, a name, a `restaurant_id` and a list of inspection grades. Each grade has a date, a letter and a numeric score. Three routes of its router hold logic:

- `PUT /inspect` checks a `{restaurant_name, grade, score}` body. It then finds the restaurants with that name and puts a new grade in front of the first one's grades. The date of the new grade is the current time. Finally it saves that document and answers with it. When no restaurant has the name, the answer is a 500 naming it.
- `GET /top` checks `{n}`. It then runs an aggregation with four steps:
  - keep the restaurants that have at least five grades;
  - unwind the grades;
  - group the grades by `(restaurant_id, name)` and average the scores;
  - sort by that average, highest first.
  The route keeps the first `n` groups and answers them as `{name, avgScore}` entries.
- `GET /specific` checks `{n, b, c}`. It runs the same aggregation, with two differences:
  - the filter keeps the restaurants of borough `b` and cuisine `c`;
  - the group key also holds the borough and the cuisine.
  It keeps the first `n` groups and answers them as three aligned arrays of names, boroughs and cuisines.

The model has four modules, one per file:

- `Records` (`records.dfy`): the document as the schema defines it, the find-by-name query, and the grade `unshift`.
- `Requests` (`requests.dfy`): a JSON body field is `Undefined`, a string, a number or something else. This module holds the three validation chains, where the first failing check decides the answer, and the exact 400 messages.
- `Pipeline` (`pipeline.dfy`): the aggregation stages as functions over sequences. They are generic in the filter and the group key.
  - Both rankings are one `Rank` function, instantiated twice.
  - Grouping yields the distinct keys with the exact mean of their scores.
  - Sorting is an insertion sort. It is proved descending and a permutation of its input.
  - The lemmas relate the rankings back to the documents:
    - every ranked group comes from a graded document that passed the filter, and every such document has a group;
    - a group's average is the mean of all grade scores of the documents with its key;
    - the first `n` are the best `n`;
    - `/top` with `n = 1` over distinct keys answers the restaurant with the strictly highest mean.
- `Handlers` (`handlers.dfy`): `RestaurantStore`, a class whose `docs` array is the collection. Its three methods are the routes. The two `forEach` reshapes are loops with invariants.

Numbers are `real`: finite, and computed exactly. A JSON number literal too large for a double parses to an infinity; such values are not represented (see "## Left out"). Averages are exact means.

Three details of the routes worth knowing:

- A missing restaurant gets status 500, not 404.
- `n` passes when it is a number, `Math.floor(n) === n` and `n >= 0`.
- The borough message is spelled "b (bourough) must be a string".

## Model

| member | source | states |
|---|---|---|
| Records.Unshift | routes/restaurants.js:38-42 | the new grade is first, the old grades follow in order, every other field is kept |
| Records.UnshiftExample | routes/restaurants.js:38-42 | a diner graded A 90 then B 70 reads C 50, A 90, B 70 after a C 50 inspection |
| Records.FindByName | routes/restaurants.js:32 | the result is exactly the positions of the documents with that name, in increasing store order |
| Records.FirstMatchIsEarliest | routes/restaurants.js:32-38 | the document that gets the grade is the earliest one in store order with the requested name |
| Records.FindByNameEmpty | routes/restaurants.js:32-33 | the query is empty if and only if no document has the name |
| Requests.Message | routes/restaurants.js:19-99 | every rejection carries a non-empty message; the nine texts are the source's own |
| Requests.MessagesDistinct | routes/restaurants.js:19-99 | two rejections share a message if and only if they are the same rejection |
| Requests.GradeAccepted | routes/restaurants.js:24 | the capital-letter and length test admits exactly the strings of one character in A-Z; numbers never pass |
| Requests.GradeExamples | routes/restaurants.js:24 | "A" and "Z" pass; "ab", "AB", "a", "1", "" and a number are rejected |
| Requests.ValidateInspect | routes/restaurants.js:18-29 | for each of the four rejections, the body gets it if and only if every earlier check passed and that check fails; a valid body yields its name, grade and score |
| Requests.ScoreExample | routes/restaurants.js:24-28 | a text score is rejected only after the grade passed; a bad grade is reported first |
| Requests.CountOf | routes/restaurants.js:57 | an accepted `n` is the natural number equal to the body's number |
| Requests.NaturalIsCount | routes/restaurants.js:57 | every natural number passes the count test and yields itself, so with `CountOf` the test admits exactly the natural numbers |
| Requests.ValidateTop | routes/restaurants.js:54-59 | missing `n` and non-natural `n` are reported in that order, each if and only if it applies; otherwise `n` is accepted with its value |
| Requests.CountExamples | routes/restaurants.js:57-58 | 2.5, -1, "5" are rejected as non-natural, a missing `n` as missing, and 0 and 3 are accepted |
| Requests.ValidateSpecific | routes/restaurants.js:89-100 | the four rejections are reported in source order, each if and only if it is the first that applies; a valid body yields `n`, `b` and `c` |
| Requests.CountRuleShared | routes/restaurants.js:92 | `/specific` accepts exactly the `n` that `/top` accepts (line 57), with the same value |
| Pipeline.TopKeyIdentifies | routes/restaurants.js:65 | two documents share a `/top` group key if and only if they share `restaurant_id` and `name` |
| Pipeline.SpecificKeyIdentifies | routes/restaurants.js:106-111 | two documents share a `/specific` group key if and only if they share the `/top` key, the borough and the cuisine |
| Pipeline.Match | routes/restaurants.js:63 | a document is kept if and only if it is in the collection and passes the filter |
| Pipeline.UnwindOne | routes/restaurants.js:64 | row `i` pairs the document with grade `i`, one row per grade, in grade order |
| Pipeline.Unwind | routes/restaurants.js:64 | a row exists if and only if it pairs a document of the input with one of that document's grades |
| Pipeline.ScoresOf | routes/restaurants.js:65 | a key has scores if and only if some row has that key |
| Pipeline.GroupIds | routes/restaurants.js:65 | the group ids are distinct and are exactly the keys occurring among the rows |
| Pipeline.GroupAverage | routes/restaurants.js:65 | distinct ids; every group has a row and every row a group; each average is the mean of its rows' scores |
| Pipeline.SortByAverage | routes/restaurants.js:66 | the result is descending by average and a permutation of its input |
| Pipeline.Take | routes/restaurants.js:69 | the result has `min(n, length)` elements and is a prefix of the input |
| Pipeline.Rank | routes/restaurants.js:62-67 | the ranking is descending by average and holds exactly the groups the grouping stage produced |
| Pipeline.TopRanking | routes/restaurants.js:62-67 | the `/top` ranking is descending and each group is the key of a restaurant with at least five grades |
| Pipeline.SpecificRanking | routes/restaurants.js:103-114 | the `/specific` ranking is descending and each group is in borough `b` and cuisine `c` |
| Pipeline.TopN | routes/restaurants.js:69 | at most `n` groups, descending, each a group of the `/top` ranking |
| Pipeline.SpecificN | routes/restaurants.js:103-115 | at most `n` groups, descending, each in borough `b` and cuisine `c` at every position |
| Pipeline.TakeOfDescending | routes/restaurants.js:69 | the first `n` of a descending ranking are descending and all come from it |
| Pipeline.ScoresOfUnwind | routes/restaurants.js:63-65 | the rows of a group carry exactly the grade scores of the filtered documents with that key |
| Pipeline.MeanBounds | routes/restaurants.js:65 | an average lies between the least and the greatest score of its group |
| Pipeline.RankedIffGrouped | routes/restaurants.js:66 | a group is ranked if and only if grouping produced it |
| Pipeline.RankedFromGradedDocuments | routes/restaurants.js:62-67 | every ranked group is the key of a document that passed the filter and has a grade |
| Pipeline.GradedDocumentsRanked | routes/restaurants.js:62-67 | every document that passed the filter and has a grade is represented by a group with its key |
| Pipeline.RankedAverage | routes/restaurants.js:62-67 | each ranked average is the mean of all grade scores of the filtered documents sharing the group's key |
| Pipeline.RankedAverageOfRestaurant | routes/restaurants.js:62-67 | a filtered restaurant whose key no other filtered document has is ranked with the mean of its own scores |
| Pipeline.RankedGroupIsOneRestaurant | routes/restaurants.js:62-67 | with keys distinct among filtered documents, each ranked group is one restaurant with its own mean |
| Pipeline.TakeKeepsTheBest | routes/restaurants.js:69 | no dropped group scores higher than a kept one |
| Pipeline.TopNProperties | routes/restaurants.js:62-69 | `/top` keeps `min(n, groups)` groups, descending, the best ones, each from a restaurant with at least five grades and averaging all its key's scores |
| Pipeline.TopAverageOfRestaurant | routes/restaurants.js:63-65 | a restaurant with five grades and a unique `(restaurant_id, name)` is ranked with its own mean |
| Pipeline.SameNameRankedSeparately | routes/restaurants.js:65 | two eligible restaurants with one name and different ids appear as two distinct groups |
| Pipeline.FewGradesNeverTop | routes/restaurants.js:63 | a key none of whose restaurants has five grades is never ranked |
| Pipeline.TopOneIsHighestMean | routes/restaurants.js:62-69 | with distinct keys, `n = 1` answers exactly the restaurant with the strictly highest mean, with that mean |
| Pipeline.TopOneExample | routes/restaurants.js:62-69 | of Alpha 92, Beta 88 and Gamma 95, `/top` with `n = 1` is Gamma with 95 |
| Pipeline.SpecificNProperties | routes/restaurants.js:103-115 | `/specific` keeps `min(n, groups)` groups, descending, the best ones, all in borough `b` and cuisine `c`, each from a graded restaurant there and averaging all its key's scores |
| Pipeline.SpecificRanksEveryGradedRestaurant | routes/restaurants.js:104-105 | every restaurant of that borough and cuisine with at least one grade is ranked |
| Handlers.NotFoundMessage | routes/restaurants.js:35 | the message quotes the requested name at a fixed place |
| Handlers.FormatTop | routes/restaurants.js:71-77 | entry `i` carries the name and the average of ranked group `i`, and there is one entry per group |
| Handlers.FormatSpecific | routes/restaurants.js:118-125 | the three arrays have one entry per group, aligned by index |
| Handlers.RestaurantStore.Inspect | routes/restaurants.js:17-51 | an invalid body gets its 400 message and changes nothing; an unknown name gets the 500 message and changes nothing; otherwise only the first match is replaced by its unshifted version, which is returned |
| Handlers.RestaurantStore.Top | routes/restaurants.js:53-84 | an invalid body gets its 400 message; otherwise the entries are the first `n` ranked groups' names and averages, at most `n`, averages never increasing |
| Handlers.RestaurantStore.Specific | routes/restaurants.js:88-133 | an invalid body gets its 400 message; otherwise the arrays list the first `n` ranked groups, every borough is `b`, every cuisine is `c`, averages never increasing |

## Left out

- HTTP plumbing is not modelled: Express routing, JSON body parsing, `console.log`, and the server and database connection in `index.js`.
- `GET /` is not modelled. It returns the whole collection and holds no logic.
- Store and connection failures are not modelled. In the source, any exception becomes a 500 with its message. The model has only the not-found 500.
- The clock is a parameter: the `date` of a new grade is the string `now` passed to `Inspect`.
- Floating point is not modelled. Scores and averages are exact reals, so rounding in `$avg` is not represented.
- Scores are always numbers here. The schema declares `grades` as an untyped array, and `$avg` would skip a non-numeric score.
- Requests.ValidateInspect: rejects every grade that is not a string. In JavaScript, any value whose `length` is 1 and whose text holds a capital letter passes the grade test: a one-element array such as `["A"]`, or an object such as `{"length": 1}`, whose text is "[object Object]". Arrays and objects are not represented.
- Requests.ValidateInspect: a score literal too large for a double, such as `1e400`, parses to an infinity and passes the number test, storing an infinite score. Infinite numbers are not represented.
- Requests.ValidateTop: an `n` of `1e400` parses to an infinity, passes the count test and makes `slice` keep every group. Infinite numbers are not represented.
- Requests.ValidateSpecific: the same infinite `n` passes its count test and keeps every group. Infinite numbers are not represented.
- Pipeline.SortByAverage: does not fix the order of groups with equal averages. The store leaves that order open, and the model promises only descending order and a permutation.
- Pipeline.GroupIds: the order of groups before sorting is one fixed choice. The store leaves it open, and only the sorted result is used.
- Handlers.RestaurantStore.Inspect: `save` of the re-wrapped document is modelled as replacing the first match in place. Mongoose identity handling and the document `_id` are not represented.
- Concurrent grade appends are not modelled. The source allows a lost update, and each method here runs alone.
- String lengths count characters, not the UTF-16 code units JavaScript counts. The only length check is in the grade test, which demands a capital letter, so it is unaffected.
