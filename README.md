# meeting-be data layer, modelled in Dafny

This project models the in-memory collection logic of the meeting question
service's backend (`server.js`). The server keeps three collections, each a
JSON array in its own file: users, questions and answers. Every request
handler loads one whole array and changes or queries it. It writes the
array back only when it changed it: the GET handlers never write, and a
PUT without a matching question writes nothing. The model covers what
happens between the load and the save:

- id assignment on create: 1 for an empty collection, otherwise the last
  stored record's id plus one. This is not the largest id plus one;
- the user upsert: a shallow merge into the first user whose `id` is
  strictly equal (`===`) to the submitted one, or an append;
- the user lookup, which returns the `{userFound: false}` sentinel when no
  user matches;
- question update: a patch merged into the first question with the parsed
  id, or 404 with nothing written;
- delete by id for questions and answers: a filter that removes every match
  and always writes;
- the listing of a question's answers: a filter on `questionId`.

Files:

- `json.dfy` (module `Json`): JavaScript values and records, property
  access, `===`, object spread and `+ 1`.
- `collection.dfy` (module `Collection`): findIndex, filter and
  "merge into the first match", with their lemmas.
- `users.dfy` (module `Users`): the submitted user object, upsert and lookup.
- `board.dfy` (module `Board`): questions and answers, covering id
  assignment, create, update, delete and list-by-question.
- `server.dfy` (module `Server`): a `Store` class with one field per data
  file and one method per request handler.
- `wrappers.dfy`: the `Option` datatype.

Modelling choices:

- A record is `map<string, Value>`.
- `Value` distinguishes `Undefined` (an absent property or an unsent form
  field), `NaN`, and `Obj` (any object or array).
- Strict equality never holds for `NaN` or `Obj`. Objects compare by
  reference, and a freshly parsed value is never the same reference as a
  request value.
- `parseInt` of a path segment is an `Option<int>`. `None` becomes `NaN`,
  which matches no record.
- File reads and writes are field reads and assignments. The 500 responses
  come from an `IoFault` parameter. A failed write leaves the stored
  collection as it was.

Two behaviours of the code are worth knowing:

- A new id is the last stored record's id + 1, not the largest id + 1
  (`server.js:110`, `server.js:168`). `Board.LastElementRuleCollides` and
  `Board.PatchedIdCollides` show that this can hand out an id that is
  already taken. `Board.AscendingNextIdIsFresh` shows that this cannot
  happen while ids stay ascending. Creates and deletes keep ids ascending.
  A PUT whose patch carries an `id` can break that.
- An upsert without an uploaded file sets `image` to null, and so
  overwrites the stored path (`server.js:40`, `server.js:55`). See
  `Users.UpsertMergesFields`.

## Model

| member | source | states |
|---|---|---|
| `Json.StrictEquals` | server.js:51 | `a === b` holds exactly when the values are equal and are neither NaN nor an object/array |
| `Json.Spread` | server.js:55 | object spread `{...a, ...b}` as a right-biased map union; its properties are stated by `Json.SpreadProperties` |
| `Json.SpreadProperties` | server.js:55 | `{...a, ...b}` has the keys of both; `b`'s values win and `a`'s other values are kept |
| `Json.PlusOne` | server.js:110 | `v + 1` adds one to a number, is NaN exactly for undefined/NaN, and is a string exactly for strings and objects |
| `Collection.FindIndex` | server.js:51 | findIndex returns the first index whose property strictly equals the key, or -1 (None) exactly when no index does |
| `Collection.Filter` | server.js:151 | the filter keeps only records of the input whose match outcome is the requested one, and is no longer than the input |
| `Collection.MergeFirst` | server.js:129-131 | merging into the first match gives no result exactly when findIndex finds nothing, and otherwise keeps the length; `Collection.MergeFirstAt` pins the result down |
| `Collection.MergeFirstAt` | server.js:129-131 | merging into the first match is exactly the findIndex-then-assign update `c[i] = {...c[i], ...delta}`; no match gives no result |
| `Collection.FilterIsSubsequence` | server.js:197 | the filter result is an order-preserving subsequence of the input |
| `Collection.FilterMultiplicity` | server.js:151 | every copy of a kept record survives and no copy of a dropped record does, so a delete removes all duplicates of the id |
| `Collection.FilterKeepsAll` | server.js:151-156 | when every record survives, the filter returns the input unchanged |
| `Collection.FilterIdempotent` | server.js:197 | filtering twice by the same id equals filtering once (delete is idempotent) |
| `Collection.FilterAppend` | server.js:185 | filtering a concatenation is the concatenation of the filtered parts, in order |
| `Collection.FilterCommutes` | server.js:185 | two filters commute |
| `Users.NewUser` | server.js:36-43 | the submitted user has exactly the six keys; `image` is the upload path or null; the other five are the request body's values (any JSON value, or undefined when not sent) |
| `Users.Lookup` | server.js:80-88 | returns the first user whose id strictly equals the requested string, and the sentinel exactly when none does |
| `Users.Upserted` | server.js:51-58 | an upsert with no matching id appends the submitted user; with one it keeps the length; `Users.UpsertedAt` gives the exact result |
| `Users.UpsertedAt` | server.js:51-58 | an existing id merges into the first matching index with every other index and the length unchanged; otherwise the user is appended |
| `Users.UpsertMergesFields` | server.js:40-55 | the merge keeps the stored properties outside the six submitted keys and overrides all six; without an upload `image` becomes null |
| `Users.LookupAfterUpsertSame` | server.js:51-58 | after an upsert with id `s`, looking up `s` finds a user carrying every submitted property |
| `Users.LookupAfterUpsertOther` | server.js:51-58 | an upsert with id `s` does not change the lookup of any other id |
| `Users.NonStringIdIsNotFound` | server.js:51-88 | a user upserted with a non-string id (from a JSON body) never becomes findable by the string path id |
| `Users.UpsertTwoDistinct` | server.js:35-91 | two users with different ids upserted in turn are both retrievable, each with its own profile |
| `Board.ParsedId` | server.js:129 | `parseInt` of the path id: the number, or NaN, which matches no record of any collection |
| `Board.NextId` | server.js:110 | the next id is 1 for an empty collection, otherwise the last record's numeric id + 1 |
| `Board.Created` | server.js:109-111 | create appends exactly one record at the end, keeps every earlier record, and carries the body's properties plus the assigned id |
| `Board.Updated` | server.js:129-131 | the update gives no collection exactly when no question has the parsed id, and otherwise one of the same length; `Board.UpdatedAt` gives the exact result |
| `Board.UpdatedAt` | server.js:129-139 | update yields no collection exactly when no id matches; otherwise the first match becomes `old + patch` and every other record and the length stay |
| `Board.Deleted` | server.js:151 | the delete keeps only records whose id is not the parsed id, none of them new; with `Collection.FilterIsSubsequence` and `Collection.FilterMultiplicity` it is exactly the order-preserving subsequence of the others |
| `Board.ByQuestion` | server.js:185 | the listing holds only answers of the question, none of them new; with `Collection.FilterIsSubsequence` and `Collection.FilterMultiplicity` it is exactly the order-preserving subsequence of them |
| `Board.DeleteUnparsedIsNoOp` | server.js:151 | a non-numeric path id (NaN) deletes nothing |
| `Board.DeleteWithoutMatchIsNoOp` | server.js:151-156 | a delete whose id matches nothing leaves the collection as it was |
| `Board.ByQuestionAfterCreate` | server.js:185 | a new answer appears at the end of its question's list and in no other list |
| `Board.ByQuestionAfterDelete` | server.js:185 | after a delete, the list of a question omits exactly the deleted answers |
| `Board.CreatedKeepsNumbering` | server.js:110 | on a collection numbered 1..n, create assigns n + 1 |
| `Board.CreateAllNumbering` | server.js:110-111 | from a collection numbered 1..n, successive creates continue the numbering in order |
| `Board.CreatesFromEmptyNumberOneToN` | server.js:110-111 | N creates from an empty collection with no deletions assign ids 1..N in creation order |
| `Board.AscendingNextIdIsFresh` | server.js:110 | when ids ascend in stored order, the next id exceeds every stored id and collides with none |
| `Board.CreatedKeepsAscending` | server.js:167-169 | create keeps ids ascending |
| `Board.DeletedKeepsAscending` | server.js:197 | delete keeps ids ascending |
| `Board.UpdatedKeepsAscending` | server.js:131 | an update whose patch has no `id` keeps ids ascending |
| `Board.DeleteThenCreateExample` | server.js:110-151 | create 1, 2, 3, delete 2, then create: the ids are 1, 3, 4 |
| `Board.LastElementRuleCollides` | server.js:110 | with ids stored as 1, 3, 2 the next id is 3, which is already taken |
| `Board.PatchedIdCollides` | server.js:110-131 | create 1, 2, 3, PUT `{id: 1}` on question 3, then create: the new question gets 2, the id of question 2 |
| `Server.Store.constructor` | server.js:31-33 | at start a missing user file becomes an empty array; the question and answer files are taken as they are |
| `Server.Store.PostUser` | server.js:35-68 | on success the users become the upsert of the submitted user; a read or write failure answers 500 and changes nothing |
| `Server.Store.GetUser` | server.js:70-91 | answers the first user with the id, or the sentinel exactly when none matches, and never an error unless the read fails |
| `Server.Store.ListQuestions` | server.js:93-101 | answers every question in stored order |
| `Server.Store.PostQuestion` | server.js:103-119 | on success the questions become the create of the body; failures answer 500 and change nothing |
| `Server.Store.PutQuestion` | server.js:121-142 | no match answers 404 and changes nothing; a match stores the updated collection, or answers 500 if the write fails |
| `Server.Store.DeleteQuestion` | server.js:144-159 | stores the questions without the id and answers success, even when nothing matched |
| `Server.Store.PostAnswer` | server.js:161-177 | on success the answers become the create of the body; failures answer 500 and change nothing |
| `Server.Store.ListAnswers` | server.js:179-188 | answers an order-preserving subsequence holding every copy of each answer of the question and nothing else; the answers are not changed |
| `Server.Store.DeleteAnswer` | server.js:190-205 | stores the answers without the id and answers success, even when nothing matched |

## Left out

- Express, body-parser and CORS setup, routing and `app.listen`: HTTP plumbing. Each route is a method of `Store`.
- Multer disk storage and upload file names (built from `Date.now()` and `Math.random()`): the stored path of an upload is an `Option<string>` input of `PostUser`.
- File I/O: a load is a field read and a save is a field assignment. Read and write failures are the `IoFault` input. A partially written file is not modelled.
- `JSON.parse` and `JSON.stringify`: the collections are held as parsed values. A malformed file, which makes `JSON.parse` throw, is not modelled. The stored value keeps properties whose value is `undefined`, which `JSON.stringify` would drop from the file. A stored NaN id stays NaN where the file would hold null, so a following create gives NaN (`NaN + 1`) where the server, reading back null, gives 1 (`null + 1`).
- `parseInt`: abstracted to `Option<int>`, where None stands for NaN.
- Concurrent requests interleaving their load and save, which can lose updates: each handler is modelled as atomic.
- Numbers: JavaScript numbers are modelled as unbounded integers. Fractions, floating-point precision and large-integer rounding are not modelled.
- Arrays whose elements are not objects: every element is modelled as a record. A null element makes `x.id` throw; on a number, string, boolean or array element `x.id` is undefined and the handler carries on, which the model does not represent.
- Request bodies that are not objects: a question or answer body and a patch are modelled as records.
- `Json.PlusOne`: the string conversion of an object is an opaque part of the `Obj` value, not computed from its contents.
- Console logging and the unused `axios` import.
