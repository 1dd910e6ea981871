# Task store of the task-manager API

This project models the in-memory task store of a small Express API
(`assign.js`): a list of task records and an id counter, the validation
middleware that guards POST and PUT, and the store logic of the five
routes: create (POST /tasks), list (GET /tasks with `status` and `sort`
query parameters), get (GET /tasks/:id), update (PUT /tasks/:id) and
delete (DELETE /tasks/:id).

Layout:

- `tasks.dfy` (module `Tasks`): the `Task` record, request `Body` and list
  `Query`, the three status values and JavaScript truthiness of a string
  field. Optional fields are `Option<string>`, so an absent field (`None`)
  and an empty one (`Some("")`, falsy) stay distinct.
- `validation.dfy` (module `Validation`): `ValidateTask`, the middleware, as
  a function from verb and body to pass or one of its two 400 answers.
- `listing.dfy` (module `Listing`): the pure part of the list route: the
  status filter and a stable sort by creation time, with their properties.
- `store.dfy` (module `Store`): class `TaskStore` with the fields `tasks`
  and `nextId` (`nextTaskId`) and a ghost set `issued` of every id ever
  handed out. Its invariant `Valid()` says that ids are strictly increasing
  in store order, lie in `1 .. nextId - 1`, and that titles and descriptions
  are non-empty. The handlers `CreateHandler` and `UpdateHandler` are
  separate methods from the routes `PostTask` and `PutTask`, which first run
  the middleware; `GetTask`, `ListTasks` and `DeleteTask` have no middleware.
- `scenarios.dfy` (module `Scenarios`): request sequences against a fresh
  store whose answers follow from the route contracts alone.

Three behaviours of the code a reader might not expect:

- A POST body with `status: ""` passes validation, because `""` is falsy,
  and the default `'pending'` applies only to an absent field, so the task
  is stored with the empty status. The store invariant is therefore "one of
  the three values or empty", not "one of the three values".
- Every PUT goes through `validateTask`, which requires a non-empty title
  and description. A PUT whose body holds only a status answers 400
  (`Scenarios.PutNeedsTitleAndDescription`); it never updates only the
  status. Validation also runs before the lookup, so a PUT with a bad body
  to a missing id answers 400, not 404.
- The PUT handler writes title and description before it checks the
  status. Behind the middleware that check cannot fail, so `PutTask` changes
  nothing on a 400; the handler alone does not have that property
  (`Scenarios.UpdateHandlerAloneIsNotAtomic`).

The environment's inputs are parameters: the creation time is a `nat` of
milliseconds given to `PostTask`, and the path parameter is an
`Option<int>` (`None` for a value that `parseInt` turns into NaN, which
equals no id).

## Model

| member | source | states |
|---|---|---|
| Validation.ValidateTask | assign.js:19-39 | Only POST and PUT are checked; a write passes exactly when title and description are present and non-empty and the status is absent, empty or one of `pending`, `in-progress`, `completed`; the answer is "missing fields" exactly when a title or description is absent or empty, and "invalid status" when both are given and a truthy status is not one of the three; whatever passes keeps the store invariant |
| Listing.FilterByStatus | assign.js:68-70 | The result holds exactly the tasks of the given status, each as often as the input, and is a subsequence of the input (insertion order kept) |
| Listing.FilterUnique | assign.js:68-70 | Those properties determine the filter: any subsequence of the store with exactly the tasks of that status is the filter's result |
| Listing.FilterKeepsIdOrder | assign.js:66-70 | Filtering a store whose ids increase in order gives a list whose ids increase |
| Listing.Insert | assign.js:72-76 | One insertion step of the sort adds exactly the inserted task (multiset) |
| Listing.InsertOrdered | assign.js:72-76 | An insertion step keeps a list ordered by creation time in the chosen direction |
| Listing.SortByCreated | assign.js:71-76 | The sorted list is a permutation of the input, non-decreasing in `createdAt` for `asc` and non-increasing for `desc` |
| Listing.InsertStable | assign.js:72-76 | Inserting a task places it before every task created at the same time |
| Listing.SortStable | assign.js:72-76 | Tasks created at the same time keep their relative order, as the comparator returns 0 for them and the sort is stable |
| Store.FindIndex | assign.js:140 | The index of the first task with the id, or -1 exactly when no task has it; an unparsable id matches nothing (the same test serves `find` at assign.js:91 and assign.js:110) |
| Store.RemoveKeepsIdOrder | assign.js:146 | Splicing one task out keeps the ids of the rest in increasing order |
| Store.RemoveDropsId | assign.js:140-146 | Splicing out the first task with an id from a store with unique ids leaves no task with that id, and the rest well formed |
| Store.TaskStore.constructor | assign.js:7-8 | The store starts empty with the counter at 1 and no id issued |
| Store.TaskStore.Overwrite | assign.js:117-125 | Replaces only the element at `i` with a task of the same id and creation time; the other tasks, the counter and the issued ids are unchanged and the store invariant is kept |
| Store.TaskStore.CreateHandler | assign.js:44-52 | Appends one task at the end with id `nextId`, the given title, description and creation time, status `pending` when absent and otherwise verbatim; the counter grows by one; the new id was never issued before and exceeds every stored id |
| Store.TaskStore.PostTask | assign.js:42-52 | Answers 400 exactly when validation fails, and then store, counter and issued ids are unchanged; otherwise 201 with the created task as above |
| Store.TaskStore.ListTasks | assign.js:66-77 | Never changes the store; with a truthy status exactly the tasks of that status, otherwise all, each as often as stored; without `asc`/`desc` exactly the filtered list, a subsequence in insertion order (the whole store when there is no filter); with `asc`/`desc` ordered by `createdAt`, stable for equal times |
| Store.TaskStore.GetTask | assign.js:91-96 | Not found exactly when no task has the id and otherwise the stored task with that id, which is unique |
| Store.TaskStore.UpdateHandler | assign.js:110-126 | Not found with no change when no task has the id; otherwise only the found task changes: title and description overwritten when truthy, status when truthy and valid, id and creation time kept; a truthy invalid status answers 400 after title and description were written |
| Store.TaskStore.PutTask | assign.js:108-126 | Answers 400 exactly when validation fails, with the store unchanged; 404 exactly when validation passes and no task has the id; otherwise the found task gets the new title and description, and the new status if truthy, and nothing else changes |
| Store.TaskStore.DeleteTask | assign.js:140-146 | Not found with no change when no task has the id; otherwise removes exactly the first task with it, keeping the order of the rest; afterwards no task has that id, and issued ids and counter are unchanged so the id is not reused |

## Left out

- Express setup, JSON body parsing, route wiring and `app.listen`/`PORT`: framework plumbing with no store logic.
- The request logger: console output and the wall clock.
- The `try`/`catch` 500 answers and the global error handler: nothing in the model throws.
- ISO date strings: `createdAt` is a millisecond `nat` given by the caller, so `new Date().toISOString()` and the `new Date(...)` parsing in the comparator are not modelled.
- `parseInt` of the path parameter: the id arrives as `Option<int>`; prefix parsing such as `"1abc"` giving 1 is not modelled.
- Body and query values that are not strings (numbers, arrays, objects) and their truthiness.
- Response message texts and the JSON envelope: a `Response` datatype and `StatusCode` stand for them.
- Object identity: JavaScript task objects are updated in place; the model replaces the task's element of `tasks`, which is the same as long as no other reference to the object survives a request (responses are serialised at once).
- Number precision: ids and the counter are unbounded integers. In JavaScript `nextTaskId` is a double, which stops growing at 2^53 (2^53 + 1 rounds to 2^53), after which created tasks would repeat an id; the model's "never reused" holds only below that bound.
