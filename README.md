# Task service and task page: a Dafny model

This project models the list of tasks of a small two-tier application. It covers
the Flask service in `project-1-microservices-k8s/backend/app.py` and the React
page in `project-1-microservices-k8s/frontend/src/App.js`.

The service keeps tasks in a relational table. It caches the whole task list
under the Redis key `tasks:all` for 60 seconds:

- a read returns the cached snapshot, or lists the table and caches the listing;
- every write commits to the table and then deletes the key.

`/health` probes the database and the cache separately. Only the database
decides the status code.

The page keeps its own copy of the list. After each successful request it edits
that copy in place of reloading it.

Modules:

- `Wrappers`: `Option`, standing for `None`/`null`.
- `Timestamps`: the `created_at` value as a naive `datetime`. It covers the text
  `datetime.isoformat()` writes for it, a parser that reads that text back, and
  the order `ORDER BY created_at DESC` uses. That order puts later stamps first
  and null stamps before all others, as the database sorts nulls as larger than
  every value.
- `Tasks`: the table row (`Row`) and the dictionary the service builds from it
  (`TaskJson`: `created_at` is ISO text or null), the row-to-dict comprehension
  (`Serialize`) and its inverse (`Deserialize`), and what an answer to the
  listing query may be (`IsListing`). `IsListing` means every row once, nothing
  else, in descending `created_at` order; rows with equal stamps may come in any
  order, since the query does not fix one.
- `Backend`: the health verdict, and the class `TaskService`. Its fields are the
  table (`store`, by id), the id sequence (`nextId`) and the entry under
  `tasks:all` (`cache`). Every route is a method of this class. The predicate
  `Coherent` says that the cache is empty or holds exactly the serialization of a
  listing of the current table. `Serve` runs any sequence of requests and TTL
  expiries and keeps `Coherent`, unless a write commits and then fails to delete
  the key.
- `Frontend`: the class `App`, holding `tasks`, `loading`, `error` and `health`,
  with one method per handler. The list edits the handlers make are functions:
  `Toggled` for the `map` and `WithoutId` for the `filter`.
- `EndToEnd`: the page against the service. It gives the status fields the page
  shows for each outcome of the two probes. It also proves that the page's
  edits after a successful add, toggle or delete leave it showing the
  serialization of a listing of the table after the same write.

Whether a call to the store or the cache succeeds is a boolean parameter of each
operation. The store's current time, which the `created_at` default
(`DEFAULT CURRENT_TIMESTAMP`) gives every insert, is a parameter too. What an
awaited request gives a page handler is a `Reply`: the reply's data, or the
error thrown with its message.

Three behaviours of the code that are easy to miss:

- A failing cache read (`r.get`) or cache write (`r.setex`) in `get_tasks` raises
  into the handler's `except`. The request ends in 500; it is not treated as a
  miss.
- A failing key deletion after a committed create, update or delete also ends
  in 500. The write stays committed and the old snapshot stays in the cache
  until its TTL runs out. `LostInvalidationRun` shows this: the update is
  answered with 500, and the next listing still shows that task as not done.
- `create_task` does not check the title itself, not even that it is non-empty.
  The insert fails when:
  - the title is missing (`NOT NULL`);
  - the title holds a NUL character, which the database driver refuses;
  - the title is longer than 255 characters with something other than spaces
    past the 255th (`VARCHAR(255)`);
  - the `SERIAL` id sequence has passed 2147483647.
  A longer title whose excess is all spaces is stored cut to 255 characters.
  The 201 reply still echoes the title as sent (`TitleRulesRun`).

## Model

| member | source | states |
|---|---|---|
| `Timestamps.IsoRoundTrip` | project-1-microservices-k8s/backend/app.py:89 | the ISO text written for a valid `created_at` reads back to the same timestamp |
| `Timestamps.IsoFormat` | project-1-microservices-k8s/backend/app.py:89 | `isoformat()` writes 19 characters, or 26 when the microsecond is not zero |
| `Timestamps.PadValue` | project-1-microservices-k8s/backend/app.py:89 | a zero-padded field of the ISO text denotes the number written into it |
| `Tasks.RowRoundTrip` | project-1-microservices-k8s/backend/app.py:85-90 | the dictionary built from a row reads back to the same row, field by field, a null `created_at` included |
| `Tasks.Serialize` | project-1-microservices-k8s/backend/app.py:85-90 | the comprehension yields one dictionary per row, in the rows' order |
| `Tasks.SnapshotRoundTrip` | project-1-microservices-k8s/backend/app.py:85-93 | the cached snapshot deserializes to exactly the rows it was made from |
| `Tasks.Query` | project-1-microservices-k8s/backend/app.py:80-81 | the store's answer to the ordered `SELECT` lists every row once and nothing else, later `created_at` first, nulls first |
| `Tasks.ListingSize` | project-1-microservices-k8s/backend/app.py:80-81 | a listing has exactly as many rows as the table |
| `Tasks.ListingOfEmpty` | project-1-microservices-k8s/backend/app.py:80-81 | an empty table lists as the empty list |
| `Tasks.ListingOfOne` | project-1-microservices-k8s/backend/app.py:80-81 | a table of one row lists as that row alone |
| `Tasks.Insert` | project-1-microservices-k8s/backend/app.py:80 | placing a row into an ordered list adds exactly that row |
| `Tasks.InsertOrdered` | project-1-microservices-k8s/backend/app.py:80 | placing a row keeps the list in descending `created_at` order |
| `Backend.Health` | project-1-microservices-k8s/backend/app.py:42-64 | code 200 and "healthy" iff the database probe succeeded, else 500 and "unhealthy"; `database` and `cache` are each "connected" iff their probe succeeded, else "error" |
| `Backend.HealthIgnoresCache` | project-1-microservices-k8s/backend/app.py:60-64 | the cache probe never changes the code, the status or the database field |
| `Backend.SetCompleted` | project-1-microservices-k8s/backend/app.py:141-142 | the `UPDATE` changes only `completed` of the row with that id; an absent id leaves the table as it is |
| `Backend.TaskService.constructor` | project-1-microservices-k8s/backend/app.py:197-202 | the service starts with an empty table, ids from 1 and no snapshot, which is coherent |
| `Backend.TaskService.GetTasks` | project-1-microservices-k8s/backend/app.py:66-99 | a hit returns the snapshot and changes nothing, whatever the store's state; a miss returns the serialized listing of the table and caches exactly that for 60 seconds; each failing call gives 500 and leaves the cache as it was; coherence is kept, and a coherent cache makes every 200 reply a listing of the current table |
| `Backend.ColumnValue` | project-1-microservices-k8s/backend/app.py:199 | the column keeps a prefix of the title, all of it when it fits, else 255 characters, and only spaces are dropped |
| `Backend.InsertError` | project-1-microservices-k8s/backend/app.py:107-110 | a refused insert is never blamed on the cache, and each cause is reported exactly when it applies and no earlier one does, in the order: store down, NUL in the title, title too long with non-space excess, id sequence past its maximum, no title |
| `Backend.TaskService.CreateTask` | project-1-microservices-k8s/backend/app.py:101-131 | a refused insert gives 500 with its cause and changes nothing; an accepted one adds exactly one row, under a fresh id, with the title as the column keeps it, `completed` false and the current time as its stamp, then deletes the snapshot and answers 201 with that row's dictionary carrying the title as sent; 201 comes exactly when the insert is accepted and the deletion succeeds, and its `created_at` is never null; coherence is kept unless the deletion fails |
| `Backend.TaskService.UpdateTask` | project-1-microservices-k8s/backend/app.py:133-155 | the table becomes `SetCompleted` of the old one, then the snapshot is deleted and the reply echoes id and value whether or not a row matched; a store failure changes nothing |
| `Backend.TaskService.DeleteTask` | project-1-microservices-k8s/backend/app.py:157-175 | only the row with that id is removed, then the snapshot is deleted; the reply is 200 "Task deleted" whether or not a row matched |
| `Backend.TaskService.ClearCache` | project-1-microservices-k8s/backend/app.py:182-189 | the snapshot is deleted and the table untouched; a failing cache gives 500 and changes nothing |
| `Backend.TaskService.Expire` | project-1-microservices-k8s/backend/app.py:93 | the snapshot's TTL running out empties the cache, which is coherent |
| `Backend.TaskService.Handle` | project-1-microservices-k8s/backend/app.py:66-189 | every request gets a reply and a TTL expiry none; coherence is kept unless a write commits and its key deletion fails |
| `Backend.TaskService.Serve` | project-1-microservices-k8s/backend/app.py:66-175 | one reply slot per event; in any sequence of requests and expiries with no failed deletion after a commit, a coherent cache stays coherent |
| `Backend.BuyMilkRun` | project-1-microservices-k8s/backend/app.py:101-175 | create "buy milk" gives 201 with id 1; listing gives it alone; the update gives 200 {1, true}; delete gives 200 "Task deleted"; listing again gives [] |
| `Backend.TitleRulesRun` | project-1-microservices-k8s/backend/app.py:104-128 | "buy milk" and 250 spaces is stored as its first 255 characters and echoed whole in the 201 reply; a title holding NUL gives 500 and uses no id |
| `Backend.LostInvalidationRun` | project-1-microservices-k8s/backend/app.py:143-155 | an update committed while the cache is down is answered 500, and the next listing is the stale snapshot |
| `Frontend.App.constructor` | project-1-microservices-k8s/frontend/src/App.js:13-16 | no tasks, loading, no error, all three status fields "checking" |
| `Frontend.HealthShown` | project-1-microservices-k8s/frontend/src/App.js:28-34 | on a reply `api` is "connected" and `db`/`cache` are "connected" iff the reply's field is "connected", else "error"; on a thrown error all three are "error" |
| `Frontend.App.CheckHealth` | project-1-microservices-k8s/frontend/src/App.js:25-37 | the status fields become `HealthShown` of the outcome; a thrown error also sets the message "Cannot connect to backend API" |
| `Frontend.App.LoadTasks` | project-1-microservices-k8s/frontend/src/App.js:39-49 | `loading` ends false on both paths; a reply replaces the tasks; an error keeps them and sets the message |
| `Frontend.App.AddTask` | project-1-microservices-k8s/frontend/src/App.js:51-58 | the returned task becomes the first, the old tasks follow in order; on error the tasks are unchanged and only the message is set |
| `Frontend.Toggled` | project-1-microservices-k8s/frontend/src/App.js:63-65 | same length and order; every task with the id gets the new `completed`, everything else is unchanged |
| `Frontend.ToggledIdempotent` | project-1-microservices-k8s/frontend/src/App.js:63-65 | toggling twice to the same value is toggling once |
| `Frontend.App.ToggleTask` | project-1-microservices-k8s/frontend/src/App.js:60-69 | on success the tasks become `Toggled`; on error they are unchanged and only the message is set |
| `Frontend.WithoutId` | project-1-microservices-k8s/frontend/src/App.js:74 | a task stays iff it was there and its id differs |
| `Frontend.WithoutIdConcat` | project-1-microservices-k8s/frontend/src/App.js:74 | the filter keeps relative order: it distributes over concatenation |
| `Frontend.WithoutAbsentId` | project-1-microservices-k8s/frontend/src/App.js:74 | a list without the id is left as it is |
| `Frontend.WithoutIdIdempotent` | project-1-microservices-k8s/frontend/src/App.js:74 | filtering twice is filtering once |
| `Frontend.App.DeleteTask` | project-1-microservices-k8s/frontend/src/App.js:71-78 | on success the tasks become `WithoutId`; on error they are unchanged and only the message is set |
| `Frontend.App.ShowError` | project-1-microservices-k8s/frontend/src/App.js:80-81 | the banner shows the message |
| `EndToEnd.HealthSeenByPage` | project-1-microservices-k8s/frontend/src/App.js:27-35 | against the service, the page shows `db` "connected" iff the database probe succeeded, never `api` "connected" with `db` "error", and `cache` "connected" only when both probes succeeded |
| `EndToEnd.AddMatchesStore` | project-1-microservices-k8s/frontend/src/App.js:53-54 | prepending the created task to a listing of the table lists the table with the new row, when the new stamp may precede every stamp in the table |
| `EndToEnd.ToggleMatchesStore` | project-1-microservices-k8s/frontend/src/App.js:62-65 | `Toggled` of a listing of the table lists the table after the same `UPDATE` |
| `EndToEnd.DeleteMatchesStore` | project-1-microservices-k8s/frontend/src/App.js:73-74 | `WithoutId` of a listing of the table lists the table after the same `DELETE` |

## Left out

- HTTP, JSON and Flask plumbing (`jsonify`, request parsing, CORS) and the `/` banner: only status codes and payload shapes are kept. The JSON text of the snapshot is not modelled: the cache holds the list of dictionaries that `json.dumps`/`json.loads` carry.
- Database and Redis client calls, connection settings and their environment defaults: they are the abstract `store` and `cache` fields, and each call's success is a parameter.
- The text of error messages (`str(e)`): a failure is labelled by its kind.
- The request body is reduced to its `title` field (a string or absent) and its `completed` field (a boolean). A non-string title and a missing or null `completed`, which the store would write as NULL, are not modelled. A missing body behaves like a missing title: both end in 500 before anything changes.
- Id sequence values used up by inserts the store refuses are not modelled. New ids are still fresh and increasing.
- Wall-clock TTL expiry: it is the explicit `TtlExpiry` event. The 60 seconds are recorded with the snapshot.
- Concurrency: requests run one at a time. The race in which a listing's cache write lands after a concurrent write's key deletion is not modelled. The same goes for the page's handlers closing over a stale `tasks` while several requests are in flight.
- Prometheus counters and `/metrics`: a side-effect sink.
- Table creation at startup: the constructor starts from an empty table.
- React rendering, the HTTP client (apart from its rule that a status outside 200-299 is thrown, used in `EndToEnd.HealthOutcome`), `setInterval`, and the five-second `setTimeout` that clears the error banner.
- The presentational components (status cards, task list and item, form, header, error banner), including the form's non-empty-title check.
- `Backend.TaskService.Serve`: an insert refused only because the id sequence is exhausted counts as losing its invalidation. Requests do not carry the sequence, so the coherence promise leaves such runs out although they keep the cache coherent.
- `Backend.InsertError`: when several causes apply, the reported one follows a single fixed order (store down, NUL, too long, sequence, no title). The NUL check comes first because the driver makes it before sending. The length cast comes before the sequence draw and `NOT NULL` is checked on the finished row; this order is a reading of the database's behaviour. Only the cause is modelled, not the message.
- `EndToEnd.AddMatchesStore`: states the match for the created row's dictionary. The reply the page prepends carries the title as sent, so it equals that dictionary unless the title was cut to 255 characters.
- `EndToEnd.AddMatchesStore`: weaker than an unconditional match. The page always puts the new task first, but the table sorts null stamps first, and the store's clock is a parameter. The lemma therefore assumes that the new stamp may precede every stamp in the table.
