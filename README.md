# Task store of go-httpmux-example, in Dafny

The service keeps its tasks in memory: a Go map from string keys to `Task`
records (an integer `ID`, a `Description`, a `Completed` flag) and an integer
counter `nextID`. Three HTTP handlers act on it. Each one touches the store
inside one critical section under a single mutex:

- startup empties the map, sets the counter to 1 and inserts a seed task
  under the key `"one"`;
- `GET /task/{id}` looks a key up and answers 200 with the task or 404;
- `POST /task/create` decodes a task from the body and answers 400 if that
  fails; otherwise it sets the task's ID to the counter, stores the task
  under the decimal form of that ID, advances the counter and answers 201;
- `DELETE /task/del/{id}` removes the key, present or not, and answers 204.

The model is the class `TaskStore.Store` with the fields `tasks` and `nextID`.
It has one method per critical section, each an atomic state transition. The
modules are:

- `GoInt`: Go's `int` as a 64-bit two's-complement integer. `Inc` is
  `nextID++`, which wraps from the largest value to the smallest. `Offset`
  gives the position of a value in the order the counter visits them.
- `Decimal`: `fmt.Sprintf("%d", n)` as `IntToDecimal`, and its inverse
  `ParseInt`. The round trip makes formatting injective.
- `TaskStore`: the `Task` and `Response` datatypes, the store invariant
  `Inv`, its lemmas, the `Store` class, and three client methods.
  `CreateThenGet` and `CreateTwice` state properties that take several calls.
  `Walkthrough` replays a session from startup.

The main result is that Create never replaces an existing entry.
`Inv` states that every entry except the seed was stored by Create. Its key is
the decimal form of its task's ID, and that ID comes before the current counter
in issue order. Decimal formatting is injective, and `"one"` is not the decimal
form of any integer. So the key Create is about to use is always free
(`NextKeyIsFresh`). `Inv` holds from startup and survives every operation,
with one exception: the 2^64-th create. By then the counter has visited every
value, and it starts over at 1.

A task's ID is a Go `int` (main.go:13), encoded as a JSON number. The seed
task has ID 1 under the key `"one"` (main.go:23), and the first created task
also gets ID 1, under `"1"` (main.go:19, 63-64). So `Inv` constrains only the
non-seed entries, and `Walkthrough` shows the shared ID.

## Model

| member | source | states |
|---|---|---|
| `GoInt.Wrap` | main.go:65 | the result is the one 64-bit value congruent to the input modulo 2^64; values in range are unchanged and MaxInt64 + 1 becomes MinInt64 |
| `GoInt.Inc` | main.go:65 | `nextID++` adds one, except that MaxInt64 wraps to MinInt64 |
| `GoInt.OffsetOfInc` | main.go:63-65 | each increment moves the counter exactly one place forward in issue order; only from 0, the last place, does it start over at 1 |
| `Decimal.NatToDecimal` | main.go:64 | the digits of a natural number: non-empty, all digits, and a leading '0' exactly when the number is 0 |
| `Decimal.ParseNatOfNatToDecimal` | main.go:64 | reading the digits of n back gives n |
| `Decimal.IntToDecimal` | main.go:64 | `%d` formatting: non-empty, starts with '-' exactly for negative numbers, digits everywhere else |
| `Decimal.ParseIntOfIntToDecimal` | main.go:64 | parsing the formatted string of any integer gives that integer back |
| `Decimal.IntToDecimalInjective` | main.go:64 | two integers with the same decimal form are equal |
| `TaskStore.SeedKeyIsNotDecimal` | main.go:23 | the seed key "one" is the decimal form of no integer, so no created task can land on it |
| `TaskStore.NextKeyIsFresh` | main.go:63-64 | under the invariant, the key Create is about to write is absent from the map |
| `TaskStore.StoredIdsDistinct` | main.go:63-64 | under the invariant, two different non-seed keys hold tasks with different IDs |
| `TaskStore.CreateKeepsInv` | main.go:63-65 | storing the payload with ID nextID under dec(nextID) and advancing the counter keeps the invariant, unless nextID is 0 (the 2^64-th create) |
| `TaskStore.Store.constructor` | main.go:18-23 | after startup the map holds exactly "one" mapped to Task{1, "The first task", false}, the counter is 1, and the invariant holds |
| `TaskStore.Store.Get` | main.go:41-48 | returns the stored task (200) when the key is present and NotFound (404) otherwise; changes nothing; a task found under a non-seed key carries the ID that key spells |
| `TaskStore.Store.Create` | main.go:55-66 | on a decode failure: 400 "Invalid task data" and the map and counter unchanged. On success: 201 with the payload's description and completed flag and the old counter as ID; the map gains exactly that task under dec(old counter); the counter is incremented. Under the invariant the key was free, the map grows by one and every old entry is kept. The invariant is preserved |
| `TaskStore.Store.Delete` | main.go:76-80 | always 204; removes exactly the given key and keeps every other entry and the counter; an absent key leaves the state unchanged, so repeating Delete is a no-op; the invariant is preserved |
| `TaskStore.CreateThenGet` | main.go:41-66 | Get on the key of a task Create returned yields that same task, even after a further Create and a Delete of a different key, from any state of the store |
| `TaskStore.CreateTwice` | main.go:63-65 | from any state whose counter is not 0, two successive creates get IDs one place apart in issue order, under distinct keys, and both stay stored |

## Left out

- HTTP routing with `ServeMux` patterns, `ListenAndServe`, and the writing of headers and response bodies (main.go:27-33, 46, 50-51, 58, 68-70, 80). These are I/O plumbing. A response is a `Response` value: a status code and the task or message it carries.
- JSON decoding of the request body and encoding of the response (main.go:51, 56, 70). These are library calls. The decode result is an input to `Create`, as an `Option<Task>`. Encode errors are ignored by the source, so there is no 500 path.
- The `sync.Mutex` (main.go:20, 41-43, 62-66, 76-78). It only serializes concurrent requests. Each critical section is one atomic method call, and interleavings are not modelled.
- Logging and printing (main.go:25, 32, 39).
- Go's `int` is taken to be 64 bits wide. On a 32-bit platform the counter, starting at 1, would wrap on its (2^31 - 1)-th increment; that width is not modelled.
