/**
 * The in-memory task store of the service: a table from string keys to
 * Task records and a counter that supplies the ID of the next created
 * task. Each handler runs its store access as one critical section under
 * a single lock, so each is modelled as one atomic method call on Store.
 */
module TaskStore {

  import opened Wrappers
  import opened GoInt
  import opened Decimal

  /** A task record. Its `id` is a Go `int`, not a string. */
  datatype Task = Task(id: Int64, description: string, completed: bool)

  /** What a handler writes back: the status code and the body it carries. */
  datatype Response =
    | Ok(task: Task)
    | Created(task: Task)
    | NoContent
    | BadRequest(message: string)
    | NotFound
  {
    function Status(): nat {
      match this
      case Ok(_) => 200
      case Created(_) => 201
      case NoContent => 204
      case BadRequest(_) => 400
      case NotFound => 404
    }
  }

  /** The entry the program inserts at startup. Its key is a word, not a
      number, and its ID is 1, the same ID the first created task gets. */
  const SeedKey: string := "one"
  const SeedTask: Task := Task(1, "The first task", false)

  /** The plain-text body of the 400 response to an undecodable payload. */
  const InvalidTaskData: string := "Invalid task data"

  /** The key Create stores a task under: `fmt.Sprintf("%d", id)`. */
  function KeyOf(id: Int64): string {
    IntToDecimal(id)
  }

  /** The seed key is not the decimal form of any integer, so no created
      task can land on it. */
  lemma SeedKeyIsNotDecimal(i: int)
    ensures IntToDecimal(i) != SeedKey
  {
  }

  /** An entry that Create put in place while the counter stood at `id`,
      judged against the counter's current value: the key spells the
      task's ID and that ID comes earlier in the issue order than the
      counter does now. */
  ghost predicate Issued(key: string, t: Task, nextID: Int64) {
    key == KeyOf(t.id) && Offset(t.id) < Offset(nextID)
  }

  /** The store invariant: every entry except the seed was put there by
      Create. The seed entry itself is unconstrained (it may be gone, and
      its ID does not match its key). */
  ghost predicate Inv(tasks: map<string, Task>, nextID: Int64) {
    forall k :: k in tasks && k != SeedKey ==> Issued(k, tasks[k], nextID)
  }

  /** The key Create is about to use is free: no entry was ever stored
      under it, so Create cannot replace an existing task. */
  lemma NextKeyIsFresh(tasks: map<string, Task>, nextID: Int64)
    requires Inv(tasks, nextID)
    ensures KeyOf(nextID) !in tasks
  {
    if KeyOf(nextID) in tasks {
      SeedKeyIsNotDecimal(nextID);
      var t := tasks[KeyOf(nextID)];
      assert Issued(KeyOf(nextID), t, nextID);
      IntToDecimalInjective(nextID, t.id);
      assert false;
    }
  }

  /** Tasks stored by Create carry pairwise distinct IDs. */
  lemma StoredIdsDistinct(tasks: map<string, Task>, nextID: Int64, k1: string, k2: string)
    requires Inv(tasks, nextID)
    requires k1 in tasks && k2 in tasks && k1 != SeedKey && k2 != SeedKey
    requires k1 != k2
    ensures tasks[k1].id != tasks[k2].id
  {
  }

  /** Create keeps the invariant, except on the 2^64-th create, when the
      counter has visited every Int64 and starts over at 1. */
  lemma CreateKeepsInv(tasks: map<string, Task>, nextID: Int64, payload: Task)
    requires Inv(tasks, nextID)
    requires nextID != 0
    ensures Inv(tasks[KeyOf(nextID) := payload.(id := nextID)], Inc(nextID))
  {
  }

  class Store {
    var tasks: map<string, Task>
    var nextID: Int64

    ghost predicate Valid()
      reads this
    {
      Inv(tasks, nextID)
    }

    /** Startup: the table is made empty and the counter set to 1, then
        the seed entry is inserted under "one". */
    constructor ()
      ensures tasks == map[SeedKey := SeedTask] && nextID == 1
      ensures Valid()
    {
      tasks := map[];
      nextID := 1;
      new;
      tasks := tasks[SeedKey := SeedTask];
    }

    /** GET /task/{id}: the stored task, or NotFound. Reads only. */
    method Get(id: string) returns (r: Response)
      ensures id in tasks ==> r == Ok(tasks[id]) && r.Status() == 200
      ensures id !in tasks ==> r == NotFound && r.Status() == 404
      ensures Valid() && r.Ok? && id != SeedKey ==> id == KeyOf(r.task.id)
    {
      if id in tasks {
        r := Ok(tasks[id]);
      } else {
        r := NotFound;
      }
    }

    /** POST /task/create, given the outcome of decoding the request body.
        A payload that failed to decode changes nothing. A decoded one gets
        the current counter value as its ID, whatever ID the client sent,
        and is stored under the decimal form of that ID; then the counter
        advances. */
    method Create(payload: Option<Task>) returns (r: Response)
      modifies this
      ensures payload.None? ==>
        r == BadRequest(InvalidTaskData) && r.Status() == 400 &&
        tasks == old(tasks) && nextID == old(nextID)
      ensures payload.Some? ==>
        && r == Created(Task(old(nextID), payload.value.description, payload.value.completed))
        && r.Status() == 201
        && tasks == old(tasks)[KeyOf(old(nextID)) := r.task]
        && nextID == Inc(old(nextID))
      ensures payload.Some? && old(Valid()) ==>
        && KeyOf(old(nextID)) !in old(tasks)
        && |tasks| == |old(tasks)| + 1
        && (forall k :: k in old(tasks) ==> k in tasks && tasks[k] == old(tasks)[k])
      ensures old(Valid()) && (payload.None? || old(nextID) != 0) ==> Valid()
    {
      match payload
      case None =>
        r := BadRequest(InvalidTaskData);
      case Some(decoded) =>
        if Valid() {
          NextKeyIsFresh(tasks, nextID);
          if nextID != 0 {
            CreateKeepsInv(tasks, nextID, decoded);
          }
        }
        var task := decoded.(id := nextID);
        tasks := tasks[KeyOf(nextID) := task];
        nextID := Inc(nextID);
        r := Created(task);
    }

    /** DELETE /task/del/{id}: removes the key if present and answers 204
        either way. Deleting an absent key changes nothing, so a repeated
        Delete leaves the state it found. */
    method Delete(id: string) returns (r: Response)
      modifies this
      ensures r == NoContent && r.Status() == 204
      ensures tasks == old(tasks) - {id} && nextID == old(nextID)
      ensures id !in tasks
      ensures id !in old(tasks) ==> tasks == old(tasks)
      ensures old(Valid()) ==> Valid()
    {
      tasks := tasks - {id};
      r := NoContent;
    }
  }

  /** A created task can be read back under the key that spells its ID,
      here after an unrelated Create and a Delete of another key. */
  method CreateThenGet(s: Store, payload: Task, other: Option<Task>, victim: string)
    returns (created: Response, fetched: Response)
    requires victim != KeyOf(s.nextID)
    modifies s
    ensures created == Created(payload.(id := old(s.nextID)))
    ensures fetched == Ok(created.task)
  {
    created := s.Create(Some(payload));
    var key := KeyOf(created.task.id);
    IntToDecimalInjective(created.task.id, s.nextID);
    var _ := s.Create(other);
    var _ := s.Delete(victim);
    fetched := s.Get(key);
  }

  /** Successive creates receive successive IDs under distinct keys, and
      both tasks stay readable. */
  method CreateTwice(s: Store, first: Task, second: Task)
    returns (a: Response, b: Response)
    requires s.nextID != 0
    modifies s
    ensures a.Created? && b.Created?
    ensures a.task.id == old(s.nextID) && b.task.id == Inc(a.task.id)
    ensures Offset(b.task.id) == Offset(a.task.id) + 1
    ensures KeyOf(a.task.id) != KeyOf(b.task.id)
    ensures KeyOf(a.task.id) in s.tasks && s.tasks[KeyOf(a.task.id)] == a.task
    ensures KeyOf(b.task.id) in s.tasks && s.tasks[KeyOf(b.task.id)] == b.task
  {
    a := s.Create(Some(first));
    assert KeyOf(a.task.id) in s.tasks;
    b := s.Create(Some(second));
    OffsetOfInc(a.task.id);
    IntToDecimalInjective(a.task.id, b.task.id);
  }

  /** The service from startup: create "buy milk", read it back, delete it
      twice, and send an undecodable body. */
  method Walkthrough() {
    var s := new Store();
    var c := s.Create(Some(Task(0, "buy milk", false)));
    assert c == Created(Task(1, "buy milk", false));
    assert KeyOf(1) == "1";
    var g := s.Get("1");
    assert g == Ok(Task(1, "buy milk", false));
    var seed := s.Get(SeedKey);
    assert seed.task.id == g.task.id;
    var d := s.Delete("1");
    d := s.Delete("1");
    assert d.Status() == 204;
    g := s.Get("1");
    assert g == NotFound;
    var bad := s.Create(None);
    assert bad.Status() == 400 && s.nextID == 2 && s.tasks == map[SeedKey := SeedTask];
  }

}
