/**
 * The persistence layer the controller talks to, reduced to its contract: a map from
 * task id to task, ids handed out in increasing order, and the store's failures as a
 * tagged error instead of an exception carrying a code ("P2025" becomes `NotFound`).
 */
module TaskStore {
  import opened Wrappers

  /** A JavaScript number as `Number(...)` produces it. */
  datatype Num = NaN | Finite(value: real) | PosInfinity | NegInfinity

  /** A stored task; `dueDate` and `createdAt` are milliseconds since the epoch. */
  datatype Task = Task(id: int, title: string, description: string, status: string, dueDate: int, createdAt: int)

  /** What the controller hands to `createTask`. */
  datatype TaskCreateInput = TaskCreateInput(title: string, description: string, status: string, dueDate: int)

  /** What the controller hands to `updateTask`: the id and only the fields the client supplied. */
  datatype TaskUpdateInput = TaskUpdateInput(
    id: Num, title: Option<string>, description: Option<string>, status: Option<string>, dueDate: Option<int>)

  /**
   * The store's failures: no record with that id (Prisma's "P2025"), an argument the store
   * refuses (an id that is not an integer), or the store being unreachable.
   */
  datatype StoreError = NotFound | InvalidArgument | Unavailable(reason: string)

  datatype StoreResult<T> = Ok(value: T) | Err(error: StoreError)

  /** The stored rows, the next id the store will hand out, and whether it is down. */
  datatype Store = Store(rows: map<int, Task>, nextId: int, outage: Option<string>)

  /** Every row sits under its own id, and every id is below the next one to be handed out. */
  predicate Valid(st: Store) {
    1 <= st.nextId && forall k :: k in st.rows ==> 1 <= k < st.nextId && st.rows[k].id == k
  }

  /** The row key a number names: only a finite integral number names one. */
  function Key(n: Num): (r: Option<int>)
    ensures r.Some? ==> n == Finite(r.value as real)
    ensures r.None? ==> !n.Finite? || n.value != n.value.Floor as real
  {
    if n.Finite? && n.value == n.value.Floor as real then Some(n.value.Floor) else None
  }

  /** The rows with ids in [lo, hi), in increasing id order. */
  function Listing(rows: map<int, Task>, lo: int, hi: int): seq<Task>
    decreases hi - lo
  {
    if hi <= lo then []
    else if lo in rows then [rows[lo]] + Listing(rows, lo + 1, hi)
    else Listing(rows, lo + 1, hi)
  }

  /** Every task of `r` is the row stored under its id, and that id lies in [lo, hi). */
  predicate RowsOf(rows: map<int, Task>, r: seq<Task>, lo: int, hi: int) {
    forall i :: 0 <= i < |r| ==> lo <= r[i].id < hi && r[i].id in rows && rows[r[i].id] == r[i]
  }

  /** No two entries of `r` share an id, so no task appears twice. */
  predicate DistinctIds(r: seq<Task>) {
    forall i, j :: 0 <= i < j < |r| ==> r[i].id != r[j].id
  }

  /** Every listed task is a stored row with an id in range. */
  lemma {:induction false} ListingSound(rows: map<int, Task>, lo: int, hi: int)
    requires forall k :: k in rows ==> rows[k].id == k
    ensures RowsOf(rows, Listing(rows, lo, hi), lo, hi)
    decreases hi - lo
  {
    if lo < hi {
      ListingSound(rows, lo + 1, hi);
      var rest := Listing(rows, lo + 1, hi);
      if lo in rows {
        var r := [rows[lo]] + rest;
        assert Listing(rows, lo, hi) == r;
        forall i | 0 <= i < |r| ensures lo <= r[i].id < hi && r[i].id in rows && rows[r[i].id] == r[i] {
          if i > 0 {
            assert r[i] == rest[i - 1];
          }
        }
      }
    }
  }

  /** Every row with an id in [lo, hi) is listed. */
  lemma {:induction false} ListingComplete(rows: map<int, Task>, lo: int, hi: int)
    ensures forall k :: lo <= k < hi && k in rows ==> rows[k] in Listing(rows, lo, hi)
    decreases hi - lo
  {
    if lo < hi {
      ListingComplete(rows, lo + 1, hi);
      var rest := Listing(rows, lo + 1, hi);
      if lo in rows {
        assert Listing(rows, lo, hi) == [rows[lo]] + rest;
      }
    }
  }

  /** No task is listed twice. */
  lemma {:induction false} ListingDistinct(rows: map<int, Task>, lo: int, hi: int)
    requires forall k :: k in rows ==> rows[k].id == k
    ensures DistinctIds(Listing(rows, lo, hi))
    decreases hi - lo
  {
    if lo < hi {
      ListingSound(rows, lo + 1, hi);
      ListingDistinct(rows, lo + 1, hi);
      var rest := Listing(rows, lo + 1, hi);
      if lo in rows {
        var r := [rows[lo]] + rest;
        assert Listing(rows, lo, hi) == r;
        forall i, j | 0 <= i < j < |r| ensures r[i].id != r[j].id {
          assert r[j] == rest[j - 1];
          if i > 0 {
            assert r[i] == rest[i - 1];
          }
        }
      }
    }
  }

  /**
   * `findMany`: every stored task, each once. The query names no order; `Listing` happens to
   * list by id, and no contract relies on that.
   */
  function FindMany(st: Store): (r: StoreResult<seq<Task>>)
    requires Valid(st)
    ensures r.Ok? <==> st.outage.None?
    ensures r.Ok? ==> forall t :: t in r.value <==> t.id in st.rows && st.rows[t.id] == t
    ensures r.Ok? ==> DistinctIds(r.value)
  {
    ListingSound(st.rows, 1, st.nextId);
    ListingComplete(st.rows, 1, st.nextId);
    ListingDistinct(st.rows, 1, st.nextId);
    if st.outage.Some? then Err(Unavailable(st.outage.value)) else Ok(Listing(st.rows, 1, st.nextId))
  }

  /** `findUnique`: the task with that id, or nothing; a non-integer id is refused. */
  function FindUnique(st: Store, id: Num): (r: StoreResult<Option<Task>>)
    ensures st.outage.Some? ==> r == Err(Unavailable(st.outage.value))
    ensures st.outage.None? && Key(id).None? ==> r == Err(InvalidArgument)
    ensures st.outage.None? && Key(id).Some? ==>
      r.Ok? && (r.value.Some? <==> Key(id).value in st.rows) &&
      (r.value.Some? ==> r.value.value == st.rows[Key(id).value])
  {
    if st.outage.Some? then Err(Unavailable(st.outage.value))
    else match Key(id)
      case None => Err(InvalidArgument)
      case Some(k) => Ok(if k in st.rows then Some(st.rows[k]) else None)
  }

  /** `create`: stores the input under a fresh id with the given creation time. */
  function Create(st: Store, input: TaskCreateInput, now: int): (r: StoreResult<(Task, Store)>)
    requires Valid(st)
    ensures r.Ok? <==> st.outage.None?
    ensures r.Err? ==> r.error == Unavailable(st.outage.value)
    ensures r.Ok? ==>
      var (t, st') := r.value;
      && t.id !in st.rows && st'.rows == st.rows[t.id := t] && st'.outage == st.outage && Valid(st')
      && t.title == input.title && t.description == input.description
      && t.status == input.status && t.dueDate == input.dueDate && t.createdAt == now
  {
    if st.outage.Some? then Err(Unavailable(st.outage.value))
    else
      var t := Task(st.nextId, input.title, input.description, input.status, input.dueDate, now);
      Ok((t, Store(st.rows[t.id := t], st.nextId + 1, st.outage)))
  }

  /** The task with the supplied fields replaced and every other field kept. */
  function Patch(t: Task, input: TaskUpdateInput): (r: Task)
    ensures r.id == t.id && r.createdAt == t.createdAt
    ensures r.title == input.title.GetOr(t.title) && r.description == input.description.GetOr(t.description)
    ensures r.status == input.status.GetOr(t.status) && r.dueDate == input.dueDate.GetOr(t.dueDate)
  {
    t.(title := input.title.GetOr(t.title), description := input.description.GetOr(t.description),
       status := input.status.GetOr(t.status), dueDate := input.dueDate.GetOr(t.dueDate))
  }

  /** `update`: patches the task with that id; `NotFound` when there is none. */
  function Update(st: Store, input: TaskUpdateInput): (r: StoreResult<(Task, Store)>)
    requires Valid(st)
    ensures st.outage.Some? ==> r == Err(Unavailable(st.outage.value))
    ensures st.outage.None? && Key(input.id).None? ==> r == Err(InvalidArgument)
    ensures st.outage.None? && Key(input.id).Some? ==>
      var k := Key(input.id).value;
      && (r == Err(NotFound) <==> k !in st.rows)
      && (k in st.rows ==> r.Ok? && r.value.0 == Patch(st.rows[k], input)
                           && r.value.1 == st.(rows := st.rows[k := r.value.0]) && Valid(r.value.1))
  {
    if st.outage.Some? then Err(Unavailable(st.outage.value))
    else match Key(input.id)
      case None => Err(InvalidArgument)
      case Some(k) =>
        if k !in st.rows then Err(NotFound)
        else
          var t := Patch(st.rows[k], input);
          Ok((t, st.(rows := st.rows[k := t])))
  }

  /** `delete`: removes the task with that id and yields it; `NotFound` when there is none. */
  function Delete(st: Store, id: Num): (r: StoreResult<(Task, Store)>)
    requires Valid(st)
    ensures st.outage.Some? ==> r == Err(Unavailable(st.outage.value))
    ensures st.outage.None? && Key(id).None? ==> r == Err(InvalidArgument)
    ensures st.outage.None? && Key(id).Some? ==>
      var k := Key(id).value;
      && (r == Err(NotFound) <==> k !in st.rows)
      && (k in st.rows ==> r.Ok? && r.value.0 == st.rows[k]
                           && r.value.1 == st.(rows := st.rows - {k}) && Valid(r.value.1))
  {
    if st.outage.Some? then Err(Unavailable(st.outage.value))
    else match Key(id)
      case None => Err(InvalidArgument)
      case Some(k) =>
        if k !in st.rows then Err(NotFound)
        else Ok((st.rows[k], st.(rows := st.rows - {k})))
  }

  /** An update that supplies no field leaves the task as it was. */
  lemma EmptyPatchKeepsTask(t: Task, id: Num)
    ensures Patch(t, TaskUpdateInput(id, None, None, None, None)) == t
  {
  }

  /** Sending the same update twice leaves the store as sending it once. */
  lemma UpdateIsIdempotent(st: Store, input: TaskUpdateInput)
    requires Valid(st) && Update(st, input).Ok?
    ensures var st' := Update(st, input).value.1;
      Update(st', input).Ok? && Update(st', input).value == Update(st, input).value
  {
    var k := Key(input.id).value;
    var t := Patch(st.rows[k], input);
    PatchIsIdempotent(st.rows[k], input);
    assert st.rows[k := t][k := t] == st.rows[k := t];
  }

  /** Patching with the same fields twice is patching once. */
  lemma PatchIsIdempotent(t: Task, input: TaskUpdateInput)
    ensures Patch(Patch(t, input), input) == Patch(t, input)
  {
  }

  /** Once deleted, a task is not found any more. */
  lemma DeleteThenFindUnique(st: Store, id: Num)
    requires Valid(st) && Delete(st, id).Ok?
    ensures FindUnique(Delete(st, id).value.1, id) == Ok(None)
  {
  }
}
