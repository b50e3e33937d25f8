/**
 * The records app/queue_manager.py keeps in each user's database.json and
 * what its loops over one user's queue compute, as functions on sequences.
 */
module Tasks {
  import opened Wrappers

  /**
   * A task dict, one field per key the code reads or writes; None stands for
   * an absent key. Queue entries carry the keys the submitting route sets
   * plus `id`, `error` and `progress`; completed records in the history carry
   * `type`, `url` and `file` and no `user_id`.
   */
  datatype Task = Task(
    id: Option<string>,
    userId: Option<string>,    // "user_id"
    input: Option<string>,
    mediaType: Option<string>, // "media_type"
    kind: Option<string>,      // "type"
    quality: Option<string>,
    status: Option<string>,
    progress: Option<int>,
    error: Option<string>,
    file: Option<string>,
    url: Option<string>,
    timestamp: Option<string>)

  /** An element of a `queue` or `history` array: a JSON object, or another JSON value named by its Python type. */
  datatype Entry = Dict(task: Task) | NonDict(typeName: string)

  /** One user's database.json. */
  datatype Database = Database(queue: seq<Entry>, history: seq<Entry>)

  /** What get_user_db returns for a missing, empty or unreadable file. */
  const EmptyDatabase: Database := Database([], [])

  /** The exceptions the modelled code raises; Message is `str(e)`. */
  datatype PyError =
    | AttributeError(typeName: string) // `x.get(...)` on a non-dict entry
    | KeyError(key: string)            // `task["status"]` on a dict without that key
    | ValueError(msg: string)
    | OSError(msg: string)
  {
    function Message(): string {
      match this
      case AttributeError(t) => "'" + t + "' object has no attribute 'get'"
      case KeyError(k) => "'" + k + "'"
      case ValueError(m) => m
      case OSError(m) => m
    }
  }

  /** A value returned, or the exception raised instead. */
  datatype Result<T> = Ok(value: T) | Raised(error: PyError)

  /** Python truthiness of an optional string: present and non-empty. */
  predicate Truthy(s: Option<string>) {
    s.Some? && s.value != ""
  }

  /** `isinstance(e, dict) and e.get('id') == id` */
  predicate HasId(e: Entry, id: string) {
    e.Dict? && e.task.id == Some(id)
  }

  // Task ids

  function Digit(d: nat): char
    requires d < 10
  {
    "0123456789"[d]
  }

  /** `str(n)` for a natural number. */
  function DecimalString(n: nat): (s: string)
    ensures |s| >= 1
    ensures forall k :: 0 <= k < |s| ==> '0' <= s[k] <= '9'
    ensures |s| > 1 ==> s[0] != '0'
  {
    if n < 10 then [Digit(n)] else DecimalString(n / 10) + [Digit(n % 10)]
  }

  /** `int(s)` for a string of decimal digits. */
  function ParseDecimal(s: string): nat
    requires forall k :: 0 <= k < |s| ==> '0' <= s[k] <= '9'
  {
    if s == [] then 0 else 10 * ParseDecimal(s[..|s| - 1]) + (s[|s| - 1] as int - '0' as int)
  }

  lemma {:induction false} DecimalRoundTrip(n: nat)
    ensures ParseDecimal(DecimalString(n)) == n
  {
    var s := DecimalString(n);
    if n < 10 {
      assert Digit(n) as int - '0' as int == n;
      assert s[..|s| - 1] == [];
    } else {
      var q, d := n / 10, n % 10;
      DecimalRoundTrip(q);
      assert Digit(d) as int - '0' as int == d;
      assert s == DecimalString(q) + [Digit(d)];
      assert s[..|s| - 1] == DecimalString(q);
      assert ParseDecimal(s) == 10 * q + d;
    }
  }

  /** The id add_to_queue assigns: `f"task-{int(time.time() * 1000)}"`. */
  function TaskId(millis: nat): (s: string)
    ensures |s| > 5 && s[..5] == "task-"
    ensures forall k :: 5 <= k < |s| ==> '0' <= s[k] <= '9'
  {
    "task-" + DecimalString(millis)
  }

  /**
   * Ids from different milliseconds differ, and the millisecond can be read
   * back from the id. Two enqueues in the same millisecond get the same id.
   */
  lemma TaskIdDeterminesMillis(millis: nat)
    ensures TaskId(millis)[..5] == "task-"
    ensures ParseDecimal(TaskId(millis)[5..]) == millis
    ensures forall other: nat :: TaskId(other) == TaskId(millis) ==> other == millis
  {
    DecimalRoundTrip(millis);
    assert TaskId(millis)[5..] == DecimalString(millis);
    forall other: nat | TaskId(other) == TaskId(millis) ensures other == millis {
      DecimalRoundTrip(other);
      assert TaskId(other)[5..] == DecimalString(other);
    }
  }

  // Scans over a queue

  /**
   * The loop of update_task_status and update_task_progress from index
   * `from`: the first dict entry with the id; other values are skipped.
   */
  function FirstDictIndex(q: seq<Entry>, id: string, from: nat := 0): (r: Option<nat>)
    requires from <= |q|
    ensures r.Some? ==> from <= r.value < |q| && HasId(q[r.value], id)
    ensures forall j :: from <= j < |q| && (r.None? || j < r.value) ==> !HasId(q[j], id)
    decreases |q| - from
  {
    if from == |q| then None
    else if HasId(q[from], id) then Some(from)
    else FirstDictIndex(q, id, from + 1)
  }

  /** `e.get('id') == id` stops the loop, or raises AttributeError on a non-dict. */
  predicate StopsGet(e: Entry, id: string) {
    e.NonDict? || HasId(e, id)
  }

  /**
   * The loops of get_task_status and delete_task, which call `task.get`
   * without an isinstance check: the first entry that has the id or is not
   * a dict.
   */
  function FirstGetIndex(q: seq<Entry>, id: string, from: nat := 0): (r: Option<nat>)
    requires from <= |q|
    ensures r.Some? ==> from <= r.value < |q| && StopsGet(q[r.value], id)
    ensures forall j :: from <= j < |q| && (r.None? || j < r.value) ==> !StopsGet(q[j], id)
    decreases |q| - from
  {
    if from == |q| then None
    else if StopsGet(q[from], id) then Some(from)
    else FirstGetIndex(q, id, from + 1)
  }

  /** get_task_status on one queue. */
  function TaskStatus(q: seq<Entry>, id: string): (r: Result<Option<string>>)
    ensures r.Raised? ==> r.error.AttributeError?
    ensures (forall j :: 0 <= j < |q| ==> !StopsGet(q[j], id)) ==> r == Ok(None)
  {
    match FirstGetIndex(q, id)
    case None => Ok(None)
    case Some(i) =>
      match q[i]
      case NonDict(t) => Raised(AttributeError(t))
      case Dict(task) => Ok(task.status)
  }

  /** The outcome of the scans in pause_task and resume_task. */
  datatype Scan = Hit(index: nat) | Miss | Crash(error: PyError)

  /** An entry the scan for `wanted` walks past without raising or stopping. */
  predicate PassesScan(e: Entry, id: string, wanted: string) {
    e.Dict? && (e.task.id == Some(id) ==> e.task.status.Some? && e.task.status != Some(wanted))
  }

  /**
   * `for task in queue: if task.get('id') == id: if task["status"] == wanted`:
   * the first entry with the id and status `wanted`. An entry that is not a
   * dict raises AttributeError; an entry with the id and no status raises
   * KeyError.
   */
  function StatusScan(q: seq<Entry>, id: string, wanted: string, from: nat := 0): (r: Scan)
    requires from <= |q|
    ensures r.Hit? ==> from <= r.index < |q| && HasId(q[r.index], id) && q[r.index].task.status == Some(wanted)
    ensures r.Hit? ==> forall j :: from <= j < r.index ==> PassesScan(q[j], id, wanted)
    ensures r.Miss? ==> forall j :: from <= j < |q| ==> PassesScan(q[j], id, wanted)
    ensures r.Crash? ==>
              exists j :: from <= j < |q| && (forall i :: from <= i < j ==> PassesScan(q[i], id, wanted)) &&
                          ((q[j].NonDict? && r.error == AttributeError(q[j].typeName)) ||
                           (HasId(q[j], id) && q[j].task.status.None? && r.error == KeyError("status")))
    decreases |q| - from
  {
    if from == |q| then Miss
    else match q[from]
      case NonDict(t) => Crash(AttributeError(t))
      case Dict(task) =>
        if task.id != Some(id) then StatusScan(q, id, wanted, from + 1)
        else if task.status.None? then Crash(KeyError("status"))
        else if task.status == Some(wanted) then Hit(from)
        else StatusScan(q, id, wanted, from + 1)
  }

  /** The first entry that is not a dict: where a comprehension calling `t.get` raises. */
  function FirstNonDict(q: seq<Entry>, from: nat := 0): (r: Option<nat>)
    requires from <= |q|
    ensures r.Some? ==> from <= r.value < |q| && q[r.value].NonDict?
    ensures forall j :: from <= j < |q| && (r.None? || j < r.value) ==> q[j].Dict?
    decreases |q| - from
  {
    if from == |q| then None
    else if q[from].NonDict? then Some(from)
    else FirstNonDict(q, from + 1)
  }

  /**
   * get_task_status, which stops at the first non-dict, against the scan of
   * update_task_status, which skips non-dicts: it raises exactly when a
   * non-dict comes before the first dict entry with the id, and otherwise
   * reads the status of that entry (None when there is none).
   */
  lemma TaskStatusAgainstUpdateScan(q: seq<Entry>, id: string)
    ensures TaskStatus(q, id).Raised? <==>
              FirstNonDict(q).Some? && (FirstDictIndex(q, id).None? || FirstNonDict(q).value < FirstDictIndex(q, id).value)
    ensures TaskStatus(q, id).Ok? ==>
              TaskStatus(q, id).value == (if FirstDictIndex(q, id).Some? then q[FirstDictIndex(q, id).value].task.status else None)
  {
    var g, d, n := FirstGetIndex(q, id), FirstDictIndex(q, id), FirstNonDict(q);
    if g.Some? {
      if q[g.value].Dict? {
        assert d == Some(g.value);
      } else {
        assert n == Some(g.value);
      }
    }
  }

  // Updates of one queue

  /**
   * update_task_status on one queue: only the first dict entry with the id
   * changes; its status is set, its error is set to `error` when that is
   * truthy and otherwise left as it was (never removed).
   */
  function StatusUpdated(q: seq<Entry>, id: string, status: string, error: Option<string>): (r: seq<Entry>)
    ensures |r| == |q|
    ensures forall j :: 0 <= j < |q| && FirstDictIndex(q, id) != Some(j) ==> r[j] == q[j]
    ensures FirstDictIndex(q, id).None? ==> r == q
    ensures FirstDictIndex(q, id).Some? ==>
              var i := FirstDictIndex(q, id).value;
              HasId(r[i], id) && r[i].task.status == Some(status) &&
              r[i].task.error == (if Truthy(error) then error else q[i].task.error) &&
              r[i].task.(status := q[i].task.status, error := q[i].task.error) == q[i].task
  {
    match FirstDictIndex(q, id)
    case None => q
    case Some(i) =>
      var t := q[i].task;
      q[i := Dict(t.(status := Some(status), error := if Truthy(error) then error else t.error))]
  }

  /** update_task_progress on one queue: the first dict entry with the id gets the value as given, unclamped. */
  function ProgressUpdated(q: seq<Entry>, id: string, progress: int): (r: seq<Entry>)
    ensures |r| == |q|
    ensures forall j :: 0 <= j < |q| && FirstDictIndex(q, id) != Some(j) ==> r[j] == q[j]
    ensures FirstDictIndex(q, id).None? ==> r == q
    ensures FirstDictIndex(q, id).Some? ==>
              var i := FirstDictIndex(q, id).value;
              HasId(r[i], id) && r[i].task.progress == Some(progress) &&
              r[i].task.(progress := q[i].task.progress) == q[i].task
  {
    match FirstDictIndex(q, id)
    case None => q
    case Some(i) => q[i := Dict(q[i].task.(progress := Some(progress)))]
  }

  /**
   * `[t for t in queue if isinstance(t, dict) and t.get('id') != id]`
   * (remove_from_queue); on a queue of dicts only it is also delete_task's filter.
   */
  function Purged(q: seq<Entry>, id: string): (r: seq<Entry>)
    ensures |r| <= |q|
    ensures forall e :: e in r <==> e in q && e.Dict? && !HasId(e, id)
  {
    if q == [] then []
    else (if q[0].Dict? && !HasId(q[0], id) then [q[0]] else []) + Purged(q[1..], id)
  }

  /** The filter keeps the order of what it keeps. */
  lemma {:induction false} PurgedAppend(a: seq<Entry>, b: seq<Entry>, id: string)
    ensures Purged(a + b, id) == Purged(a, id) + Purged(b, id)
  {
    if a == [] {
      assert a + b == b;
    } else {
      assert (a + b)[0] == a[0];
      assert (a + b)[1..] == a[1..] + b;
      PurgedAppend(a[1..], b, id);
    }
  }

  /** A queue of dicts none of which has the id is kept whole. */
  lemma {:induction false} PurgedKeepsOthers(q: seq<Entry>, id: string)
    requires forall j :: 0 <= j < |q| ==> q[j].Dict? && !HasId(q[j], id)
    ensures Purged(q, id) == q
  {
    if q != [] {
      PurgedKeepsOthers(q[1..], id);
      assert q == [q[0]] + q[1..];
    }
  }

  /** The queue with its i-th entry, a dict, given the status `status`; nothing else changes. */
  function WithStatus(q: seq<Entry>, i: nat, status: string): (r: seq<Entry>)
    requires i < |q| && q[i].Dict?
    ensures |r| == |q| && r[i].Dict? && r[i].task.status == Some(status)
    ensures r[i].task.(status := q[i].task.status) == q[i].task
    ensures forall j :: 0 <= j < |q| && j != i ==> r[j] == q[j]
  {
    q[i := Dict(q[i].task.(status := Some(status)))]
  }

  /** An entry set to `wanted` is found by the scan when everything before it is walked past. */
  lemma {:induction false} ScanFindsSetEntry(q: seq<Entry>, id: string, wanted: string, i: nat, from: nat)
    requires from <= i < |q| && HasId(q[i], id)
    requires forall j :: from <= j < i ==> PassesScan(q[j], id, wanted)
    ensures StatusScan(WithStatus(q, i, wanted), id, wanted, from) == Hit(i)
    decreases i - from
  {
    var p := WithStatus(q, i, wanted);
    if from < i {
      assert p[from] == q[from];
      ScanFindsSetEntry(q, id, wanted, i, from + 1);
    }
  }

  /**
   * Pausing the entry pause_task finds, in a queue where resume_task finds
   * nothing, makes resume_task find that same entry; resuming it then leaves
   * the queue as it was except for the status "queued".
   */
  lemma PauseThenResume(q: seq<Entry>, id: string, i: nat)
    requires StatusScan(q, id, "processing") == Hit(i)
    requires StatusScan(q, id, "paused") == Miss
    ensures StatusScan(WithStatus(q, i, "paused"), id, "paused") == Hit(i)
    ensures WithStatus(WithStatus(q, i, "paused"), i, "queued") == WithStatus(q, i, "queued")
  {
    ScanFindsSetEntry(q, id, "paused", i, 0);
  }
}
