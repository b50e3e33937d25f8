/**
 * One iteration of the `worker` loop of app/queue_manager.py, as a function
 * of the dequeued task, the owner's database and what the collaborators
 * return, together with what it guarantees about the owner's queue and history.
 */
module Worker {
  import opened Wrappers
  import opened Tasks
  import opened Downloads
  import Config

  /**
   * One call of progress_callback: `d['status']`, `d.get('total_bytes')`,
   * `d.get('total_bytes_estimate')`, and the integer the floating-point
   * expression `int((downloaded / total) * 100)` evaluates to.
   */
  datatype ProgressEvent = ProgressEvent(status: string, totalBytes: Option<int>, totalEstimate: Option<int>, percent: int)

  /** What download_media did: the progress hooks it invoked, then the name it returned (None when it failed). */
  datatype DownloadRun = DownloadRun(events: seq<ProgressEvent>, result: Option<string>)

  /** What the collaborators the worker calls return. */
  datatype Oracles = Oracles(
    search: string -> Option<string>,                        // search_youtube(query)
    scan: Result<seq<UserDir>>,                              // the folders find_existing_file lists, or what os.listdir raised
    copyError: Option<string>,                               // str(e) of what copy_file_to_user raised, if it did
    download: (string, bool, string, string) -> DownloadRun, // download_media(url, is_audio, quality, user_id, ...)
    now: string)                                             // datetime.now().isoformat()

  /** An input the worker takes as the URL itself instead of searching for it. */
  predicate IsDirectUrl(input: string) {
    IsPrefix("http://", input) || IsPrefix("https://", input) ||
    Contains(input, "youtube.com") || Contains(input, "youtu.be")
  }

  /** `task.get('media_type', 'audio') == 'audio'` */
  predicate IsAudio(t: Task)
    ensures t.mediaType.None? ==> IsAudio(t)
    ensures IsAudio(t) <==> t.mediaType.None? || t.mediaType == Some("audio")
  {
    t.mediaType.GetOr("audio") == "audio"
  }

  function AllowedQualities(isAudio: bool): seq<string> {
    if isAudio then Config.AudioQualities else Config.VideoQualities
  }

  /**
   * The quality passed to the dedup scan and the download: the requested one
   * when the media type's list has it, otherwise the configured default.
   */
  function SelectQuality(isAudio: bool, quality: string): (q: string)
    ensures q in AllowedQualities(isAudio)
    ensures q == quality <==> quality in AllowedQualities(isAudio)
    ensures quality !in AllowedQualities(isAudio) ==>
              q == (if isAudio then Config.DefaultAudioQuality else Config.DefaultVideoQuality)
  {
    if isAudio then
      (if quality in Config.AudioQualities then quality else Config.DefaultAudioQuality)
    else
      (if quality in Config.VideoQualities then quality else Config.DefaultVideoQuality)
  }

  /**
   * progress_callback's guard: status 'downloading' and a positive total,
   * the total being `total_bytes`, or the estimate when that is missing or 0.
   */
  predicate Reports(e: ProgressEvent)
    ensures Reports(e) ==> e.status == "downloading"
    ensures e.totalBytes.GetOr(0) < 0 ==> !Reports(e)
    ensures e.totalBytes.GetOr(0) > 0 ==> (Reports(e) <==> e.status == "downloading")
    ensures e.totalBytes.GetOr(0) == 0 ==> (Reports(e) <==> e.status == "downloading" && e.totalEstimate.GetOr(0) > 0)
  {
    var total := if e.totalBytes.GetOr(0) != 0 then e.totalBytes.GetOr(0) else e.totalEstimate.GetOr(0);
    e.status == "downloading" && total > 0
  }

  /** update_task_status(user_id, task_id, status) */
  function Marked(db: Database, id: string, status: string): Database {
    db.(queue := StatusUpdated(db.queue, id, status, None))
  }

  /** update_task_status(user_id, task_id, "failed", str(e)) in the except clause. */
  function Failed(db: Database, id: string, msg: string): Database {
    db.(queue := StatusUpdated(db.queue, id, "failed", Some(msg)))
  }

  /** update_task_progress(user_id, task_id, progress) */
  function Progressed(db: Database, id: string, progress: int): Database {
    db.(queue := ProgressUpdated(db.queue, id, progress))
  }

  /** The database after progress_callback has seen `events`, in order. */
  function Callbacks(db: Database, id: string, events: seq<ProgressEvent>): (r: Database)
    ensures r.history == db.history
  {
    if events == [] then db
    else
      var before := Callbacks(db, id, events[..|events| - 1]);
      var e := events[|events| - 1];
      if Reports(e) then Progressed(before, id, e.percent) else before
  }

  /** The percentage of the last event that passes the guard, if any. */
  function LastReported(events: seq<ProgressEvent>): Option<int> {
    if events == [] then None
    else if Reports(events[|events| - 1]) then Some(events[|events| - 1].percent)
    else LastReported(events[..|events| - 1])
  }

  /** The record the worker appends to the history on success. */
  function CompletedRecord(id: string, input: string, url: string, file: string, isAudio: bool, quality: string, now: string): (r: Task)
    ensures r.status == Some("completed") && r.userId.None? && Truthy(r.kind) && Truthy(r.quality)
    ensures r.quality == Some(quality) <==> quality != ""
    ensures quality == "" ==> r.quality == Some("default")
  {
    Task(id := Some(id), userId := None, input := Some(input), mediaType := None,
         kind := Some(if isAudio then "audio" else "video"),
         quality := Some(if quality == "" then "default" else quality),
         status := Some("completed"), progress := None, error := None,
         file := Some(file), url := Some(url), timestamp := Some(now))
  }

  predicate HasIds(t: Task) {
    Truthy(t.userId) && Truthy(t.id)
  }

  /** The URL the worker fetches: the input itself, or the first search result. */
  function Resolve(input: string, o: Oracles): (r: Option<string>)
    ensures IsDirectUrl(input) ==> r == Some(input)
    ensures !IsDirectUrl(input) ==> r == o.search(input)
  {
    if IsDirectUrl(input) then Some(input) else o.search(input)
  }

  /**
   * One iteration of `worker` for the dequeued task t, given its owner's
   * database. None when the iteration writes nothing: the task has no
   * user_id or id, or its entry is "paused" at pickup. Otherwise the
   * database it leaves behind.
   */
  function WorkerRun(db: Database, t: Task, o: Oracles): (r: Option<Database>)
    ensures r.None? <==> !HasIds(t) || TaskStatus(db.queue, t.id.value) == Ok(Some("paused"))
  {
    if !HasIds(t) then None
    else
      var id := t.id.value;
      match TaskStatus(db.queue, id)
      case Raised(e) => Some(Failed(db, id, e.Message()))
      case Ok(status) =>
        if status == Some("paused") then None
        else Some(Process(Marked(db, id, "processing"), t, o))
  }

  /** The body of the `try` after the task is marked "processing". */
  function Process(db: Database, t: Task, o: Oracles): (r: Database)
    requires HasIds(t)
    ensures |db.history| <= |r.history| <= |db.history| + 1 && r.history[..|db.history|] == db.history
  {
    var id := t.id.value;
    var input := t.input.GetOr("");
    if input == "" then Failed(db, id, "Task missing input")
    else
      var found := Resolve(input, o);
      if !Truthy(found) then Failed(db, id, "No search results found")
      else Fetch(db, t, found.value, o)
  }

  /** From the dedup scan on, once the URL is known: copy an existing file or download, then finish. */
  function Fetch(db: Database, t: Task, url: string, o: Oracles): (r: Database)
    requires HasIds(t)
    ensures |db.history| <= |r.history| <= |db.history| + 1 && r.history[..|db.history|] == db.history
  {
    var user, id := t.userId.value, t.id.value;
    var input := t.input.GetOr("");
    var isAudio := IsAudio(t);
    var quality := t.quality.GetOr("");
    match o.scan
    case Raised(e) => Failed(db, id, e.Message())
    case Ok(dirs) =>
      match FirstExisting(dirs, url)
      case Some(path) =>
        if o.copyError.Some? then Failed(db, id, o.copyError.value)
        else Finish(Progressed(db, id, 100), id, input, url, Some(CopyFileToUser(user, path)), isAudio, quality, o.now)
      case None =>
        var run := o.download(url, isAudio, SelectQuality(isAudio, quality), user);
        Finish(Progressed(Callbacks(db, id, run.events), id, 100), id, input, url, run.result, isAudio, quality, o.now)
  }

  /** From `if not filename` on: fail, or append the completed record and drop the task from the queue. */
  function Finish(db: Database, id: string, input: string, url: string, filename: Option<string>,
                  isAudio: bool, quality: string, now: string): (r: Database)
    ensures r.history == db.history <==> !Truthy(filename)
    ensures |db.history| <= |r.history| <= |db.history| + 1 && r.history[..|db.history|] == db.history
  {
    if !Truthy(filename) then Failed(db, id, "Download failed")
    else Database(Purged(db.queue, id), db.history + [Dict(CompletedRecord(id, input, url, filename.value, isAudio, quality, now))])
  }

  // What an iteration leads to

  /**
   * How the `try` body ends once the task is marked "processing": it
   * completes with the URL it fetched and the file name it got, or something
   * raises, with the message the except clause records.
   */
  datatype Attempt = Done(url: string, file: string) | Fails(msg: string)

  /**
   * The outcome of the `try` body from the task and the collaborators alone,
   * without any database: each `raise` of the body and each exception a
   * collaborator raises, in the order the body meets them.
   */
  function Attempted(t: Task, o: Oracles): (r: Attempt)
    requires HasIds(t)
    ensures r.Done? ==> r.file != "" && t.input.GetOr("") != "" && Resolve(t.input.GetOr(""), o) == Some(r.url)
  {
    var input := t.input.GetOr("");
    if input == "" then Fails("Task missing input")
    else
      var found := Resolve(input, o);
      if !Truthy(found) then Fails("No search results found")
      else FetchAttempt(t, found.value, o)
  }

  /** The same from the dedup scan on, once the URL is known. */
  function FetchAttempt(t: Task, url: string, o: Oracles): (r: Attempt)
    requires HasIds(t)
    ensures r.Done? ==> r.url == url && r.file != ""
  {
    var isAudio := IsAudio(t);
    match o.scan
    case Raised(e) => Fails(e.Message())
    case Ok(dirs) =>
      match FirstExisting(dirs, url)
      case Some(path) =>
        if o.copyError.Some? then Fails(o.copyError.value)
        else Named(url, Some(CopyFileToUser(t.userId.value, path)))
      case None =>
        Named(url, o.download(url, isAudio, SelectQuality(isAudio, t.quality.GetOr("")), t.userId.value).result)
  }

  /** `if not filename: raise Exception("Download failed")` */
  function Named(url: string, filename: Option<string>): Attempt {
    if Truthy(filename) then Done(url, filename.value) else Fails("Download failed")
  }

  /** b is a with at most its status, progress and error changed: the only keys the worker writes in a queue entry. */
  predicate KeepsSubmitted(a: Task, b: Task) {
    b == a.(status := b.status, progress := b.progress, error := b.error)
  }

  /**
   * q2 differs from q1 at most in the first dict entry with the id, which
   * may change only its status, progress and error.
   */
  predicate Touched(q1: seq<Entry>, q2: seq<Entry>, id: string) {
    && |q2| == |q1|
    && (forall j :: 0 <= j < |q1| && FirstDictIndex(q1, id) != Some(j) ==> q2[j] == q1[j])
    && (FirstDictIndex(q1, id).Some? ==>
          HasId(q2[FirstDictIndex(q1, id).value], id) &&
          KeepsSubmitted(q1[FirstDictIndex(q1, id).value].task, q2[FirstDictIndex(q1, id).value].task))
  }

  /** Touched, and the touched entry still has its error: what the worker does before anything fails. */
  predicate Advanced(q1: seq<Entry>, q2: seq<Entry>, id: string) {
    && Touched(q1, q2, id)
    && (FirstDictIndex(q1, id).Some? ==>
          q2[FirstDictIndex(q1, id).value].task.error == q1[FirstDictIndex(q1, id).value].task.error)
  }

  /**
   * A completed iteration: every entry with the id, and every non-dict
   * entry, is gone from the queue, and the history gains exactly the
   * completed record of the task for this URL and file.
   */
  predicate CompletedRun(db: Database, after: Database, t: Task, o: Oracles, url: string, file: string)
    requires HasIds(t)
  {
    && after.queue == Purged(db.queue, t.id.value)
    && after.history == db.history +
         [Dict(CompletedRecord(t.id.value, t.input.GetOr(""), url, file, IsAudio(t), t.quality.GetOr(""), o.now))]
  }

  /**
   * A failed iteration: the history is untouched; in the queue only the
   * first dict entry with the id changed, and it is now "failed" with the
   * message as its error (an empty message leaves the error it had).
   */
  predicate FailedRun(db: Database, after: Database, id: string, msg: string) {
    && after.history == db.history
    && Touched(db.queue, after.queue, id)
    && (FirstDictIndex(db.queue, id).Some? ==>
          var i := FirstDictIndex(db.queue, id).value;
          && after.queue[i].task.status == Some("failed")
          && after.queue[i].task.error == (if msg != "" then Some(msg) else db.queue[i].task.error))
  }

  /** How an iteration that reached the `try` body ends, given that body's outcome. */
  predicate Ended(db: Database, after: Database, t: Task, o: Oracles, a: Attempt)
    requires HasIds(t)
  {
    match a
    case Done(url, file) => CompletedRun(db, after, t, o, url, file)
    case Fails(msg) => FailedRun(db, after, t.id.value, msg)
  }

  /** The first dict entry with the id stays first after it is touched. */
  lemma TouchedKeepsFirst(q1: seq<Entry>, q2: seq<Entry>, id: string)
    requires Touched(q1, q2, id)
    ensures FirstDictIndex(q2, id) == FirstDictIndex(q1, id)
  {
    var r1, r2 := FirstDictIndex(q1, id), FirstDictIndex(q2, id);
    if r1.None? {
      assert forall j :: 0 <= j < |q2| ==> q2[j] == q1[j];
    }
  }

  lemma TouchedTrans(q1: seq<Entry>, q2: seq<Entry>, q3: seq<Entry>, id: string)
    requires Touched(q1, q2, id) && Touched(q2, q3, id)
    ensures Touched(q1, q3, id)
  {
    TouchedKeepsFirst(q1, q2, id);
  }

  lemma AdvancedTrans(q1: seq<Entry>, q2: seq<Entry>, q3: seq<Entry>, id: string)
    requires Advanced(q1, q2, id) && Advanced(q2, q3, id)
    ensures Advanced(q1, q3, id)
  {
    TouchedKeepsFirst(q1, q2, id);
  }

  /** Progress reports change only the task's own entry, and there only its progress. */
  lemma {:induction false} CallbacksAdvance(db: Database, id: string, events: seq<ProgressEvent>)
    ensures Callbacks(db, id, events).history == db.history
    ensures Advanced(db.queue, Callbacks(db, id, events).queue, id)
    ensures FirstDictIndex(db.queue, id).Some? ==>
              var i, c := FirstDictIndex(db.queue, id).value, Callbacks(db, id, events).queue;
              c[i].task == db.queue[i].task.(progress := c[i].task.progress)
  {
    if events != [] {
      var before := Callbacks(db, id, events[..|events| - 1]);
      CallbacksAdvance(db, id, events[..|events| - 1]);
      var e := events[|events| - 1];
      if Reports(e) {
        AdvancedTrans(db.queue, before.queue, ProgressUpdated(before.queue, id, e.percent), id);
      }
    }
  }

  /**
   * An input taken as a URL is fetched verbatim: whatever the search would
   * return plays no part in the outcome.
   */
  lemma DirectUrlSkipsSearch(t: Task, o: Oracles, search: string -> Option<string>)
    requires HasIds(t) && IsDirectUrl(t.input.GetOr(""))
    ensures Attempted(t, o.(search := search)) == Attempted(t, o)
    ensures Attempted(t, o).Done? ==> Attempted(t, o).url == t.input.value
  {
    assert t.input.GetOr("") != "" by {
      assert !IsPrefix("http://", "") && !IsPrefix("https://", "");
    }
    assert Resolve(t.input.GetOr(""), o.(search := search)) == Resolve(t.input.GetOr(""), o);
  }

  /**
   * The task's entry ends with the percentage of the last report that passed
   * the guard, unclamped; with no such report it keeps its progress.
   */
  lemma {:induction false} CallbacksLastReportWins(db: Database, id: string, events: seq<ProgressEvent>, i: nat)
    requires FirstDictIndex(db.queue, id) == Some(i)
    ensures var c := Callbacks(db, id, events).queue;
            |c| == |db.queue| && HasId(c[i], id) &&
            c[i].task.progress == if LastReported(events).Some? then LastReported(events) else db.queue[i].task.progress
  {
    CallbacksAdvance(db, id, events);
    if events != [] {
      var prefix := events[..|events| - 1];
      var before := Callbacks(db, id, prefix);
      CallbacksLastReportWins(db, id, prefix, i);
      CallbacksAdvance(db, id, prefix);
      TouchedKeepsFirst(db.queue, before.queue, id);
    }
  }

  /** Entries that agree up to changes of entries with the id are filtered alike. */
  lemma {:induction false} PurgedIgnoresTaskEntries(q1: seq<Entry>, q2: seq<Entry>, id: string)
    requires |q1| == |q2|
    requires forall j :: 0 <= j < |q1| ==> q1[j] == q2[j] || (HasId(q1[j], id) && HasId(q2[j], id))
    ensures Purged(q1, id) == Purged(q2, id)
  {
    if q1 != [] {
      PurgedIgnoresTaskEntries(q1[1..], q2[1..], id);
    }
  }

  lemma TouchedPurged(q1: seq<Entry>, q2: seq<Entry>, id: string)
    requires Touched(q1, q2, id)
    ensures Purged(q2, id) == Purged(q1, id)
  {
    PurgedIgnoresTaskEntries(q1, q2, id);
  }

  lemma FailedAfterAdvance(db: Database, x: Database, id: string, msg: string)
    requires x.history == db.history && Advanced(db.queue, x.queue, id)
    ensures FailedRun(db, Failed(x, id, msg), id, msg)
  {
    TouchedKeepsFirst(db.queue, x.queue, id);
    TouchedTrans(db.queue, x.queue, Failed(x, id, msg).queue, id);
  }

  /**
   * `if not filename` and what follows: a non-empty name completes the run
   * with that file; otherwise it fails with "Download failed".
   */
  lemma FinishOutcome(db0: Database, x: Database, t: Task, o: Oracles, url: string, filename: Option<string>)
    requires HasIds(t)
    requires x.history == db0.history && Advanced(db0.queue, x.queue, t.id.value)
    ensures Truthy(filename) ==>
              CompletedRun(db0, Finish(x, t.id.value, t.input.GetOr(""), url, filename, IsAudio(t), t.quality.GetOr(""), o.now),
                           t, o, url, filename.value)
    ensures !Truthy(filename) ==>
              FailedRun(db0, Finish(x, t.id.value, t.input.GetOr(""), url, filename, IsAudio(t), t.quality.GetOr(""), o.now),
                        t.id.value, "Download failed")
  {
    var id := t.id.value;
    if !Truthy(filename) {
      FailedAfterAdvance(db0, x, id, "Download failed");
    } else {
      TouchedPurged(db0.queue, x.queue, id);
    }
  }

  /** What Fetch leaves is what FetchAttempt says, from any database that differs from db0 only in the task's progress and status. */
  lemma FetchOutcome(db0: Database, db: Database, t: Task, o: Oracles, url: string)
    requires HasIds(t)
    requires db.history == db0.history && Advanced(db0.queue, db.queue, t.id.value)
    ensures Ended(db0, Fetch(db, t, url, o), t, o, FetchAttempt(t, url, o))
  {
    var user, id := t.userId.value, t.id.value;
    var isAudio := IsAudio(t);
    match o.scan
    case Raised(e) =>
      FailedAfterAdvance(db0, db, id, e.Message());
    case Ok(dirs) =>
      match FirstExisting(dirs, url)
      case Some(path) =>
        if o.copyError.Some? {
          FailedAfterAdvance(db0, db, id, o.copyError.value);
        } else {
          var x := Progressed(db, id, 100);
          AdvancedTrans(db0.queue, db.queue, x.queue, id);
          FinishOutcome(db0, x, t, o, url, Some(CopyFileToUser(user, path)));
        }
      case None =>
        var run := o.download(url, isAudio, SelectQuality(isAudio, t.quality.GetOr("")), user);
        var c := Callbacks(db, id, run.events);
        CallbacksAdvance(db, id, run.events);
        var x := Progressed(c, id, 100);
        AdvancedTrans(db0.queue, db.queue, c.queue, id);
        AdvancedTrans(db0.queue, c.queue, x.queue, id);
        FinishOutcome(db0, x, t, o, url, run.result);
  }

  /** What Process leaves is what Attempted says, from any database that differs from db0 only in the task's progress and status. */
  lemma ProcessOutcome(db0: Database, db: Database, t: Task, o: Oracles)
    requires HasIds(t)
    requires db.history == db0.history && Advanced(db0.queue, db.queue, t.id.value)
    ensures Ended(db0, Process(db, t, o), t, o, Attempted(t, o))
  {
    var id := t.id.value;
    var input := t.input.GetOr("");
    var found := Resolve(input, o);
    if input == "" || !Truthy(found) {
      FailedAfterAdvance(db0, db, id, if input == "" then "Task missing input" else "No search results found");
    } else {
      FetchOutcome(db0, db, t, o, found.value);
    }
  }

  /**
   * What an iteration that writes leaves: when get_task_status raises, the
   * run fails with that exception's message; otherwise it ends as the `try`
   * body's outcome says.
   */
  predicate Outcome(db: Database, after: Database, t: Task, o: Oracles)
    requires HasIds(t)
  {
    match TaskStatus(db.queue, t.id.value)
    case Raised(e) => FailedRun(db, after, t.id.value, e.Message())
    case Ok(_) => Ended(db, after, t, o, Attempted(t, o))
  }

  /**
   * Every iteration writes nothing exactly when the task has no user_id or
   * id or its entry is "paused" at pickup; otherwise it ends as Outcome
   * says, and the history grows exactly when the status read succeeded and
   * the `try` body completed.
   */
  lemma WorkerOutcome(db: Database, t: Task, o: Oracles)
    ensures WorkerRun(db, t, o).None? <==>
              !HasIds(t) || TaskStatus(db.queue, t.id.value) == Ok(Some("paused"))
    ensures WorkerRun(db, t, o).Some? ==> HasIds(t) && Outcome(db, WorkerRun(db, t, o).value, t, o)
    ensures WorkerRun(db, t, o).Some? ==>
              HasIds(t) &&
              (WorkerRun(db, t, o).value.history != db.history <==>
                 TaskStatus(db.queue, t.id.value).Ok? && Attempted(t, o).Done?)
  {
    if HasIds(t) {
      var id := t.id.value;
      match TaskStatus(db.queue, id)
      case Raised(e) =>
        FailedAfterAdvance(db, db, id, e.Message());
      case Ok(status) =>
        if status != Some("paused") {
          ProcessOutcome(db, Marked(db, id, "processing"), t, o);
          var after := WorkerRun(db, t, o).value;
          if Attempted(t, o).Done? {
            assert |after.history| == |db.history| + 1;
          }
        }
    }
  }

  predicate NoCompletedInQueue(q: seq<Entry>) {
    forall j :: 0 <= j < |q| ==> !(q[j].Dict? && q[j].task.status == Some("completed"))
  }

  lemma FailedKeepsCompletedOut(db: Database, after: Database, id: string, msg: string)
    requires NoCompletedInQueue(db.queue) && FailedRun(db, after, id, msg)
    ensures NoCompletedInQueue(after.queue)
  {
    var q := after.queue;
    forall j | 0 <= j < |q| ensures !(q[j].Dict? && q[j].task.status == Some("completed")) {
      if FirstDictIndex(db.queue, id) != Some(j) {
        assert q[j] == db.queue[j];
      }
    }
  }

  /** The worker never leaves a "completed" entry in the queue: completed records go only to the history. */
  lemma WorkerKeepsCompletedOutOfQueue(db: Database, t: Task, o: Oracles)
    requires NoCompletedInQueue(db.queue)
    requires WorkerRun(db, t, o).Some?
    ensures NoCompletedInQueue(WorkerRun(db, t, o).value.queue)
  {
    WorkerOutcome(db, t, o);
    var after := WorkerRun(db, t, o).value;
    var id := t.id.value;
    match TaskStatus(db.queue, id)
    case Raised(e) =>
      FailedKeepsCompletedOut(db, after, id, e.Message());
    case Ok(_) =>
      match Attempted(t, o)
      case Fails(msg) =>
        FailedKeepsCompletedOut(db, after, id, msg);
      case Done(_, _) =>
        var q := after.queue;
        forall j | 0 <= j < |q| ensures !(q[j].Dict? && q[j].task.status == Some("completed")) {
          assert q[j] in db.queue;
        }
  }

  /**
   * A task deleted from the queue after it was dequeued is still processed:
   * the queue is left as it was, and the history gains the completed record
   * exactly when the `try` body completes, whichever user's folder the file
   * came from.
   */
  lemma DeletedTaskStillRecorded(db: Database, t: Task, o: Oracles)
    requires HasIds(t)
    requires FirstGetIndex(db.queue, t.id.value).None?
    ensures WorkerRun(db, t, o).Some?
    ensures WorkerRun(db, t, o).value.queue == db.queue
    ensures WorkerRun(db, t, o).value.history ==
              match Attempted(t, o)
              case Done(url, file) =>
                db.history + [Dict(CompletedRecord(t.id.value, t.input.GetOr(""), url, file, IsAudio(t), t.quality.GetOr(""), o.now))]
              case Fails(_) => db.history
  {
    var id := t.id.value;
    PurgedKeepsOthers(db.queue, id);
    WorkerOutcome(db, t, o);
    assert FirstDictIndex(db.queue, id).None?;
  }

  /**
   * An input that is not a URL and finds no search result fails with
   * "No search results found", recorded as the entry's error.
   */
  lemma NoSearchResultFails(db: Database, t: Task, o: Oracles, i: nat)
    requires HasIds(t) && TaskStatus(db.queue, t.id.value) != Ok(Some("paused")) && TaskStatus(db.queue, t.id.value).Ok?
    requires t.input.GetOr("") != "" && !IsDirectUrl(t.input.GetOr("")) && !Truthy(o.search(t.input.GetOr("")))
    requires FirstDictIndex(db.queue, t.id.value) == Some(i)
    ensures WorkerRun(db, t, o).Some?
    ensures var after := WorkerRun(db, t, o).value;
            after.history == db.history && |after.queue| == |db.queue| &&
            after.queue[i].task.status == Some("failed") &&
            after.queue[i].task.error == Some("No search results found")
  {
    var id := t.id.value;
    var x := Marked(db, id, "processing");
    assert Touched(db.queue, x.queue, id);
    TouchedKeepsFirst(db.queue, x.queue, id);
  }

  /**
   * A download that returns no file name still sets the entry's progress to
   * 100 before the task is marked "failed" with "Download failed".
   */
  lemma FailedDownloadShowsFullProgress(db: Database, t: Task, o: Oracles, i: nat)
    requires HasIds(t) && TaskStatus(db.queue, t.id.value).Ok? && TaskStatus(db.queue, t.id.value) != Ok(Some("paused"))
    requires t.input.GetOr("") != "" && Truthy(Resolve(t.input.GetOr(""), o))
    requires o.scan.Ok? && FirstExisting(o.scan.value, Resolve(t.input.GetOr(""), o).value).None?
    requires !Truthy(o.download(Resolve(t.input.GetOr(""), o).value, IsAudio(t), SelectQuality(IsAudio(t), t.quality.GetOr("")),
                                t.userId.value).result)
    requires FirstDictIndex(db.queue, t.id.value) == Some(i)
    ensures WorkerRun(db, t, o).Some?
    ensures var q := WorkerRun(db, t, o).value.queue;
            |q| == |db.queue| && HasId(q[i], t.id.value) &&
            var e := q[i].task;
            e.status == Some("failed") && e.error == Some("Download failed") && e.progress == Some(100)
  {
    var id := t.id.value;
    var url := Resolve(t.input.GetOr(""), o).value;
    var x := Marked(db, id, "processing");
    TouchedKeepsFirst(db.queue, x.queue, id);
    var run := o.download(url, IsAudio(t), SelectQuality(IsAudio(t), t.quality.GetOr("")), t.userId.value);
    var c := Callbacks(x, id, run.events);
    CallbacksAdvance(x, id, run.events);
    TouchedKeepsFirst(x.queue, c.queue, id);
    var p := Progressed(c, id, 100);
    assert Touched(c.queue, p.queue, id);
    TouchedKeepsFirst(c.queue, p.queue, id);
  }
}
