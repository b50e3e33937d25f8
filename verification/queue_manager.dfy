/**
 * The controller of app/queue_manager.py: every user's database.json as one
 * map, the in-memory submission queue task_queue as a sequence, and each
 * module-level function as a method that loads one database, edits it and
 * saves it.
 */
module QueueManager {
  import opened Wrappers
  import opened Tasks
  import opened Downloads
  import opened Worker

  class Manager {
    /** database.json per user id; a user without an entry reads as EmptyDatabase (get_user_db). */
    var store: map<string, Database>
    /** task_queue: the tasks waiting for a worker, oldest first. */
    var fifo: seq<Task>

    constructor()
      ensures store == map[] && fifo == []
    {
      store := map[];
      fifo := [];
    }

    /** get_user_db */
    function Load(user: string): (r: Database)
      reads this
      ensures user in store ==> r == store[user]
      ensures user !in store ==> r.queue == [] && r.history == []
    {
      if user in store then store[user] else EmptyDatabase
    }

    /**
     * add_to_queue: the task gets the id `task-<millis>` and is appended to
     * the user's queue; the history and the earlier entries stay as they were.
     */
    method AddToQueue(user: string, task: Task, millis: nat) returns (stored: Task)
      modifies this
      ensures stored == task.(id := Some(TaskId(millis)))
      ensures store == old(store)[user := Database(old(Load(user)).queue + [Dict(stored)], old(Load(user)).history)]
      ensures fifo == old(fifo)
    {
      stored := task.(id := Some(TaskId(millis)));
      var data := Load(user);
      data := data.(queue := data.queue + [Dict(stored)]);
      store := store[user := data];
    }

    /**
     * add_task_to_queue: a task without a truthy user_id raises ValueError and
     * changes nothing; otherwise the stored task, with its new id, is both
     * appended to its owner's queue and put on task_queue.
     */
    method AddTaskToQueue(task: Task, millis: nat) returns (r: Result<Task>)
      modifies this
      ensures !Truthy(task.userId) ==>
                r == Raised(ValueError("Missing user_id in task")) && store == old(store) && fifo == old(fifo)
      ensures Truthy(task.userId) ==>
                var user := task.userId.value;
                && r == Ok(task.(id := Some(TaskId(millis))))
                && store == old(store)[user := Database(old(Load(user)).queue + [Dict(r.value)], old(Load(user)).history)]
                && fifo == old(fifo) + [r.value]
    {
      if !Truthy(task.userId) {
        return Raised(ValueError("Missing user_id in task"));
      }
      var stored := AddToQueue(task.userId.value, task, millis);
      fifo := fifo + [stored];
      r := Ok(stored);
    }

    /** remove_from_queue: keeps, in order, the dict entries whose id differs. */
    method RemoveFromQueue(user: string, id: string)
      modifies this
      ensures store == old(store)[user := old(Load(user)).(queue := Purged(old(Load(user)).queue, id))]
      ensures fifo == old(fifo)
    {
      var data := Load(user);
      var kept := DropTask(data.queue, id);
      store := store[user := data.(queue := kept)];
    }

    /** add_to_history: the record is appended to the user's history; the queue stays as it was. */
    method AddToHistory(user: string, task: Task)
      modifies this
      ensures store == old(store)[user := old(Load(user)).(history := old(Load(user)).history + [Dict(task)])]
      ensures fifo == old(fifo)
    {
      var data := Load(user);
      store := store[user := data.(history := data.history + [Dict(task)])];
    }

    /**
     * update_task_status: the loop stops at the first dict entry with the id;
     * the database is saved whether or not one was found.
     */
    method UpdateTaskStatus(user: string, id: string, status: string, error: Option<string>)
      modifies this
      ensures store == old(store)[user := old(Load(user)).(queue := StatusUpdated(old(Load(user)).queue, id, status, error))]
      ensures fifo == old(fifo)
    {
      var data := Load(user);
      var q0 := data.queue;
      var q := q0;
      var k := 0;
      while k < |q0|
        invariant 0 <= k <= |q0|
        invariant q == q0
        invariant FirstDictIndex(q0, id) == FirstDictIndex(q0, id, k)
      {
        if q0[k].Dict? && q0[k].task.id == Some(id) {
          var t := q0[k].task;
          q := q0[k := Dict(t.(status := Some(status), error := if Truthy(error) then error else t.error))];
          break;
        }
        k := k + 1;
      }
      store := store[user := data.(queue := q)];
    }

    /** update_task_progress: as update_task_status, for the progress, which is stored as given. */
    method UpdateTaskProgress(user: string, id: string, progress: int)
      modifies this
      ensures store == old(store)[user := old(Load(user)).(queue := ProgressUpdated(old(Load(user)).queue, id, progress))]
      ensures fifo == old(fifo)
    {
      var data := Load(user);
      var q0 := data.queue;
      var q := q0;
      var k := 0;
      while k < |q0|
        invariant 0 <= k <= |q0|
        invariant q == q0
        invariant FirstDictIndex(q0, id) == FirstDictIndex(q0, id, k)
      {
        if q0[k].Dict? && q0[k].task.id == Some(id) {
          q := q0[k := Dict(q0[k].task.(progress := Some(progress)))];
          break;
        }
        k := k + 1;
      }
      store := store[user := data.(queue := q)];
    }

    /**
     * get_task_status: the status of the first entry with the id (None when
     * there is none or it has no status), or the AttributeError raised by a
     * non-dict entry met first. Reads only.
     */
    method GetTaskStatus(user: string, id: string) returns (r: Result<Option<string>>)
      ensures r == TaskStatus(Load(user).queue, id)
    {
      var q := Load(user).queue;
      var k := 0;
      while k < |q|
        invariant 0 <= k <= |q|
        invariant FirstGetIndex(q, id) == FirstGetIndex(q, id, k)
      {
        if q[k].NonDict? {
          return Raised(AttributeError(q[k].typeName));
        }
        if q[k].task.id == Some(id) {
          return Ok(q[k].task.status);
        }
        k := k + 1;
      }
      return Ok(None);
    }

    /**
     * pause_task: the first entry with the id and status "processing" becomes
     * "paused" and True is returned; when there is none, False and nothing is
     * saved; a non-dict entry, or an entry with the id and no status, met
     * first raises and nothing is saved.
     */
    method PauseTask(user: string, id: string) returns (r: Result<bool>)
      modifies this
      ensures var q := old(Load(user)).queue;
              match StatusScan(q, id, "processing")
              case Hit(i) => r == Ok(true) && store == old(store)[user := old(Load(user)).(queue := WithStatus(q, i, "paused"))]
              case Miss => r == Ok(false) && store == old(store)
              case Crash(e) => r == Raised(e) && store == old(store)
      ensures fifo == old(fifo)
    {
      var data := Load(user);
      var q := data.queue;
      var k := 0;
      while k < |q|
        invariant 0 <= k <= |q|
        invariant StatusScan(q, id, "processing") == StatusScan(q, id, "processing", k)
      {
        if q[k].NonDict? {
          return Raised(AttributeError(q[k].typeName));
        }
        if q[k].task.id == Some(id) {
          if q[k].task.status.None? {
            return Raised(KeyError("status"));
          }
          if q[k].task.status == Some("processing") {
            store := store[user := data.(queue := WithStatus(q, k, "paused"))];
            return Ok(true);
          }
        }
        k := k + 1;
      }
      return Ok(false);
    }

    /**
     * resume_task: the first entry with the id and status "paused" becomes
     * "queued", keeping its progress, and is put back on task_queue; the other
     * outcomes are those of pause_task.
     */
    method ResumeTask(user: string, id: string) returns (r: Result<bool>)
      modifies this
      ensures var q := old(Load(user)).queue;
              match StatusScan(q, id, "paused")
              case Hit(i) =>
                && r == Ok(true)
                && store == old(store)[user := old(Load(user)).(queue := WithStatus(q, i, "queued"))]
                && fifo == old(fifo) + [q[i].task.(status := Some("queued"))]
              case Miss => r == Ok(false) && store == old(store) && fifo == old(fifo)
              case Crash(e) => r == Raised(e) && store == old(store) && fifo == old(fifo)
    {
      var data := Load(user);
      var q := data.queue;
      var k := 0;
      while k < |q|
        invariant 0 <= k <= |q|
        invariant StatusScan(q, id, "paused") == StatusScan(q, id, "paused", k)
      {
        if q[k].NonDict? {
          return Raised(AttributeError(q[k].typeName));
        }
        if q[k].task.id == Some(id) {
          if q[k].task.status.None? {
            return Raised(KeyError("status"));
          }
          if q[k].task.status == Some("paused") {
            var resumed := q[k].task.(status := Some("queued"));
            store := store[user := data.(queue := WithStatus(q, k, "queued"))];
            fifo := fifo + [resumed];
            return Ok(true);
          }
        }
        k := k + 1;
      }
      return Ok(false);
    }

    /**
     * delete_task, given the listing of the user's downloads folder (None when
     * it does not exist). `removed` is what os.remove is called on: the files
     * starting with the stem of the entry's `file`. With the entry found, the
     * filter raises on any non-dict entry (after the files are removed, before
     * anything is saved); otherwise every entry with the id is dropped and the
     * history is kept.
     */
    method DeleteTask(user: string, id: string, listing: Option<seq<string>>) returns (r: Result<bool>, removed: seq<string>)
      modifies this
      ensures fifo == old(fifo)
      ensures var q := old(Load(user)).queue;
              match FirstGetIndex(q, id)
              case None => r == Ok(false) && removed == [] && store == old(store)
              case Some(i) =>
                if q[i].NonDict? then
                  r == Raised(AttributeError(q[i].typeName)) && removed == [] && store == old(store)
                else if Truthy(q[i].task.file) && listing.None? then
                  r == Raised(OSError("[Errno 2] No such file or directory: '" + DownloadsDir(user) + "'")) &&
                  removed == [] && store == old(store)
                else
                  && removed == (if Truthy(q[i].task.file) then PartialFiles(listing.value, q[i].task.file.value) else [])
                  && (FirstNonDict(q).Some? ==>
                        r == Raised(AttributeError(q[FirstNonDict(q).value].typeName)) && store == old(store))
                  && (FirstNonDict(q).None? ==>
                        r == Ok(true) && store == old(store)[user := old(Load(user)).(queue := Purged(q, id))])
    {
      removed := [];
      var data := Load(user);
      var q := data.queue;
      var k := 0;
      while k < |q|
        invariant 0 <= k <= |q|
        invariant FirstGetIndex(q, id) == FirstGetIndex(q, id, k)
      {
        if q[k].NonDict? {
          return Raised(AttributeError(q[k].typeName)), [];
        }
        if q[k].task.id == Some(id) {
          break;
        }
        k := k + 1;
      }
      if k == |q| {
        return Ok(false), [];
      }
      var target := q[k].task;
      if Truthy(target.file) {
        if listing.None? {
          return Raised(OSError("[Errno 2] No such file or directory: '" + DownloadsDir(user) + "'")), [];
        }
        removed := PartialFiles(listing.value, target.file.value);
      }
      var filtered := DropTaskOrRaise(q, id);
      if filtered.Raised? {
        return Raised(filtered.error), removed;
      }
      store := store[user := data.(queue := filtered.value)];
      r := Ok(true);
    }

    /** progress_callback: a report that passes the guard stores its percentage; any other is ignored. */
    method ProgressCallback(user: string, id: string, e: ProgressEvent)
      modifies this
      ensures Reports(e) ==> store == old(store)[user := Progressed(old(Load(user)), id, e.percent)]
      ensures !Reports(e) ==> store == old(store)
      ensures fifo == old(fifo)
    {
      if Reports(e) {
        UpdateTaskProgress(user, id, e.percent);
      }
    }

    /**
     * The `try` body of `worker` from the input check on, for a task with a
     * user_id and an id; each `raise` and each exception a collaborator
     * raises goes, as in the `except` clause, to update_task_status with
     * "failed" and the message.
     */
    method RunTask(t: Task, o: Oracles)
      requires HasIds(t)
      modifies this
      ensures store == old(store)[t.userId.value := Worker.Process(old(Load(t.userId.value)), t, o)]
      ensures fifo == old(fifo)
    {
      var user, id := t.userId.value, t.id.value;
      var input := t.input.GetOr("");
      if input == "" {
        UpdateTaskStatus(user, id, "failed", Some("Task missing input"));
        return;
      }
      var url: string;
      if IsDirectUrl(input) {
        url := input;
      } else {
        var found := o.search(input);
        if !Truthy(found) {
          UpdateTaskStatus(user, id, "failed", Some("No search results found"));
          return;
        }
        url := found.value;
      }
      FetchAndFinish(t, url, o);
    }

    /** The rest of the `try` body once the URL is known: the dedup scan, the copy or the download, and the finish. */
    method FetchAndFinish(t: Task, url: string, o: Oracles)
      requires HasIds(t)
      modifies this
      ensures store == old(store)[t.userId.value := Fetch(old(Load(t.userId.value)), t, url, o)]
      ensures fifo == old(fifo)
    {
      var user, id := t.userId.value, t.id.value;
      var isAudio := IsAudio(t);
      var quality := t.quality.GetOr("");
      var qualityVal := SelectQuality(isAudio, quality);
      if o.scan.Raised? {
        UpdateTaskStatus(user, id, "failed", Some(o.scan.error.Message()));
        return;
      }
      var existing := FindExistingFile(o.scan.value, url, isAudio, qualityVal);
      if existing.Some? {
        if o.copyError.Some? {
          UpdateTaskStatus(user, id, "failed", Some(o.copyError.value));
          return;
        }
        var filename := CopyFileToUser(user, existing.value);
        Complete(user, id, t.input.GetOr(""), url, Some(filename), isAudio, quality, o.now);
      } else {
        DownloadAndComplete(user, id, t.input.GetOr(""), url, o.download(url, isAudio, qualityVal, user), isAudio, quality, o.now);
      }
    }

    /** The download branch of the `try` body: the download with its progress reports, then the finish. */
    method DownloadAndComplete(user: string, id: string, input: string, url: string, run: DownloadRun,
                               isAudio: bool, quality: string, now: string)
      modifies this
      ensures store == old(store)[user := Finish(Progressed(Callbacks(old(Load(user)), id, run.events), id, 100),
                                                 id, input, url, run.result, isAudio, quality, now)]
      ensures fifo == old(fifo)
    {
      var filename := Download(user, id, run);
      Complete(user, id, input, url, filename, isAudio, quality, now);
    }

    /**
     * download_media's progress hooks, each passed to progress_callback in
     * turn, and its returned name. The owner's database is left as Callbacks
     * describes, and is written only if some report passed the guard.
     */
    method Download(user: string, id: string, run: DownloadRun) returns (filename: Option<string>)
      modifies this
      ensures filename == run.result
      ensures Load(user) == Callbacks(old(Load(user)), id, run.events)
      ensures store == old(store) || store == old(store)[user := Load(user)]
      ensures fifo == old(fifo)
    {
      ghost var db := Load(user);
      var k := 0;
      while k < |run.events|
        invariant 0 <= k <= |run.events|
        invariant Load(user) == Callbacks(db, id, run.events[..k])
        invariant store == old(store) || store == old(store)[user := Load(user)]
        invariant fifo == old(fifo)
      {
        ghost var prefix := run.events[..k];
        ProgressCallback(user, id, run.events[k]);
        assert run.events[..k + 1][..k] == prefix;
        assert Load(user) == Callbacks(db, id, run.events[..k + 1]);
        k := k + 1;
      }
      assert run.events[..|run.events|] == run.events;
      filename := run.result;
    }

    /**
     * From the final update_task_progress(…, 100) to the end of the `try`:
     * a falsy file name fails the task with "Download failed"; otherwise the
     * completed record goes to the history and the task leaves the queue.
     */
    method Complete(user: string, id: string, input: string, url: string, filename: Option<string>,
                    isAudio: bool, quality: string, now: string)
      modifies this
      ensures store == old(store)[user := Finish(Progressed(old(Load(user)), id, 100), id, input, url, filename, isAudio, quality, now)]
      ensures fifo == old(fifo)
    {
      ghost var db := Progressed(Load(user), id, 100);
      UpdateTaskProgress(user, id, 100);
      assert Load(user) == db;
      if !Truthy(filename) {
        UpdateTaskStatus(user, id, "failed", Some("Download failed"));
        return;
      }
      var completed := CompletedRecord(id, input, url, filename.value, isAudio, quality, now);
      AddToHistory(user, completed);
      assert Load(user) == Database(db.queue, db.history + [Dict(completed)]);
      RemoveFromQueue(user, id);
    }

    /**
     * One iteration of `worker`: takes the oldest task off task_queue and
     * leaves the owner's database as WorkerRun describes; no other user's
     * database changes, and nothing changes when WorkerRun writes nothing.
     */
    method WorkerStep(o: Oracles)
      requires fifo != []
      modifies this
      ensures fifo == old(fifo)[1..]
      ensures var t := old(fifo)[0];
              var run := WorkerRun(old(Load(t.userId.GetOr(""))), t, o);
              store == if run.None? then old(store) else old(store)[t.userId.GetOr("") := run.value]
    {
      var t := fifo[0];
      fifo := fifo[1..];
      if !Truthy(t.userId) || !Truthy(t.id) {
        return;
      }
      var user, id := t.userId.value, t.id.value;
      var current := GetTaskStatus(user, id);
      if current.Raised? {
        UpdateTaskStatus(user, id, "failed", Some(current.error.Message()));
        return;
      }
      if current.value == Some("paused") {
        return;
      }
      UpdateTaskStatus(user, id, "processing", None);
      RunTask(t, o);
    }
  }

  /** The comprehension of remove_from_queue: the dict entries whose id differs, in order. */
  method DropTask(q: seq<Entry>, id: string) returns (kept: seq<Entry>)
    ensures kept == Purged(q, id)
  {
    kept := [];
    var k := 0;
    while k < |q|
      invariant 0 <= k <= |q|
      invariant kept == Purged(q[..k], id)
    {
      PurgedStep(q, k, id);
      if q[k].Dict? && q[k].task.id != Some(id) {
        kept := kept + [q[k]];
      }
      k := k + 1;
    }
    assert q[..|q|] == q;
  }

  /**
   * The comprehension of delete_task, whose `t.get` raises AttributeError at
   * the first non-dict entry; on a queue of dicts it keeps what DropTask keeps.
   */
  method DropTaskOrRaise(q: seq<Entry>, id: string) returns (r: Result<seq<Entry>>)
    ensures FirstNonDict(q).Some? ==> r == Raised(AttributeError(q[FirstNonDict(q).value].typeName))
    ensures FirstNonDict(q).None? ==> r == Ok(Purged(q, id))
  {
    var kept: seq<Entry> := [];
    var k := 0;
    while k < |q|
      invariant 0 <= k <= |q|
      invariant kept == Purged(q[..k], id)
      invariant FirstNonDict(q) == FirstNonDict(q, k)
    {
      if q[k].NonDict? {
        return Raised(AttributeError(q[k].typeName));
      }
      PurgedStep(q, k, id);
      if q[k].task.id != Some(id) {
        kept := kept + [q[k]];
      }
      k := k + 1;
    }
    assert q[..|q|] == q;
    r := Ok(kept);
  }

  /** One more entry of the filter's input, as both loops above take it. */
  lemma PurgedStep(q: seq<Entry>, k: nat, id: string)
    requires k < |q|
    ensures Purged(q[..k + 1], id) == Purged(q[..k], id) + (if q[k].Dict? && !HasId(q[k], id) then [q[k]] else [])
  {
    PurgedAppend(q[..k], [q[k]], id);
    assert q[..k + 1] == q[..k] + [q[k]];
  }
}
