/**
 * The parts of app/queue_manager.py that look at the users' download folders:
 * the cross-user dedup scan (find_existing_file), the name a copied file gets
 * (copy_file_to_user), and the partial files delete_task removes. The folders
 * themselves are given as listings; copying and removing are left to the caller.
 */
module Downloads {
  import opened Wrappers
  import opened Utils
  import Config

  predicate IsPrefix(p: string, s: string) {
    |p| <= |s| && s[..|p|] == p
  }

  /** Python's `needle in hay` on two strings. */
  predicate Contains(hay: string, needle: string) {
    exists k :: 0 <= k <= |hay| - |needle| && IsPrefix(needle, hay[k..])
  }

  /** One entry of `os.listdir(Config.USERS_DIR)` with the listing of its downloads folder ([] when there is none). */
  datatype UserDir = UserDir(user: string, files: seq<string>)

  function DownloadsDir(user: string): string {
    Config.UsersDir + "/" + user + "/downloads"
  }

  function DownloadsPath(user: string, file: string): string {
    DownloadsDir(user) + "/" + file
  }

  /** (a, b) comes before (c, d) in the scan order: user directory first, then file. */
  predicate Earlier(a: int, b: int, c: int, d: int) {
    a < c || (a == c && b < d)
  }

  /** The b-th file of the a-th user directory contains the url. */
  predicate Matches(dirs: seq<UserDir>, url: string, a: int, b: int) {
    0 <= a < |dirs| && 0 <= b < |dirs[a].files| && Contains(dirs[a].files[b], url)
  }

  /**
   * The path find_existing_file returns when it resumes its nested loops at
   * directory i, file j.
   */
  function FirstExisting(dirs: seq<UserDir>, url: string, i: nat := 0, j: nat := 0): (r: Option<string>)
    requires i <= |dirs| && (i < |dirs| ==> j <= |dirs[i].files|)
    ensures r.Some? ==> exists a, b :: Matches(dirs, url, a, b) && r.value == DownloadsPath(dirs[a].user, dirs[a].files[b])
    decreases |dirs| - i, if i < |dirs| then |dirs[i].files| - j else 0
  {
    if i == |dirs| then None
    else if j == |dirs[i].files| then FirstExisting(dirs, url, i + 1, 0)
    else if Contains(dirs[i].files[j], url) then Some(DownloadsPath(dirs[i].user, dirs[i].files[j]))
    else FirstExisting(dirs, url, i, j + 1)
  }

  /**
   * The scan finds nothing exactly when no file from (i, j) on contains the
   * url; otherwise it returns the path of the first such file in scan order.
   */
  lemma {:induction false} FirstExistingIsFirstMatch(dirs: seq<UserDir>, url: string, i: nat, j: nat)
    requires i <= |dirs| && (i < |dirs| ==> j <= |dirs[i].files|)
    ensures FirstExisting(dirs, url, i, j).None? <==>
              forall a, b :: Matches(dirs, url, a, b) ==> Earlier(a, b, i, j)
    ensures FirstExisting(dirs, url, i, j).Some? ==>
              exists a, b :: Matches(dirs, url, a, b) && !Earlier(a, b, i, j) &&
                             FirstExisting(dirs, url, i, j).value == DownloadsPath(dirs[a].user, dirs[a].files[b]) &&
                             forall c, d :: Matches(dirs, url, c, d) && Earlier(c, d, a, b) ==> Earlier(c, d, i, j)
    decreases |dirs| - i, if i < |dirs| then |dirs[i].files| - j else 0
  {
    if i == |dirs| {
    } else if j == |dirs[i].files| {
      FirstExistingIsFirstMatch(dirs, url, i + 1, 0);
    } else if Contains(dirs[i].files[j], url) {
      assert Matches(dirs, url, i, j);
    } else {
      FirstExistingIsFirstMatch(dirs, url, i, j + 1);
    }
  }

  /**
   * find_existing_file: two nested loops returning the first match. The
   * audio flag and the quality are accepted and, as in the source, ignored.
   */
  method FindExistingFile(dirs: seq<UserDir>, url: string, isAudio: bool, quality: string) returns (r: Option<string>)
    ensures r == FirstExisting(dirs, url)
  {
    var i := 0;
    while i < |dirs|
      invariant 0 <= i <= |dirs|
      invariant FirstExisting(dirs, url) == FirstExisting(dirs, url, i, 0)
    {
      var j := 0;
      while j < |dirs[i].files|
        invariant 0 <= j <= |dirs[i].files|
        invariant FirstExisting(dirs, url) == FirstExisting(dirs, url, i, j)
      {
        if Contains(dirs[i].files[j], url) {
          return Some(DownloadsPath(dirs[i].user, dirs[i].files[j]));
        }
        j := j + 1;
      }
      i := i + 1;
    }
    return None;
  }

  /** `os.path.basename`: what follows the last '/'. */
  function Basename(path: string): (r: string)
    ensures '/' !in r
    ensures |r| <= |path| && r == path[|path| - |r|..]
    ensures |r| < |path| ==> path[|path| - |r| - 1] == '/'
  {
    if path == [] || path[|path| - 1] == '/' then []
    else Basename(path[..|path| - 1]) + [path[|path| - 1]]
  }

  /**
   * copy_file_to_user's returned name. It copies under the sanitised name when
   * sanitising changes the name and under the original name otherwise; either
   * way the name is the sanitised base name, which is a safe name.
   */
  function CopyFileToUser(user: string, source: string): (name: string)
    ensures name == Sanitize(Basename(source))
    ensures IsSafeName(name)
  {
    var filename := Basename(source);
    var sanitized := Sanitize(filename);
    SanitizeIsSafe(filename);
    if filename != sanitized then sanitized else filename
  }

  /** A file found by the dedup scan is copied under its own name, sanitised. */
  lemma CopiedNameOfMatch(owner: string, file: string, user: string)
    requires '/' !in file
    ensures CopyFileToUser(user, DownloadsPath(owner, file)) == Sanitize(file)
  {
    var p := DownloadsPath(owner, file);
    var b := Basename(p);
    assert p == DownloadsDir(owner) + "/" + file;
    assert p[|p| - |file| - 1] == '/';
    assert p[|p| - |file|..] == file;
  }

  /** `file.split('.')[0]`: the name up to its first '.'. */
  function Stem(file: string): (r: string)
    ensures IsPrefix(r, file) && '.' !in r
    ensures r == file || file[|r|] == '.'
  {
    if file == [] || file[0] == '.' then []
    else [file[0]] + Stem(file[1..])
  }

  /** `[f for f in listing if f.startswith(stem)]`: the files delete_task removes for a task's `file`. */
  function PartialFiles(listing: seq<string>, file: string): (r: seq<string>)
    ensures |r| <= |listing|
    ensures forall f :: f in r <==> f in listing && IsPrefix(Stem(file), f)
  {
    if listing == [] then []
    else (if IsPrefix(Stem(file), listing[0]) then [listing[0]] else []) + PartialFiles(listing[1..], file)
  }

  /**
   * A `file` that starts with '.' has the empty stem, so every file in the
   * folder is taken as a partial file of the task.
   */
  lemma {:induction false} DotFileMatchesEverything(listing: seq<string>, file: string)
    requires file != [] && file[0] == '.'
    ensures PartialFiles(listing, file) == listing
  {
    if listing != [] {
      DotFileMatchesEverything(listing[1..], file);
      assert listing == [listing[0]] + listing[1..];
    }
  }
}
