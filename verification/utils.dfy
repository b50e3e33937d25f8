/**
 * app/utils.py: the filename sanitiser that every stored file name goes through,
 * and the lookup that finds a file in a directory listing ignoring letter case.
 * Strings are sequences of Unicode code points, as Python's are.
 */
module Utils {
  import opened Wrappers

  const FullWidthColon: char := '\U{FF1A}'
  const FullWidthBar: char := '\U{FF5C}'

  /**
   * The replacement table of sanitize_filename in the order Python iterates
   * the dict literal. The key U+FF1A is written twice: it keeps the position
   * of its first occurrence and the value of its last one, ':'.
   */
  const Replacements: seq<(char, char)> := [
    (FullWidthColon, ':'), (FullWidthBar, '_'), (' ', '_'), ('/', '_'),
    ('\\', '_'), (':', '_'), ('*', '_'), ('?', '_'), ('"', '_'),
    ('<', '_'), ('>', '_'), ('|', '_')]

  /** The ASCII characters the table turns into '_'. */
  const Reserved: set<char> := {' ', '/', '\\', ':', '*', '?', '"', '<', '>', '|'}

  /** Code points 0x00-0x7F: the class `[\x00-\x7F]` of the regular expression. */
  predicate IsAscii(c: char) {
    c <= '\U{7F}'
  }

  predicate AllAscii(s: string) {
    forall k :: 0 <= k < |s| ==> IsAscii(s[k])
  }

  /** A name no further sanitising changes: ASCII only, no reserved character. */
  predicate IsSafeName(s: string) {
    forall k :: 0 <= k < |s| ==> IsAscii(s[k]) && s[k] !in Reserved
  }

  /** `s.replace(from, to)` for a one-character `from`. */
  function ReplaceChar(s: string, from: char, to: char): string {
    seq(|s|, k requires 0 <= k < |s| => if s[k] == from then to else s[k])
  }

  /** What the first |table| rounds of the replacement loop do to one character. */
  function ApplyTable(table: seq<(char, char)>, c: char): char {
    if table == [] then c
    else
      var d := ApplyTable(table[..|table| - 1], c);
      var pair := table[|table| - 1];
      if d == pair.0 then pair.1 else d
  }

  /** The net effect of the whole table on one character. */
  function Translate(c: char): (r: char)
    ensures r == c || r == '_'
    ensures r !in Reserved && r != FullWidthColon && r != FullWidthBar
  {
    if c in Reserved || c == FullWidthColon || c == FullWidthBar then '_' else c
  }

  function Translated(s: string): string {
    seq(|s|, k requires 0 <= k < |s| => Translate(s[k]))
  }

  /**
   * `re.sub(r'[^\x00-\x7F]+', '_', s)`, read left to right: `inRun` says
   * whether the character just before `s` was a non-ASCII one, already
   * replaced as part of the current run.
   */
  function CollapseRuns(s: string, inRun: bool): (r: string)
    ensures r == [] <==> s == [] || (inRun && forall k :: 0 <= k < |s| ==> !IsAscii(s[k]))
    decreases |s|
  {
    if s == [] then []
    else if IsAscii(s[0]) then [s[0]] + CollapseRuns(s[1..], false)
    else (if inRun then [] else ['_']) + CollapseRuns(s[1..], true)
  }

  /** sanitize_filename: the table, then one substitution per run of non-ASCII characters. */
  function Sanitize(s: string): (r: string)
    ensures r == [] <==> s == []
  {
    CollapseRuns(Translated(s), false)
  }

  /**
   * sanitize_filename as the source runs it: one `replace` per table entry,
   * in table order, rebinding the name each time; then the regular expression.
   */
  method SanitizeFilename(filename: string) returns (r: string)
    ensures r == Sanitize(filename)
  {
    r := filename;
    var i := 0;
    while i < |Replacements|
      invariant 0 <= i <= |Replacements|
      invariant |r| == |filename|
      invariant forall k :: 0 <= k < |r| ==> r[k] == ApplyTable(Replacements[..i], filename[k])
    {
      var pair := Replacements[i];
      assert Replacements[..i + 1][..i] == Replacements[..i];
      r := ReplaceChar(r, pair.0, pair.1);
      i := i + 1;
    }
    forall k | 0 <= k < |r|
      ensures r[k] == Translated(filename)[k]
    {
      assert Replacements[..|Replacements|] == Replacements;
      TableIsTranslate(filename[k]);
    }
    assert r == Translated(filename);
    r := CollapseRuns(r, false);
  }

  /** Running the twelve replacements in order is the single-character map Translate. */
  lemma TableIsTranslate(c: char)
    ensures ApplyTable(Replacements, c) == Translate(c)
  {
    var t := Replacements;
    var d := c;
    assert t[..1][..0] == t[..0];
    d := if d == t[0].0 then t[0].1 else d;
    assert ApplyTable(t[..1], c) == d;
    assert t[..2][..1] == t[..1];
    d := if d == t[1].0 then t[1].1 else d;
    assert ApplyTable(t[..2], c) == d;
    assert t[..3][..2] == t[..2];
    d := if d == t[2].0 then t[2].1 else d;
    assert ApplyTable(t[..3], c) == d;
    assert t[..4][..3] == t[..3];
    d := if d == t[3].0 then t[3].1 else d;
    assert ApplyTable(t[..4], c) == d;
    assert t[..5][..4] == t[..4];
    d := if d == t[4].0 then t[4].1 else d;
    assert ApplyTable(t[..5], c) == d;
    assert t[..6][..5] == t[..5];
    d := if d == t[5].0 then t[5].1 else d;
    assert ApplyTable(t[..6], c) == d;
    assert t[..7][..6] == t[..6];
    d := if d == t[6].0 then t[6].1 else d;
    assert ApplyTable(t[..7], c) == d;
    assert t[..8][..7] == t[..7];
    d := if d == t[7].0 then t[7].1 else d;
    assert ApplyTable(t[..8], c) == d;
    assert t[..9][..8] == t[..8];
    d := if d == t[8].0 then t[8].1 else d;
    assert ApplyTable(t[..9], c) == d;
    assert t[..10][..9] == t[..9];
    d := if d == t[9].0 then t[9].1 else d;
    assert ApplyTable(t[..10], c) == d;
    assert t[..11][..10] == t[..10];
    d := if d == t[10].0 then t[10].1 else d;
    assert ApplyTable(t[..11], c) == d;
    assert t[..12][..11] == t[..11];
    d := if d == t[11].0 then t[11].1 else d;
    assert ApplyTable(t[..12], c) == d;
    assert t[..12] == t;
  }

  /** The substitution never lengthens, emits only ASCII, and emits only '_' or characters of its input. */
  lemma {:induction false} CollapseOutput(s: string, inRun: bool)
    ensures |CollapseRuns(s, inRun)| <= |s|
    ensures AllAscii(CollapseRuns(s, inRun))
    ensures forall k :: 0 <= k < |CollapseRuns(s, inRun)| ==>
              CollapseRuns(s, inRun)[k] == '_' || CollapseRuns(s, inRun)[k] in s
    decreases |s|
  {
    if s != [] {
      CollapseOutput(s[1..], IsAscii(s[0]) == false);
      var rest := CollapseRuns(s[1..], !IsAscii(s[0]));
      forall k | 0 <= k < |rest| ensures rest[k] == '_' || rest[k] in s {
        if rest[k] != '_' {
          assert rest[k] in s[1..];
        }
      }
    }
  }

  /** A string that is already ASCII is left as it is. */
  lemma {:induction false} CollapseKeepsAscii(s: string, inRun: bool)
    requires AllAscii(s)
    ensures CollapseRuns(s, inRun) == s
    decreases |s|
  {
    if s != [] {
      CollapseKeepsAscii(s[1..], false);
    }
  }

  /** The substitution works independently on both sides of an ASCII character. */
  lemma {:induction false} CollapseSplits(x: string, y: string, inRun: bool)
    requires x != [] && IsAscii(x[|x| - 1])
    ensures CollapseRuns(x + y, inRun) == CollapseRuns(x, inRun) + CollapseRuns(y, false)
    decreases |x|
  {
    assert (x + y)[1..] == x[1..] + y;
    if |x| > 1 {
      CollapseSplits(x[1..], y, !IsAscii(x[0]));
    }
  }

  /** A non-empty run of non-ASCII characters at the start yields exactly one '_'. */
  lemma {:induction false} CollapseLeadingRun(n: string, y: string)
    requires n != [] && forall k :: 0 <= k < |n| ==> !IsAscii(n[k])
    ensures CollapseRuns(n + y, false) == ['_'] + CollapseRuns(y, true)
    decreases |n|
  {
    assert (n + y)[1..] == n[1..] + y;
    if |n| > 1 {
      RunContinues(n[1..], y);
    }
  }

  /** Inside a run, further non-ASCII characters emit nothing. */
  lemma {:induction false} RunContinues(n: string, y: string)
    requires forall k :: 0 <= k < |n| ==> !IsAscii(n[k])
    ensures CollapseRuns(n + y, true) == CollapseRuns(y, true)
    decreases |n|
  {
    if n != [] {
      assert (n + y)[0] == n[0] && !IsAscii(n[0]);
      assert (n + y)[1..] == n[1..] + y;
      assert CollapseRuns(n + y, true) == CollapseRuns(n[1..] + y, true);
      RunContinues(n[1..], y);
    } else {
      assert n + y == y;
    }
  }

  lemma TranslatedAppend(a: string, b: string)
    ensures Translated(a + b) == Translated(a) + Translated(b)
  {
  }

  /** Every sanitised name is safe, and no longer than the original. */
  lemma SanitizeIsSafe(s: string)
    ensures IsSafeName(Sanitize(s))
    ensures |Sanitize(s)| <= |s|
  {
    var t := Translated(s);
    CollapseOutput(t, false);
    var r := Sanitize(s);
    forall k | 0 <= k < |r| ensures IsAscii(r[k]) && r[k] !in Reserved {
      if r[k] != '_' {
        assert r[k] in t;
        var j :| 0 <= j < |t| && t[j] == r[k];
        assert Translate(s[j]) == r[k];
      }
    }
  }

  /** An ASCII name keeps its length; reserved characters become '_' and the rest stay in place. */
  lemma SanitizeAsciiInPlace(s: string)
    requires AllAscii(s)
    ensures |Sanitize(s)| == |s|
    ensures forall k :: 0 <= k < |s| ==> Sanitize(s)[k] == if s[k] in Reserved then '_' else s[k]
  {
    var t := Translated(s);
    assert AllAscii(t);
    CollapseKeepsAscii(t, false);
  }

  /** Sanitising changes a name exactly when the name is not already safe. */
  lemma SanitizeFixedPoint(s: string)
    ensures Sanitize(s) == s <==> IsSafeName(s)
  {
    SanitizeIsSafe(s);
    if IsSafeName(s) {
      assert Translated(s) == s;
      CollapseKeepsAscii(s, false);
    }
  }

  /** sanitize_filename is idempotent. */
  lemma SanitizeIdempotent(s: string)
    ensures Sanitize(Sanitize(s)) == Sanitize(s)
  {
    SanitizeIsSafe(s);
    SanitizeFixedPoint(Sanitize(s));
  }

  /**
   * A full-width colon or bar becomes a '_' of its own: it is turned into
   * an ASCII character before the regular expression runs, so it never joins
   * the non-ASCII runs around it.
   */
  lemma SanitizeFullWidthStandsAlone(p: string, c: char, q: string)
    requires c == FullWidthColon || c == FullWidthBar
    ensures Sanitize(p + [c] + q) == Sanitize(p) + "_" + Sanitize(q)
  {
    TranslatedAppend(p + [c], q);
    TranslatedAppend(p, [c]);
    var x := Translated(p) + ['_'];
    assert Translated(p + [c] + q) == x + Translated(q);
    CollapseSplits(x, Translated(q), false);
    var tp := Translated(p);
    if tp == [] {
      assert x == ['_'];
    } else {
      assert x == tp + ['_'];
      AppendAscii(tp, '_', false);
    }
  }

  lemma {:induction false} AppendAscii(x: string, a: char, inRun: bool)
    requires IsAscii(a)
    ensures CollapseRuns(x + [a], inRun) == CollapseRuns(x, inRun) + [a]
    decreases |x|
  {
    if x == [] {
      assert x + [a] == [a];
    } else {
      assert (x + [a])[1..] == x[1..] + [a];
      AppendAscii(x[1..], a, !IsAscii(x[0]));
    }
  }

  /**
   * Each maximal run of non-ASCII characters that survives the table (so
   * neither full-width character is in it) becomes exactly one '_'.
   */
  lemma SanitizeCollapsesRun(p: string, n: string, q: string)
    requires n != []
    requires forall k :: 0 <= k < |n| ==> !IsAscii(n[k]) && n[k] != FullWidthColon && n[k] != FullWidthBar
    requires p == [] || IsAscii(Translate(p[|p| - 1]))
    requires q == [] || IsAscii(Translate(q[0]))
    ensures Sanitize(p + n + q) == Sanitize(p) + "_" + Sanitize(q)
  {
    var tp, tq := Translated(p), Translated(q);
    TranslatedAroundRun(p, n, q);
    RunBeforeAscii(n, tq);
    if tp != [] {
      assert tp[|tp| - 1] == Translate(p[|p| - 1]);
      CollapseSplits(tp, n + tq, false);
    } else {
      assert tp + (n + tq) == n + tq;
    }
  }

  /** The table leaves a run of non-ASCII, non-full-width characters untouched. */
  lemma TranslatedAroundRun(p: string, n: string, q: string)
    requires forall k :: 0 <= k < |n| ==> !IsAscii(n[k]) && n[k] != FullWidthColon && n[k] != FullWidthBar
    ensures Translated(p + n + q) == Translated(p) + (n + Translated(q))
  {
    TranslatedAppend(p + n, q);
    TranslatedAppend(p, n);
    assert Translated(n) == n;
  }

  /** A run followed by the end or by an ASCII character yields exactly one '_'. */
  lemma RunBeforeAscii(n: string, y: string)
    requires n != [] && forall k :: 0 <= k < |n| ==> !IsAscii(n[k])
    requires y == [] || IsAscii(y[0])
    ensures CollapseRuns(n + y, false) == ['_'] + CollapseRuns(y, false)
  {
    CollapseLeadingRun(n, y);
  }

  /** ASCII lower-casing: 'A'-'Z' become 'a'-'z', every other character is kept. */
  function Lower(s: string): (r: string)
    ensures |r| == |s|
    ensures forall k :: 0 <= k < |r| ==> !('A' <= r[k] <= 'Z')
  {
    seq(|s|, k requires 0 <= k < |s| => if 'A' <= s[k] <= 'Z' then (s[k] as int + 32) as char else s[k])
  }

  /** `next((f for f in files if f.lower() == name.lower()), None)`, from index `from` on. */
  function FirstCaseless(files: seq<string>, name: string, from: nat): (r: Option<nat>)
    requires from <= |files|
    ensures r.Some? ==> from <= r.value < |files| && Lower(files[r.value]) == Lower(name)
    ensures r.Some? ==> forall j :: from <= j < r.value ==> Lower(files[j]) != Lower(name)
    ensures r.None? ==> forall j :: from <= j < |files| ==> Lower(files[j]) != Lower(name)
    decreases |files| - from
  {
    if from == |files| then None
    else if Lower(files[from]) == Lower(name) then Some(from)
    else FirstCaseless(files, name, from + 1)
  }

  /**
   * Names that join to the directory itself or to its parent, which always
   * exist but which a listing never shows.
   */
  predicate NamesDirectory(name: string)
    ensures NamesDirectory(name) ==> |name| <= 2 && forall k :: 0 <= k < |name| ==> name[k] == '.'
  {
    name == "" || name == "." || name == ".."
  }

  /**
   * get_actual_filepath over the directory's listing: the name itself when
   * it exists, otherwise the first listed name equal to it up to case,
   * otherwise None. The directory prefix of the returned path is left out.
   */
  function GetActualFilepath(files: seq<string>, name: string): (r: Option<string>)
    ensures NamesDirectory(name) || name in files ==> r == Some(name)
    ensures r.None? <==> !NamesDirectory(name) && forall j :: 0 <= j < |files| ==> Lower(files[j]) != Lower(name)
    ensures !NamesDirectory(name) && name !in files && r.Some? ==>
              exists i :: 0 <= i < |files| && files[i] == r.value && Lower(r.value) == Lower(name) &&
                          forall j :: 0 <= j < i ==> Lower(files[j]) != Lower(name)
  {
    if NamesDirectory(name) || name in files then Some(name)
    else
      match FirstCaseless(files, name, 0)
      case Some(i) => Some(files[i])
      case None => None
  }
}
