/**
 * FolderSync (src/Wordpress/Deploy/FolderSync.php): validates the source and
 * destination paths, builds the rsync command line from its options, runs it
 * and reports progress as Status messages through an optional callback.
 *
 * Running a command is the external `exec`, given here as a function from the
 * command text to its output lines and exit code; `escapeshellcmd` is the
 * function `escape`; `time()` is `clock`, read once per Status built.
 */
module Deploy {
  import Php
  import opened Wrappers
  import opened FolderSyncOptions
  import opened FolderSyncStatus

  /** The exceptions the class throws. */
  datatype Exception = InvalidArgument(message: string) | RuntimeError(message: string)

  const SOURCE_NOT_SLASHED: string := "'source' must end with a backslash."
  const DEST_NOT_SLASHED: string := "'dest' must end with a backslash."
  const RSYNC_NOT_FOUND: string := "Could not find the 'rsync' command on your system."
  const SYNC_FAILED: string := "Something went wrong. Sync did not complete successfully."

  const WHICH_RSYNC: string := "which rsync"
  const BASE_COMMAND: string := "rsync"
  const BASE_OPTS: string := "--recursive --verbose --compress --links --no-g --no-o"
  const DELETE_OPTS: string := " --delete --force"

  /** What `exec` hands back: the output lines (no line holds a newline) and the exit code. */
  datatype ExecResult = ExecResult(output: seq<string>, ret: int)

  /** A constructed folder sync; its fields are set once, by New. */
  datatype FolderSync = FolderSync(source: string, dest: string, options: Options)

  // ---------------------------------------------------------------------------
  // Construction

  /** The documented path check: the path ends with a slash. */
  predicate EndsWithSlash(path: string) {
    |path| > 0 && path[|path| - 1] == '/'
  }

  /** PCRE's `^` without the multiline flag: only the start of the subject. */
  predicate SubjectStartAt(offset: int) {
    offset == 0
  }

  /**
   * The check as written, `preg_match(";/^;", path)`: the pattern is `/`
   * followed by `^`, so a match is a '/' at some offset i with the subject
   * start at offset i + 1.
   */
  predicate LiteralPatternMatches(path: string) {
    exists i :: 0 <= i < |path| && path[i] == '/' && SubjectStartAt(i + 1)
  }

  /**
   * The constructor, for a given path check: source is checked first, then
   * dest; on success both paths and the option map are stored unchanged.
   * The option map defaults to the empty array.
   */
  function New(source: string, dest: string, pathOk: string -> bool,
               options: map<string, Php.Value> := map[]): (r: Result<FolderSync, Exception>)
    ensures r.Success? <==> pathOk(source) && pathOk(dest)
    ensures r.Success? ==> r.value.source == source && r.value.dest == dest
                           && r.value.options.options == options
    ensures !pathOk(source) ==> r == Failure(InvalidArgument(SOURCE_NOT_SLASHED))
    ensures pathOk(source) && !pathOk(dest) ==> r == Failure(InvalidArgument(DEST_NOT_SLASHED))
  {
    if !pathOk(source) then Failure(InvalidArgument(SOURCE_NOT_SLASHED))
    else if !pathOk(dest) then Failure(InvalidArgument(DEST_NOT_SLASHED))
    else Success(FolderSync(source, dest, Options(options)))
  }

  /** With the documented check, construction succeeds exactly for two slash-terminated paths. */
  lemma DocumentedConstruction(source: string, dest: string, options: map<string, Php.Value>)
    ensures New(source, dest, EndsWithSlash, options).Success?
            <==> |source| > 0 && source[|source| - 1] == '/' && |dest| > 0 && dest[|dest| - 1] == '/'
    ensures New(source, dest, EndsWithSlash, options).Failure? ==>
              New(source, dest, EndsWithSlash, options).error.InvalidArgument?
  {
  }

  /** The folders the tests use, `<tmp>/source/` and `<tmp>/dest/`, are accepted. */
  lemma TestFoldersAccepted(tmp: string, options: map<string, Php.Value>)
    ensures New(tmp + "/source/", tmp + "/dest/", EndsWithSlash, options)
            == Success(FolderSync(tmp + "/source/", tmp + "/dest/", Options(options)))
  {
  }

  /** `new FolderSync($source, $dest)`, as the tests call it, stores an empty option map. */
  lemma DefaultOptionsAreEmpty(source: string, dest: string)
    requires EndsWithSlash(source) && EndsWithSlash(dest)
    ensures New(source, dest, EndsWithSlash) == Success(FolderSync(source, dest, Options(map[])))
    ensures New(source, dest, EndsWithSlash).value.options.ShouldDelete()
    ensures New(source, dest, EndsWithSlash).value.options.GetExclude().items == []
  {
  }

  /** The literal pattern matches no string at all. */
  lemma LiteralPatternNeverMatches(path: string)
    ensures !LiteralPatternMatches(path)
  {
  }

  /** With the check as written, every construction throws, the documented paths included. */
  lemma AsWrittenRejectsEveryPath(source: string, dest: string, options: map<string, Php.Value>)
    ensures New(source, dest, LiteralPatternMatches, options)
            == Failure(InvalidArgument(SOURCE_NOT_SLASHED))
  {
    LiteralPatternNeverMatches(source);
  }

  /** A concrete instance: the documented test folder is refused by the literal check. */
  lemma AsWrittenRejectsTestFolder()
    ensures EndsWithSlash("/tmp/source/")
    ensures New("/tmp/source/", "/tmp/dest/", LiteralPatternMatches).Failure?
  {
    LiteralPatternNeverMatches("/tmp/source/");
  }

  // ---------------------------------------------------------------------------
  // Command construction

  /** The text escapeshellcmd yields for one item (an array argument makes it return NULL, printed as ""). */
  function EscapedItem(item: Php.Value, escape: string -> string): string {
    if item.Arr? then "" else escape(Php.ScalarString(item))
  }

  /** One exclude segment, ` --exclude '<escaped pattern>'`. */
  function ExcludeSegment(item: Php.Value, escape: string -> string): string {
    " --exclude '" + EscapedItem(item, escape) + "'"
  }

  /** The exclude options, built as the loop builds them: one segment appended per pattern. */
  function ExcludeOpts(items: seq<Php.Value>, escape: string -> string): string {
    if |items| == 0 then ""
    else ExcludeOpts(items[..|items| - 1], escape) + ExcludeSegment(items[|items| - 1], escape)
  }

  /** Concatenation of a sequence of strings, front to back. */
  function Concat(parts: seq<string>): string {
    if |parts| == 0 then "" else parts[0] + Concat(parts[1..])
  }

  /** The segments of a list of patterns, one per pattern, in input order. */
  function Segments(items: seq<Php.Value>, escape: string -> string): (segs: seq<string>)
    ensures |segs| == |items|
    ensures forall k :: 0 <= k < |items| ==> segs[k] == ExcludeSegment(items[k], escape)
  {
    seq(|items|, k requires 0 <= k < |items| => ExcludeSegment(items[k], escape))
  }

  lemma {:induction false} ConcatAppend(a: seq<string>, b: seq<string>)
    ensures Concat(a + b) == Concat(a) + Concat(b)
    decreases |a|
  {
    if |a| > 0 {
      ConcatAppend(a[1..], b);
      assert (a + b)[0] == a[0];
      assert (a + b)[1..] == a[1..] + b;
    } else {
      assert a + b == b;
    }
  }

  /**
   * The exclude options are the segments of the patterns, concatenated in
   * input order; no patterns give the empty string.
   */
  lemma {:induction false} ExcludeOptsAreSegments(items: seq<Php.Value>, escape: string -> string)
    ensures ExcludeOpts(items, escape) == Concat(Segments(items, escape))
    decreases |items|
  {
    if |items| > 0 {
      var n := |items| - 1;
      ExcludeOptsAreSegments(items[..n], escape);
      assert Segments(items, escape) == Segments(items[..n], escape) + [ExcludeSegment(items[n], escape)];
      ConcatAppend(Segments(items[..n], escape), [ExcludeSegment(items[n], escape)]);
    }
  }

  /** Appending one pattern appends its segment. */
  lemma ExcludeOptsSnoc(items: seq<Php.Value>, x: Php.Value, escape: string -> string)
    ensures ExcludeOpts(items + [x], escape) == ExcludeOpts(items, escape) + ExcludeSegment(x, escape)
  {
    assert (items + [x])[..|items|] == items;
  }

  /** Concatenating two pattern lists concatenates their exclude options. */
  lemma {:induction false} ExcludeOptsAppend(a: seq<Php.Value>, b: seq<Php.Value>, escape: string -> string)
    ensures ExcludeOpts(a + b, escape) == ExcludeOpts(a, escape) + ExcludeOpts(b, escape)
    decreases |b|
  {
    if |b| == 0 {
      assert a + b == a;
    } else {
      var init, last := b[..|b| - 1], b[|b| - 1];
      assert b == init + [last];
      assert a + b == (a + init) + [last];
      ExcludeOptsAppend(a, init, escape);
      ExcludeOptsSnoc(a + init, last, escape);
      ExcludeOptsSnoc(init, last, escape);
      Associate(ExcludeOpts(a, escape), ExcludeOpts(init, escape), ExcludeSegment(last, escape));
    }
  }

  lemma Associate(x: string, y: string, z: string)
    ensures (x + y) + z == x + (y + z)
  {
  }

  /** `buildExclude`: append one segment per pattern of `getExclude()`. */
  method BuildExclude(options: Options, escape: string -> string) returns (exclude: string)
    ensures exclude == ExcludeOpts(options.GetExclude().items, escape)
  {
    var items := options.GetExclude().items;
    exclude := "";
    var i := 0;
    while i < |items|
      invariant 0 <= i <= |items|
      invariant exclude == ExcludeOpts(items[..i], escape)
    {
      assert items[..i + 1][..i] == items[..i];
      exclude := exclude + ExcludeSegment(items[i], escape);
      i := i + 1;
    }
    assert items[..i] == items;
  }

  /** The user options: the delete flags when deletion is on. */
  function UserOpts(options: Options): (u: string)
    ensures options.ShouldDelete() <==> u == DELETE_OPTS
    ensures !options.ShouldDelete() <==> u == ""
  {
    if options.ShouldDelete() then DELETE_OPTS else ""
  }

  /** The command text: six parts joined by single spaces, empty parts included. */
  function CommandLine(fs: FolderSync, escape: string -> string): string {
    BASE_COMMAND + " " + BASE_OPTS + " " + UserOpts(fs.options) + " "
    + ExcludeOpts(fs.options.GetExclude().items, escape) + " " + fs.source + " " + fs.dest
  }

  /** `buildCommand`. */
  method BuildCommand(fs: FolderSync, escape: string -> string) returns (command: string)
    ensures command == CommandLine(fs, escape)
  {
    var baseCommand := BASE_COMMAND;
    var baseOpts := BASE_OPTS;
    var excludeOpts := BuildExclude(fs.options, escape);
    var userOpts := "";
    if fs.options.ShouldDelete() {
      userOpts := userOpts + DELETE_OPTS;
    }
    command := baseCommand + " " + baseOpts + " " + userOpts + " " + excludeOpts
               + " " + fs.source + " " + fs.dest;
  }

  /** The command text, grouped as its fixed head, the option part and the two paths. */
  lemma CommandLineShape(fs: FolderSync, escape: string -> string)
    ensures CommandLine(fs, escape)
            == (BASE_COMMAND + " " + BASE_OPTS + " ")
               + (UserOpts(fs.options) + " " + ExcludeOpts(fs.options.GetExclude().items, escape))
               + (" " + fs.source + " " + fs.dest)
  {
  }

  /** The command starts with rsync and its fixed options, and ends with the two paths. */
  lemma CommandFrame(fs: FolderSync, escape: string -> string)
    ensures var c := CommandLine(fs, escape);
      var head := BASE_COMMAND + " " + BASE_OPTS + " ";
      var tail := " " + fs.source + " " + fs.dest;
      |c| >= |head| + |tail| && c[..|head|] == head && c[|c| - |tail|..] == tail
  {
    CommandLineShape(fs, escape);
  }

  /** Right after the fixed options comes ` --delete --force` when deleting, else a second space. */
  lemma CommandDeleteFlags(fs: FolderSync, escape: string -> string)
    ensures var c := CommandLine(fs, escape);
      var head := BASE_COMMAND + " " + BASE_OPTS + " ";
      if fs.options.ShouldDelete() then
        |c| > |head| + 17 && c[..|head| + 18] == head + " --delete --force "
      else
        |c| > |head| && c[..|head| + 1] == head + " "
  {
    CommandLineShape(fs, escape);
  }

  /** The command reads nothing but the two paths and the two accessors of the options. */
  lemma CommandDependsOnAccessors(fs1: FolderSync, fs2: FolderSync, escape: string -> string)
    requires fs1.source == fs2.source && fs1.dest == fs2.dest
    requires fs1.options.ShouldDelete() == fs2.options.ShouldDelete()
    requires fs1.options.GetExclude() == fs2.options.GetExclude()
    ensures CommandLine(fs1, escape) == CommandLine(fs2, escape)
  {
  }

  /** Default options: deletion on, no excludes, a doubled space before the source. */
  lemma DefaultCommand(source: string, dest: string, escape: string -> string)
    requires EndsWithSlash(source) && EndsWithSlash(dest)
    ensures New(source, dest, EndsWithSlash).Success?
    ensures CommandLine(New(source, dest, EndsWithSlash).value, escape)
            == BASE_COMMAND + " " + BASE_OPTS + "  --delete --force  " + source + " " + dest
  {
  }

  /** `delete => false`: no delete flags, so three spaces separate the options from the source. */
  lemma NoDeleteCommand(source: string, dest: string, escape: string -> string)
    requires EndsWithSlash(source) && EndsWithSlash(dest)
    ensures var r := New(source, dest, EndsWithSlash, map[DELETE_KEY := Php.Bool(false)]);
      r.Success? &&
      CommandLine(r.value, escape)
      == BASE_COMMAND + " " + BASE_OPTS + "   " + source + " " + dest
  {
  }

  /** `exclude => [p]`: one escaped, quoted segment after the delete flags. */
  lemma ExcludeOneCommand(source: string, dest: string, p: string, escape: string -> string)
    requires EndsWithSlash(source) && EndsWithSlash(dest)
    ensures var r := New(source, dest, EndsWithSlash, map[EXCLUDE_KEY := Php.Arr([Php.Str(p)])]);
      r.Success? &&
      CommandLine(r.value, escape)
      == BASE_COMMAND + " " + BASE_OPTS + "  --delete --force  --exclude '" + escape(p) + "' "
         + source + " " + dest
  {
    var m := map[EXCLUDE_KEY := Php.Arr([Php.Str(p)])];
    var fs := FolderSync(source, dest, Options(m));
    var items := [Php.Str(p)];
    assert fs.options.ShouldDelete();
    assert fs.options.GetExclude().items == items;
    var seg := " --exclude '" + escape(p) + "'";
    assert ExcludeOpts(items, escape) == seg by {
      assert items[..0] == [];
      assert ExcludeSegment(Php.Str(p), escape) == seg;
    }
    assert CommandLine(fs, escape)
           == BASE_COMMAND + " " + BASE_OPTS + " " + DELETE_OPTS + " " + seg + " " + source + " " + dest;
    ExcludeLayout(BASE_COMMAND + " " + BASE_OPTS, escape(p), source, dest);
  }

  lemma ExcludeLayout(h: string, e: string, source: string, dest: string)
    ensures h + " " + DELETE_OPTS + " " + (" --exclude '" + e + "'") + " " + source + " " + dest
            == h + "  --delete --force  --exclude '" + e + "' " + source + " " + dest
  {
  }

  // ---------------------------------------------------------------------------
  // Running a sync and reporting its progress

  /** The notice sent before the command runs. */
  function SyncingMessage(fs: FolderSync): string {
    "Syncing source (" + fs.source + ") to destination (" + fs.dest + ")"
  }

  /**
   * `ensureRsyncCommand`: runs `which rsync` and throws when its exit code
   * is falsy, that is 0. (An exit code of 0 is what `which` returns when it
   * finds the program; the check is kept as written.)
   */
  function EnsureRsyncCommand(exec: string -> ExecResult): (r: Option<Exception>)
    ensures r.Some? <==> exec(WHICH_RSYNC).ret == 0
    ensures r.Some? ==> r.value == RuntimeError(RSYNC_NOT_FOUND)
  {
    if exec(WHICH_RSYNC).ret == 0 then Some(RuntimeError(RSYNC_NOT_FOUND)) else None
  }

  /** Everything one call of `sync` delivers: the statuses, in order, and its outcome. */
  datatype SyncReport = SyncReport(events: seq<Status>, result: Result<bool, Exception>)

  /** The specification of `sync`, written as the sequence of statuses it builds. */
  function SyncSpec(fs: FolderSync, exec: string -> ExecResult, escape: string -> string,
                    clock: nat -> int): SyncReport
  {
    match EnsureRsyncCommand(exec)
    case Some(e) => SyncReport([], Failure(e))
    case None =>
      var run := exec(CommandLine(fs, escape));
      var notice := NewStatus(SyncingMessage(fs), clock(0));
      var raw := NewStatus(Php.JoinLines(run.output), clock(1), MT_RAW_OUTPUT);
      if run.ret == 0 then
        SyncReport([notice, raw, NewStatus(SYNC_FAILED, clock(2), MT_ERROR)], Success(false))
      else
        SyncReport([notice, raw], Success(true))
  }

  /** The receiving end of the status callback: it records every status it is called with. */
  class StatusRecorder {
    var received: seq<Status>

    constructor ()
      ensures received == []
    {
      received := [];
    }

    /** One invocation of the callback. */
    method Call(st: Status)
      modifies this
      ensures received == old(received) + [st]
    {
      received := received + [st];
    }
  }

  /** `doStatusCallback`: deliver the status when there is a callback, else drop it. */
  method DoStatusCallback(st: Status, callback: StatusRecorder?)
    modifies callback
    ensures callback != null ==> callback.received == old(callback.received) + [st]
  {
    if callback == null {
      return;
    }
    callback.Call(st);
  }

  /**
   * `sync`: check for rsync, announce, run the command, pass on its output,
   * report a falsy exit code as an error, and return the exit code as a bool.
   * With no callback nothing is delivered.
   */
  method Sync(fs: FolderSync, callback: StatusRecorder?, exec: string -> ExecResult,
              escape: string -> string, clock: nat -> int) returns (r: Result<bool, Exception>)
    modifies callback
    ensures r == SyncSpec(fs, exec, escape, clock).result
    ensures callback != null ==>
              callback.received == old(callback.received) + SyncSpec(fs, exec, escape, clock).events
  {
    var missing := EnsureRsyncCommand(exec);
    if missing.Some? {
      return Failure(missing.value);
    }

    DoStatusCallback(NewStatus(SyncingMessage(fs), clock(0)), callback);

    var command := BuildCommand(fs, escape);
    var run := exec(command);

    DoStatusCallback(NewStatus(Php.JoinLines(run.output), clock(1), MT_RAW_OUTPUT), callback);

    if run.ret == 0 {
      DoStatusCallback(NewStatus(SYNC_FAILED, clock(2), MT_ERROR), callback);
    }

    r := Success(run.ret != 0);
  }

  // ---------------------------------------------------------------------------
  // Properties of the reporting protocol

  /** When `which rsync` exits with 0 the call throws before anything is delivered. */
  lemma SyncThrowsOnFalsyWhich(fs: FolderSync, exec: string -> ExecResult,
                               escape: string -> string, clock: nat -> int)
    ensures var rep := SyncSpec(fs, exec, escape, clock);
      rep.result.Failure? <==> exec(WHICH_RSYNC).ret == 0
    ensures var rep := SyncSpec(fs, exec, escape, clock);
      rep.result.Failure? ==> rep.result.error == RuntimeError(RSYNC_NOT_FOUND) && rep.events == []
  {
  }

  /**
   * Otherwise: a notice naming both paths, then the raw output joined by
   * newlines, then one error exactly when the exit code is 0; nothing else.
   */
  lemma SyncEmitsInOrder(fs: FolderSync, exec: string -> ExecResult,
                         escape: string -> string, clock: nat -> int)
    requires exec(WHICH_RSYNC).ret != 0
    ensures var rep := SyncSpec(fs, exec, escape, clock);
      var run := exec(CommandLine(fs, escape));
      && |rep.events| == (if run.ret == 0 then 3 else 2)
      && rep.events[0].IsNotice() && !rep.events[0].IsError()
      && rep.events[0].message == "Syncing source (" + fs.source + ") to destination (" + fs.dest + ")"
      && rep.events[1].IsRawOutput() && !rep.events[1].IsError()
      && rep.events[1].message == Php.JoinLines(run.output)
      && (run.ret == 0 ==> rep.events[2].IsError() && rep.events[2].message == SYNC_FAILED)
      && (forall k :: 0 <= k < |rep.events| ==> rep.events[k].timestamp == clock(k))
  {
    ConstantsClassified(SyncingMessage(fs), clock(0));
  }

  /** The result is the exit code read as a bool, and an error is delivered exactly when it is false. */
  lemma SyncErrorIffFalse(fs: FolderSync, exec: string -> ExecResult,
                          escape: string -> string, clock: nat -> int)
    requires exec(WHICH_RSYNC).ret != 0
    ensures var rep := SyncSpec(fs, exec, escape, clock);
      rep.result == Success(exec(CommandLine(fs, escape)).ret != 0)
    ensures var rep := SyncSpec(fs, exec, escape, clock);
      (exists k :: 0 <= k < |rep.events| && rep.events[k].IsError()) <==> rep.result == Success(false)
  {
    var rep := SyncSpec(fs, exec, escape, clock);
    SyncEmitsInOrder(fs, exec, escape, clock);
    if rep.result == Success(false) {
      assert rep.events[2].IsError();
    }
  }

  /** Every delivered status carries one of the four tags, so exactly one predicate holds of it. */
  lemma SyncEventsClassified(fs: FolderSync, exec: string -> ExecResult,
                             escape: string -> string, clock: nat -> int)
    ensures var rep := SyncSpec(fs, exec, escape, clock);
      forall k :: 0 <= k < |rep.events| ==> PredicatesHolding(rep.events[k]) == 1
  {
    var rep := SyncSpec(fs, exec, escape, clock);
    forall k | 0 <= k < |rep.events| ensures PredicatesHolding(rep.events[k]) == 1 {
      PredicatesPartitionTags(rep.events[k]);
    }
  }

  /** The raw-output message gives back the output lines when there is at least one. */
  lemma RawOutputGivesBackLines(fs: FolderSync, exec: string -> ExecResult,
                                escape: string -> string, clock: nat -> int)
    requires exec(WHICH_RSYNC).ret != 0
    requires var run := exec(CommandLine(fs, escape));
      run.output != [] && forall k :: 0 <= k < |run.output| ==> '\n' !in run.output[k]
    ensures Php.SplitLines(SyncSpec(fs, exec, escape, clock).events[1].message)
            == exec(CommandLine(fs, escape)).output
  {
    Php.SplitJoinLines(exec(CommandLine(fs, escape)).output);
  }
}
