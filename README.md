# wp-deploy-folder-sync, modelled in Dafny

The repository wraps `rsync` in a small PHP class, `Wordpress\Deploy\FolderSync`.
The class checks a source and a destination path. It reads two options (`delete`
and `exclude`) from a loosely typed array, builds one rsync command line and runs
it. It then reports progress to an optional callback as `Status` messages and
returns a boolean.

This project models that class and its two helpers:

- `wrappers.dfy`, module `Wrappers`: `Option` and `Result`.
- `php.dfy`, module `Php`: the PHP value semantics the code relies on. This covers
  truthiness, loose `== true`, `isset`, `is_array`, `empty` on a string, string
  conversion of scalars, and `implode("\n", ...)` together with its inverse.
- `options.dfy`, module `FolderSyncOptions`: `Options`, a datatype over the stored
  map with the accessors `shouldDelete` and `getExclude`. The accessors are
  functions of the stored map, so they cannot change it.
- `status.dfy`, module `FolderSyncStatus`: `Status`, an immutable datatype with the
  four `MT_*` tags and the four classification predicates.
- `deploy.dfy`, module `Deploy`: `FolderSync`.
  - The constructor is a function that returns `Result<FolderSync, Exception>`.
    It takes the path check as a predicate parameter.
  - The command builder comes in two forms. The functions `ExcludeOpts` and
    `CommandLine` give the specification; being functions of the paths, the
    options and `escape`, they are deterministic. The methods `BuildExclude` (the loop)
    and `BuildCommand` are proved equal to them.
  - `sync` is a method that appends every delivered status to a `StatusRecorder`,
    the object behind the callback. It is proved against the function `SyncSpec`.
  - Lemmas state the reporting protocol about `SyncSpec`.

External effects become parameters:

- `exec` is a function from command text to `ExecResult(output, ret)`. It is
  applied to `"which rsync"` and to the built command.
- `escapeshellcmd` is an uninterpreted `escape: string -> string`.
- `time()` is `clock: nat -> int`. Reading k gives the timestamp of the k-th
  status built in one call.

Two places where the code and its documentation disagree:

- **Path check.** The doc comment (FolderSync.php:35-36) and the test folders
  (SyncTest.php:29-32) require paths that end in `/`. The code tests
  `preg_match(";/^;", ...)` instead. That pattern is `/` followed by the
  start-of-subject anchor, and it matches nothing. The model follows the code
  (`LiteralPatternMatches`, `AsWrittenRejectsEveryPath`). It also proves the
  documented check (`EndsWithSlash`, `DocumentedConstruction`), and the command
  lemmas use that documented check. See "## Findings".
- **Exit codes.** `ensureRsyncCommand` throws when `which rsync` exits with 0, and
  0 is what `which` returns when it finds the program. `sync` returns
  `boolval($ret)`, so an rsync that exits with 0 counts as a failure and triggers
  the Error status. This is the reverse of the usual exit-code convention, and the
  tests expect the opposite. The model keeps the code's convention on purpose:
  `EnsureRsyncCommand`, `SyncSpec` and the lemmas about them state it as written.

## Model

| member | source | states |
|---|---|---|
| Php.LooseEqualsTrueIsTruthiness | src/Wordpress/Deploy/FolderSync/Options.php:25 | `$v == true` holds exactly for truthy values, so it fails exactly for null, false, 0, "", "0" and the empty array |
| Php.Truthy | src/Wordpress/Deploy/FolderSync/Options.php:25 | PHP's conversion to bool: null, false, 0, "" and "0" and the empty array are false, every other modelled value is true |
| Php.LooseEqualsTrue | src/Wordpress/Deploy/FolderSync/Options.php:25 | `$v == true`: a bool is compared as it is, any other value after conversion to bool |
| Php.Isset | src/Wordpress/Deploy/FolderSync/Options.php:24 | `isset($m[$k])`: the key is present and its value is not null |
| Php.IsArray | src/Wordpress/Deploy/FolderSync/Options.php:29 | `is_array($v)`: the value is an array |
| Php.EmptyString | src/Wordpress/Deploy/FolderSync/Status.php:39 | `empty($s)` on a string: the string is "" or "0" |
| Php.ScalarString | src/Wordpress/Deploy/FolderSync.php:123 | converts an exclude item to the string escapeshellcmd receives: a string stays unchanged, and exactly null, false and "" become "" |
| Php.NatStringValue | src/Wordpress/Deploy/FolderSync.php:123 | the decimal text of a non-negative integer item reads back as the same number |
| Php.ScalarStringIntValue | src/Wordpress/Deploy/FolderSync.php:123 | an integer item becomes its decimal text: the digits alone for a non-negative one, a '-' followed by the digits of its magnitude for a negative one, and the digits read back as that magnitude |
| Php.JoinLines | src/Wordpress/Deploy/FolderSync.php:75 | `implode("\n", $output)`: the lines with one newline between neighbours; no lines give "" and one line gives itself |
| Php.SplitJoinLines | src/Wordpress/Deploy/FolderSync.php:75 | splitting `implode("\n", lines)` at newlines gives back the lines, when there is at least one line and no line holds a newline |
| Php.JoinSplitLines | src/Wordpress/Deploy/FolderSync.php:75 | joining the split pieces of any string gives back that string |
| FolderSyncStatus.NewStatus | src/Wordpress/Deploy/FolderSync/Status.php:24-28 | the constructor stores the message, the timestamp and the tag unchanged; the tag defaults to "notice" |
| FolderSyncStatus.Status.IsError | src/Wordpress/Deploy/FolderSync/Status.php:30-32 | the tag equals "error" |
| FolderSyncStatus.Status.IsWarning | src/Wordpress/Deploy/FolderSync/Status.php:34-36 | the tag equals "warning" |
| FolderSyncStatus.Status.IsNotice | src/Wordpress/Deploy/FolderSync/Status.php:38-40 | the tag is empty in PHP's sense ("" or "0") or equals "notice" |
| FolderSyncStatus.Status.IsRawOutput | src/Wordpress/Deploy/FolderSync/Status.php:42-44 | the tag equals "output" |
| FolderSyncStatus.KindOf | src/Wordpress/Deploy/FolderSync/Status.php:19-22 | reads a tag as one of the four kinds; only a non-empty tag can be unknown |
| FolderSyncStatus.PredicatesFollowKind | src/Wordpress/Deploy/FolderSync/Status.php:30-44 | isError, isWarning and isRawOutput hold iff the tag is "error", "warning" or "output"; isNotice holds iff the tag is empty or "notice" |
| FolderSyncStatus.PredicatesPartitionTags | src/Wordpress/Deploy/FolderSync/Status.php:19-44 | a recognised tag satisfies exactly one of the four predicates, and any other tag satisfies none |
| FolderSyncStatus.ConstantsClassified | src/Wordpress/Deploy/FolderSync/Status.php:19-44 | for each MT_* constant, exactly its own predicate holds |
| FolderSyncStatus.UnknownTagMatchesNothing | src/Wordpress/Deploy/FolderSync/Status.php:30-44 | a non-empty tag outside the four constants makes all four predicates false |
| FolderSyncOptions.Options.GetBoolOption | src/Wordpress/Deploy/FolderSync/Options.php:23-26 | an unset key gives the default; a set key gives the PHP truthiness of its value |
| FolderSyncOptions.Options.GetArrayOption | src/Wordpress/Deploy/FolderSync/Options.php:28-31 | the result is always an array: the stored value when it is set and an array, otherwise the empty array |
| FolderSyncOptions.Options.ShouldDelete | src/Wordpress/Deploy/FolderSync/Options.php:15-17 | true exactly when `delete` is absent, null or truthy |
| FolderSyncOptions.Options.GetExclude | src/Wordpress/Deploy/FolderSync/Options.php:19-21 | the stored `exclude` array when there is one, otherwise the empty array |
| FolderSyncOptions.ShouldDeleteByDefault | src/Wordpress/Deploy/FolderSync/Options.php:15-24 | an absent or null `delete` means delete-on-sync |
| FolderSyncOptions.ShouldDeleteWhenSet | src/Wordpress/Deploy/FolderSync/Options.php:23-25 | a set `delete` is read as `value == true`; deletion is off exactly for false, 0, "", "0" and [] |
| FolderSyncOptions.GetExcludeKeepsStoredArray | src/Wordpress/Deploy/FolderSync/Options.php:19-29 | a stored exclude array comes back with the same patterns in the same order |
| FolderSyncOptions.GetExcludeDefaultsToEmpty | src/Wordpress/Deploy/FolderSync/Options.php:28-30 | an absent, null or non-array `exclude` gives no patterns |
| FolderSyncOptions.OtherKeysIgnored | src/Wordpress/Deploy/FolderSync/Options.php:11-31 | adding, changing or removing any key other than `delete` and `exclude` changes neither accessor |
| FolderSyncOptions.OnlyTwoKeysMatter | src/Wordpress/Deploy/FolderSync/Options.php:11-31 | any two maps that agree on `delete` and on `exclude` give the same `shouldDelete()` and `getExclude()` |
| Deploy.New | src/Wordpress/Deploy/FolderSync.php:40-48 | construction succeeds iff both paths pass the check; on success the paths and the option map (default: empty) are stored unchanged; otherwise InvalidArgument, reporting the source path first |
| Deploy.EndsWithSlash | src/Wordpress/Deploy/FolderSync.php:35-36 | the documented path check: the path is non-empty and its last character is '/' |
| Deploy.LiteralPatternMatches | src/Wordpress/Deploy/FolderSync.php:42-43 | the check as written: some '/' in the path is immediately followed by the start of the subject |
| Deploy.DocumentedConstruction | src/Wordpress/Deploy/FolderSync.php:35-36 | with the documented check, construction succeeds exactly when both paths are non-empty and end in '/'; every failure is InvalidArgument |
| Deploy.TestFoldersAccepted | tests/Wordpress/Deploy/SyncTest.php:29-32 | the test folders `<tmp>/source/` and `<tmp>/dest/` are accepted and stored unchanged |
| Deploy.DefaultOptionsAreEmpty | tests/Wordpress/Deploy/SyncTest.php:91 | `new FolderSync($source, $dest)` without options stores the empty map, so deletion is on and there are no excludes |
| Deploy.LiteralPatternNeverMatches | src/Wordpress/Deploy/FolderSync.php:42-43 | the pattern `/^` matches no string at all |
| Deploy.AsWrittenRejectsEveryPath | src/Wordpress/Deploy/FolderSync.php:42-43 | with the check as written, every construction fails with the source InvalidArgument |
| Deploy.AsWrittenRejectsTestFolder | src/Wordpress/Deploy/FolderSync.php:42 | a slash-terminated folder like the tests' is refused by the check as written |
| Deploy.EscapedItem | src/Wordpress/Deploy/FolderSync.php:123 | the text `escapeshellcmd($excludeItem)` yields: the escape of the item's string conversion, or "" for an array item |
| Deploy.ExcludeSegment | src/Wordpress/Deploy/FolderSync.php:123 | one ` --exclude '<escaped item>'` segment, as the sprintf writes it |
| Deploy.ExcludeOpts | src/Wordpress/Deploy/FolderSync.php:119-127 | the exclude options as the loop builds them: "" extended by one segment per item, in order |
| Deploy.ExcludeOptsAreSegments | src/Wordpress/Deploy/FolderSync.php:119-127 | the exclude options are one ` --exclude '<escaped>'` segment per pattern, concatenated in input order; no patterns give "" |
| Deploy.ExcludeOptsAppend | src/Wordpress/Deploy/FolderSync.php:119-127 | the exclude options of two concatenated pattern lists are the concatenation of their exclude options |
| Deploy.BuildExclude | src/Wordpress/Deploy/FolderSync.php:119-127 | the loop yields exactly the exclude options of `getExclude()` |
| Deploy.UserOpts | src/Wordpress/Deploy/FolderSync.php:112-114 | the user options are " --delete --force" exactly when deletion is on, and "" exactly when it is off |
| Deploy.BuildCommand | src/Wordpress/Deploy/FolderSync.php:108-117 | the method yields exactly the command text of `CommandLine` |
| Deploy.CommandLine | src/Wordpress/Deploy/FolderSync.php:116 | the command text: "rsync", the fixed options, the user options, the exclude options, source and dest, joined by single spaces with empty parts kept |
| Deploy.CommandLineShape | src/Wordpress/Deploy/FolderSync.php:116 | the command is the fixed head, then the user options, a space and the exclude options, then " source dest", with no whitespace normalisation |
| Deploy.CommandFrame | src/Wordpress/Deploy/FolderSync.php:109-116 | the command starts with "rsync", its six fixed options and a space, and ends with " " + source + " " + dest |
| Deploy.CommandDeleteFlags | src/Wordpress/Deploy/FolderSync.php:112-116 | right after the fixed options comes " --delete --force " when deleting, and otherwise a second space |
| Deploy.CommandDependsOnAccessors | src/Wordpress/Deploy/FolderSync.php:108-117 | the command depends only on the two paths, `shouldDelete()` and `getExclude()` |
| Deploy.DefaultCommand | src/Wordpress/Deploy/FolderSync.php:108-116 | with default options the command is the fixed head, "  --delete --force  ", then source, a space and dest, doubled spaces included |
| Deploy.NoDeleteCommand | src/Wordpress/Deploy/FolderSync.php:108-116 | with `delete => false` the fixed options are followed by three spaces and then the paths |
| Deploy.ExcludeOneCommand | src/Wordpress/Deploy/FolderSync.php:108-127 | with `exclude => [p]` the command holds " --exclude '" + escape(p) + "'" between the delete flags and the paths |
| Deploy.EnsureRsyncCommand | src/Wordpress/Deploy/FolderSync.php:94-101 | throws RuntimeError("Could not find the 'rsync' command on your system.") exactly when `which rsync` exits with 0 |
| Deploy.StatusRecorder.Call | tests/Wordpress/Deploy/SyncTest.php:139-142 | one invocation of the callback appends its status to what was received |
| Deploy.DoStatusCallback | src/Wordpress/Deploy/FolderSync.php:103-106 | with a callback the status is appended to what it received; without one, nothing is changed |
| Deploy.Sync | src/Wordpress/Deploy/FolderSync.php:55-89 | the result and the statuses appended to the callback are those of `SyncSpec`; without a callback nothing is delivered |
| Deploy.SyncingMessage | src/Wordpress/Deploy/FolderSync.php:63 | the notice text "Syncing source (S) to destination (D)" |
| Deploy.SyncSpec | src/Wordpress/Deploy/FolderSync.php:55-89 | what one call of sync delivers and returns: nothing and the RuntimeError when `which rsync` exits with 0 (its success code, which `!$ret` reads as falsy); otherwise the Notice, the RawOutput and, for exit code 0, the Error, with result `ret != 0` |
| Deploy.SyncThrowsOnFalsyWhich | src/Wordpress/Deploy/FolderSync.php:56 | the call throws the RuntimeError exactly when `which rsync` exits with 0, and then has delivered no status |
| Deploy.SyncEmitsInOrder | src/Wordpress/Deploy/FolderSync.php:62-86 | otherwise it delivers a Notice "Syncing source (S) to destination (D)", then a RawOutput of the output lines joined by newlines, then exactly one Error when the exit code is 0, and nothing else; the k-th status carries the k-th clock reading |
| Deploy.SyncErrorIffFalse | src/Wordpress/Deploy/FolderSync.php:82-88 | the result is `ret != 0`, and an Error status is delivered exactly when the result is false |
| Deploy.SyncEventsClassified | src/Wordpress/Deploy/FolderSync.php:62-86 | exactly one classification predicate holds of every delivered status |
| Deploy.RawOutputGivesBackLines | src/Wordpress/Deploy/FolderSync.php:68-76 | the RawOutput message splits back into the exact output lines when there is at least one |

## Left out

- Running programs. `exec` of rsync and of `which rsync` is a parameter. It is a function from the command text to its output lines and exit code. The model says nothing about what rsync does to the file system, so the file-presence checks of the tests are not modelled.
- `escapeshellcmd`. Its internals are not modelled, because it is a PHP library function. It is the uninterpreted parameter `escape`, and nothing is claimed about shell-injection safety.
- PHP's regular-expression engine. The path check is a string predicate. `LiteralPatternMatches` encodes what the one pattern `/^` means.
- `time()`. Timestamps come from the `clock` parameter.
- Exceptions. They are values: a `Result` from `New` and from `Sync`, and an `Option` from `EnsureRsyncCommand`.
- Engine type errors. The model treats a missing callback as the early return on FolderSync.php:104 intends. It does not model PHP's TypeError for passing null where a `\Closure` is declared.
- Non-scalar exclude items. An array item is modelled as PHP 5/7 handle it: escapeshellcmd refuses the argument and returns NULL, which prints as an empty pattern. PHP 8's TypeError is not modelled.
- Floats. `Php.Value` has no float case.
- Array keys. Option maps are modelled with string keys only. The keys inside the exclude array are not modelled; its values keep their order.
- Numeric strings. The message type is modelled as a string. Loose `==` against the four non-numeric constants then reduces to string identity. PHP compares two strings as numbers only when both are numeric.
- Callback identity, closures in general, and test set-up and tear-down.

## Findings

| source | as written | input that shows it | evidently intended | confidence | as-written member | corrected member |
|---|---|---|---|---|---|---|
| src/Wordpress/Deploy/FolderSync.php:42-43 | `preg_match(";/^;", $path)`: the pattern `/` followed by `^`, which cannot match after a consumed character, so every path is refused | `new FolderSync("/tmp/source/", "/tmp/dest/")` throws InvalidArgument | accept exactly the paths that end in `/` (FolderSync.php:35-36, SyncTest.php:29-32) | high; not executed | Deploy.AsWrittenRejectsEveryPath | Deploy.DocumentedConstruction |
