/**
 * Options (src/Wordpress/Deploy/FolderSync/Options.php): a read-only view
 * over the loosely typed option map given to the folder sync. Two keys are
 * read, `delete` (a boolean, default true) and `exclude` (an array, default
 * empty); every other key is ignored.
 */
module FolderSyncOptions {
  import Php

  const DELETE_KEY: string := "delete"
  const EXCLUDE_KEY: string := "exclude"

  /** The map is stored as given and never changed afterwards. */
  datatype Options = Options(options: map<string, Php.Value>) {

    /** `getBoolOption`: the default when the key is unset, else the value loosely compared with true. */
    function GetBoolOption(option: string, defaultVal: bool): (r: bool)
      ensures !Php.Isset(options, option) ==> r == defaultVal
      ensures Php.Isset(options, option) ==> (r <==> Php.Truthy(options[option]))
    {
      if !Php.Isset(options, option) then defaultVal
      else Php.LooseEqualsTrue(options[option])
    }

    /** `getArrayOption`: the stored value when it is set and an array, else the empty array. */
    function GetArrayOption(option: string): (r: Php.Value)
      ensures Php.IsArray(r)
      ensures Php.Isset(options, option) && Php.IsArray(options[option]) ==> r == options[option]
      ensures !(Php.Isset(options, option) && Php.IsArray(options[option])) ==> r.items == []
    {
      if Php.Isset(options, option) && Php.IsArray(options[option]) then options[option]
      else Php.Arr([])
    }

    /** Delete-on-sync: true unless `delete` is set to a falsy value. */
    function ShouldDelete(): (r: bool)
      ensures r <==> !(DELETE_KEY in options) || options[DELETE_KEY] == Php.Null
                     || Php.Truthy(options[DELETE_KEY])
    {
      GetBoolOption(DELETE_KEY, true)
    }

    /** The exclude patterns: the stored array, or the empty array. */
    function GetExclude(): (r: Php.Value)
      ensures Php.IsArray(r)
      ensures EXCLUDE_KEY in options && options[EXCLUDE_KEY].Arr? ==> r == options[EXCLUDE_KEY]
      ensures !(EXCLUDE_KEY in options && options[EXCLUDE_KEY].Arr?) ==> r == Php.Arr([])
    {
      GetArrayOption(EXCLUDE_KEY)
    }
  }

  /** An absent or null `delete` means delete-on-sync. */
  lemma ShouldDeleteByDefault(m: map<string, Php.Value>)
    requires DELETE_KEY !in m || m[DELETE_KEY] == Php.Null
    ensures Options(m).ShouldDelete()
  {
  }

  /** A set `delete` is read by PHP truthiness: false, 0, "", "0" and [] switch deletion off. */
  lemma ShouldDeleteWhenSet(m: map<string, Php.Value>)
    requires Php.Isset(m, DELETE_KEY)
    ensures Options(m).ShouldDelete() == Php.LooseEqualsTrue(m[DELETE_KEY])
    ensures !Options(m).ShouldDelete() <==>
              m[DELETE_KEY] in {Php.Bool(false), Php.Int(0), Php.Str(""), Php.Str("0"), Php.Arr([])}
  {
    Php.LooseEqualsTrueIsTruthiness(m[DELETE_KEY]);
  }

  /** A set array under `exclude` is returned unchanged, so its patterns keep their order. */
  lemma GetExcludeKeepsStoredArray(m: map<string, Php.Value>, patterns: seq<Php.Value>)
    requires EXCLUDE_KEY in m && m[EXCLUDE_KEY] == Php.Arr(patterns)
    ensures Options(m).GetExclude().items == patterns
  {
  }

  /** An absent, null or non-array `exclude` gives no patterns. */
  lemma GetExcludeDefaultsToEmpty(m: map<string, Php.Value>)
    requires EXCLUDE_KEY !in m || !Php.IsArray(m[EXCLUDE_KEY])
    ensures Options(m).GetExclude().items == []
  {
  }

  /** Keys other than `delete` and `exclude` have no effect on either accessor. */
  lemma OtherKeysIgnored(m: map<string, Php.Value>, k: string, v: Php.Value)
    requires k != DELETE_KEY && k != EXCLUDE_KEY
    ensures Options(m[k := v]).ShouldDelete() == Options(m).ShouldDelete()
    ensures Options(m[k := v]).GetExclude() == Options(m).GetExclude()
    ensures Options(m - {k}).ShouldDelete() == Options(m).ShouldDelete()
    ensures Options(m - {k}).GetExclude() == Options(m).GetExclude()
  {
  }

  /** Two maps that agree on `delete` and on `exclude` give the same accessor results. */
  lemma OnlyTwoKeysMatter(m1: map<string, Php.Value>, m2: map<string, Php.Value>)
    requires DELETE_KEY in m1 <==> DELETE_KEY in m2
    requires DELETE_KEY in m1 ==> m1[DELETE_KEY] == m2[DELETE_KEY]
    requires EXCLUDE_KEY in m1 <==> EXCLUDE_KEY in m2
    requires EXCLUDE_KEY in m1 ==> m1[EXCLUDE_KEY] == m2[EXCLUDE_KEY]
    ensures Options(m1).ShouldDelete() == Options(m2).ShouldDelete()
    ensures Options(m1).GetExclude() == Options(m2).GetExclude()
  {
  }
}
