/**
 * The slice of PHP's value semantics that the folder-sync core relies on:
 * loosely typed values, boolean conversion (truthiness), `isset` on an array
 * element, `is_array`, `empty` on a string, string conversion of scalars and
 * `implode("\n", ...)`.
 */
module Php {

  /** A PHP value, as far as option maps and their entries need it. */
  datatype Value =
    | Null
    | Bool(b: bool)
    | Int(i: int)
    | Str(s: string)
    | Arr(items: seq<Value>)

  /** PHP's conversion to bool: null, false, 0, "", "0" and the empty array are falsy. */
  predicate Truthy(v: Value) {
    match v
    case Null => false
    case Bool(b) => b
    case Int(i) => i != 0
    case Str(s) => s != "" && s != "0"
    case Arr(items) => |items| != 0
  }

  /**
   * Loose comparison `v == true`. When one operand is a bool, PHP converts
   * the other one to bool and compares the two booleans.
   */
  predicate LooseEqualsTrue(v: Value) {
    match v
    case Bool(b) => b == true
    case _ => Truthy(v) == true
  }

  lemma LooseEqualsTrueIsTruthiness(v: Value)
    ensures LooseEqualsTrue(v) <==> Truthy(v)
    ensures LooseEqualsTrue(v) <==>
              v != Null && v != Bool(false) && v != Int(0) && v != Str("") && v != Str("0") && v != Arr([])
  {
  }

  /** `isset($m[$k])`: the key is present and its value is not null. */
  predicate Isset(m: map<string, Value>, k: string) {
    k in m && m[k] != Null
  }

  /** `is_array($v)`. */
  predicate IsArray(v: Value) {
    v.Arr?
  }

  /** `empty($s)` for a string operand: "" and "0" are empty. */
  predicate EmptyString(s: string) {
    s == "" || s == "0"
  }

  /** The character of a decimal digit. */
  function DigitChar(d: nat): (c: char)
    requires d < 10
    ensures '0' <= c <= '9'
  {
    "0123456789"[d]
  }

  /** Decimal notation of a natural number, without leading zeros. */
  function NatString(n: nat): (s: string)
    ensures |s| > 0
    ensures forall k :: 0 <= k < |s| ==> '0' <= s[k] <= '9'
    ensures n >= 10 ==> s[0] != '0'
    decreases n
  {
    if n < 10 then [DigitChar(n)] else NatString(n / 10) + [DigitChar(n % 10)]
  }

  /** The value of a string of decimal digits. */
  function DigitsValue(s: string): nat
    requires forall k :: 0 <= k < |s| ==> '0' <= s[k] <= '9'
  {
    if |s| == 0 then 0 else 10 * DigitsValue(s[..|s| - 1]) + (s[|s| - 1] as int - '0' as int)
  }

  /** Decimal notation is read back as the number it was written from. */
  lemma {:induction false} NatStringValue(n: nat)
    ensures DigitsValue(NatString(n)) == n
    decreases n
  {
    if n >= 10 {
      NatStringValue(n / 10);
      var s := NatString(n);
      assert s[..|s| - 1] == NatString(n / 10);
    }
  }

  /** PHP's conversion of a scalar to string (`true` is "1", `false` and null are ""). */
  function ScalarString(v: Value): (s: string)
    requires !v.Arr?
    ensures v.Str? ==> s == v.s
    ensures s == "" <==> v == Null || v == Bool(false) || v == Str("")
  {
    match v
    case Null => ""
    case Bool(b) => if b then "1" else ""
    case Int(i) => if i < 0 then "-" + NatString(-i) else NatString(i)
    case Str(s) => s
  }

  /**
   * The string of an integer item is its decimal notation, with a leading '-'
   * when it is negative, and the digits read back as the number's magnitude.
   */
  lemma ScalarStringIntValue(i: int)
    ensures i >= 0 ==> ScalarString(Int(i)) == NatString(i) && DigitsValue(ScalarString(Int(i))) == i
    ensures i < 0 ==> var s := ScalarString(Int(i));
              |s| > 1 && s[0] == '-' && s[1..] == NatString(-i) && DigitsValue(s[1..]) == -i
  {
    if i >= 0 {
      NatStringValue(i);
    } else {
      var s := ScalarString(Int(i));
      assert s[1..] == NatString(-i);
      NatStringValue(-i);
    }
  }

  /** `implode("\n", lines)`: the lines with a newline between neighbours. */
  function JoinLines(lines: seq<string>): (s: string)
    ensures lines == [] ==> s == ""
    ensures |lines| == 1 ==> s == lines[0]
  {
    if |lines| == 0 then ""
    else if |lines| == 1 then lines[0]
    else lines[0] + "\n" + JoinLines(lines[1..])
  }

  /** The inverse of JoinLines: cut a string at every newline. */
  function SplitLines(s: string): (lines: seq<string>)
    ensures |lines| > 0
  {
    if |s| == 0 then [""]
    else
      var rest := SplitLines(s[1..]);
      if s[0] == '\n' then [""] + rest else [[s[0]] + rest[0]] + rest[1..]
  }

  /** Splitting a string that holds no newline gives that single line. */
  lemma {:induction false} SplitSingleLine(x: string)
    requires '\n' !in x
    ensures SplitLines(x) == [x]
    decreases |x|
  {
    if |x| > 0 {
      assert '\n' !in x[1..] by {
        forall k | 0 <= k < |x[1..]| ensures x[1..][k] != '\n' { assert x[1..][k] == x[k + 1]; }
      }
      SplitSingleLine(x[1..]);
      assert [x[0]] + x[1..] == x;
    }
  }

  /** A first line followed by a newline splits off as one line. */
  lemma {:induction false} SplitFirstLine(x: string, t: string)
    requires '\n' !in x
    ensures SplitLines(x + "\n" + t) == [x] + SplitLines(t)
    decreases |x|
  {
    var s := x + "\n" + t;
    if |x| == 0 {
      assert s[1..] == t;
    } else {
      assert s[1..] == x[1..] + "\n" + t;
      assert '\n' !in x[1..] by {
        forall k | 0 <= k < |x[1..]| ensures x[1..][k] != '\n' { assert x[1..][k] == x[k + 1]; }
      }
      SplitFirstLine(x[1..], t);
      assert [x[0]] + x[1..] == x;
    }
  }

  /** Splitting a join gives the lines back, as long as no line holds a newline. */
  lemma {:induction false} SplitJoinLines(lines: seq<string>)
    requires lines != []
    requires forall k :: 0 <= k < |lines| ==> '\n' !in lines[k]
    ensures SplitLines(JoinLines(lines)) == lines
    decreases |lines|
  {
    if |lines| == 1 {
      SplitSingleLine(lines[0]);
    } else {
      SplitFirstLine(lines[0], JoinLines(lines[1..]));
      SplitJoinLines(lines[1..]);
      assert [lines[0]] + lines[1..] == lines;
    }
  }

  /** Joining a split gives the string back, whatever it holds. */
  lemma {:induction false} JoinSplitLines(s: string)
    ensures JoinLines(SplitLines(s)) == s
    decreases |s|
  {
    if |s| > 0 {
      var rest := SplitLines(s[1..]);
      JoinSplitLines(s[1..]);
      if s[0] == '\n' {
        assert JoinLines([""] + rest) == "" + "\n" + JoinLines(rest);
      } else {
        var head := [s[0]] + rest[0];
        if |rest| == 1 {
          assert JoinLines([head] + rest[1..]) == head;
        } else {
          assert ([head] + rest[1..])[1..] == rest[1..];
          assert JoinLines([head] + rest[1..]) == head + "\n" + JoinLines(rest[1..]);
          assert JoinLines(rest) == rest[0] + "\n" + JoinLines(rest[1..]);
        }
      }
      assert [s[0]] + s[1..] == s;
    }
  }
}
