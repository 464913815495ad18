/**
 * The command line: `parseArgs`, the built-in defaults, and the merge
 * defaults < configuration file < command line that produces the object
 * handed to the capture engine.
 *
 * Parsed values and file values are JavaScript values; only the shapes the
 * program produces or reads are represented.
 */
module Cli {
  import opened Wrappers
  import opened Strings
  import opened Browsers
  import opened CaptureEngine
  import opened Spoof

  /** A JavaScript value as it appears in the configuration objects. */
  datatype Value = Undefined | Null | Bool(b: bool) | Num(n: int) | NaN | Str(s: string) | List(items: seq<string>)

  /** A plain object: own properties only. */
  type Object = map<string, Value>

  /** `parseArgs` throws when a list option is the last argument, because
      it splits `undefined`. */
  datatype ParseError = SplitOfUndefined(flag: string)

  // ---------------------------------------------------------------------
  // parseInt(s) with no radix argument
  // ---------------------------------------------------------------------

  /** The digit a character stands for in bases up to 36; 36 for none. */
  function DigitValue(c: char): (d: nat)
    ensures d <= 36
    ensures '0' <= c <= '9' ==> d == c as int - '0' as int
  {
    if '0' <= c <= '9' then c as int - '0' as int
    else if 'a' <= c <= 'z' then c as int - 'a' as int + 10
    else if 'A' <= c <= 'Z' then c as int - 'A' as int + 10
    else 36
  }

  predicate IsDigitIn(c: char, radix: nat)
  {
    DigitValue(c) < radix
  }

  /** The longest prefix of digits of the given radix. */
  function DigitRun(s: string, radix: nat): (z: string)
    ensures |z| <= |s| && z == s[..|z|]
    ensures forall i :: 0 <= i < |z| ==> IsDigitIn(z[i], radix)
    ensures |z| < |s| ==> !IsDigitIn(s[|z|], radix)
  {
    if |s| > 0 && IsDigitIn(s[0], radix) then [s[0]] + DigitRun(s[1..], radix) else []
  }

  /** The value of a digit string, most significant digit first. */
  function DigitsValue(z: string, radix: nat): nat
  {
    if |z| == 0 then 0 else DigitsValue(z[..|z| - 1], radix) * radix + DigitValue(z[|z| - 1])
  }

  /** JavaScript `parseInt` with no radix: leading white space is skipped,
      one sign is read, a `0x`/`0X` prefix selects base 16, and the longest
      run of digits that follows is the value; no digit at all gives NaN. */
  function ParseInt(s: string): (v: Value)
    ensures v.Num? || v.NaN?
  {
    var t := TrimStart(s);
    var signed := |t| > 0 && (t[0] == '-' || t[0] == '+');
    match ParseMagnitude(if signed then t[1..] else t)
    case None => NaN
    case Some(m) => Num(if signed && t[0] == '-' then -m else m)
  }

  /** The unsigned part of `parseInt`: an optional `0x`/`0X` prefix selecting
      base 16, then the longest run of digits; None when there is no digit. */
  function ParseMagnitude(u: string): Option<int>
  {
    var hex := |u| >= 2 && u[0] == '0' && (u[1] == 'x' || u[1] == 'X');
    var radix := if hex then 16 else 10;
    var z := DigitRun(if hex then u[2..] else u, radix);
    if |z| == 0 then None else Some(DigitsValue(z, radix))
  }

  function DigitChar(d: nat): (c: char)
    requires d < 10
    ensures IsDigitIn(c, 10) && DigitValue(c) == d
  {
    ('0' as int + d) as char
  }

  /** Decimal notation of a natural number, without leading zeros. */
  function NatToDecimal(n: nat): (z: string)
    ensures |z| > 0 && forall i :: 0 <= i < |z| ==> IsDigitIn(z[i], 10)
    ensures n > 0 ==> z[0] != '0'
    ensures n == 0 ==> z == "0"
  {
    if n < 10 then [DigitChar(n)] else NatToDecimal(n / 10) + [DigitChar(n % 10)]
  }

  /** Decimal notation of an integer, with a minus sign when negative. */
  function IntToDecimal(n: int): string
  {
    if n < 0 then "-" + NatToDecimal(-n) else NatToDecimal(n)
  }

  /** The digit run of digits followed by a non-digit is those digits. */
  lemma {:induction false} DigitRunStops(z: string, rest: string, radix: nat)
    requires forall i :: 0 <= i < |z| ==> IsDigitIn(z[i], radix)
    requires rest == [] || !IsDigitIn(rest[0], radix)
    ensures DigitRun(z + rest, radix) == z
  {
    if |z| > 0 {
      assert (z + rest)[1..] == z[1..] + rest;
      DigitRunStops(z[1..], rest, radix);
    } else {
      assert z + rest == rest;
    }
  }

  /** Decimal notation read back gives the number. */
  lemma {:induction false} DecimalValue(n: nat)
    ensures DigitsValue(NatToDecimal(n), 10) == n
  {
    var z := NatToDecimal(n);
    if n >= 10 {
      DecimalValue(n / 10);
      assert z[..|z| - 1] == NatToDecimal(n / 10);
    }
  }

  /** Skipping white space in front of text that starts with a non-space. */
  lemma {:induction false} TrimStartPrefix(ws: string, t: string)
    requires forall i :: 0 <= i < |ws| ==> IsWhitespace(ws[i])
    requires |t| > 0 && !IsWhitespace(t[0])
    ensures TrimStart(ws + t) == t
  {
    if |ws| > 0 {
      assert (ws + t)[1..] == ws[1..] + t;
      TrimStartPrefix(ws[1..], t);
    } else {
      assert ws + t == t;
    }
  }

  /** parseInt reads back an integer written in decimal, past leading white
      space and before any trailing text that does not continue the number
      (after a lone 0, an `x` would start a hexadecimal number). */
  lemma ParseIntReadsDecimal(ws: string, n: int, rest: string)
    requires forall i :: 0 <= i < |ws| ==> IsWhitespace(ws[i])
    requires rest == [] || !IsDigitIn(rest[0], 10)
    requires n == 0 && rest != [] ==> rest[0] != 'x' && rest[0] != 'X'
    ensures ParseInt(ws + IntToDecimal(n) + rest) == Num(n)
  {
    var m: nat := if n < 0 then -n else n;
    var t := IntToDecimal(n) + rest;
    assert ws + IntToDecimal(n) + rest == ws + t;
    DecimalText(n, rest);
    TrimStartPrefix(ws, t);
    MagnitudeReadsDecimal(m, rest);
    if n < 0 {
      SignedMagnitude(ws + t, t, m);
    } else {
      UnsignedMagnitude(ws + t, t, m);
    }
  }

  /** A character worth less than ten is a decimal digit. */
  lemma DecimalDigit(c: char)
    requires IsDigitIn(c, 10)
    ensures '0' <= c <= '9'
  {
  }

  /** The shape of a decimal integer followed by other text. */
  lemma DecimalText(n: int, rest: string)
    ensures var t := IntToDecimal(n) + rest;
            && |t| > 0 && (t[0] == '-' || '0' <= t[0] <= '9')
            && (n < 0 ==> t[0] == '-' && t[1..] == NatToDecimal(-n) + rest)
            && (n >= 0 ==> t == NatToDecimal(n) + rest)
  {
    if n < 0 {
      var z := NatToDecimal(-n);
      assert IntToDecimal(n) + rest == "-" + z + rest;
      assert ("-" + z + rest)[0] == '-';
      assert ("-" + z + rest)[1..] == z + rest;
    } else {
      var z := NatToDecimal(n);
      DecimalDigit(z[0]);
      assert (z + rest)[0] == z[0];
    }
  }

  lemma SignedMagnitude(s: string, t: string, m: int)
    requires TrimStart(s) == t && |t| > 0 && t[0] == '-' && ParseMagnitude(t[1..]) == Some(m)
    ensures ParseInt(s) == Num(-m)
  {
  }

  lemma UnsignedMagnitude(s: string, t: string, m: nat)
    requires TrimStart(s) == t && |t| > 0 && '0' <= t[0] <= '9' && ParseMagnitude(t) == Some(m)
    ensures ParseInt(s) == Num(m)
  {
  }

  lemma MagnitudeReadsDecimal(m: nat, rest: string)
    requires rest == [] || !IsDigitIn(rest[0], 10)
    requires m == 0 && rest != [] ==> rest[0] != 'x' && rest[0] != 'X'
    ensures ParseMagnitude(NatToDecimal(m) + rest) == Some(m)
  {
    var z := NatToDecimal(m);
    var u := z + rest;
    assert !(|u| >= 2 && u[0] == '0' && (u[1] == 'x' || u[1] == 'X'));
    DigitRunStops(z, rest, 10);
    DecimalValue(m);
  }

  /** Text whose first non-space character is neither a sign nor a decimal
      digit is NaN. */
  lemma ParseIntNaN(s: string)
    requires var t := TrimStart(s); |t| == 0 || (!IsDigitIn(t[0], 10) && t[0] != '-' && t[0] != '+')
    ensures ParseInt(s) == NaN
  {
  }

  // ---------------------------------------------------------------------
  // parseArgs
  // ---------------------------------------------------------------------

  /** The options that consume the following argument. */
  predicate TakesValue(arg: string)
  {
    arg == "--output" || arg == "-o" || arg == "--width" || arg == "-w" || arg == "--height" || arg == "-h"
    || arg == "--full-page" || arg == "--delay" || IsListFlag(arg)
  }

  /** The options whose value is split on commas. */
  predicate IsListFlag(arg: string)
  {
    arg == "--devices" || arg == "--browsers" || arg == "--ua-spoof"
  }

  /** How many arguments one step of the loop consumes. */
  function Width(arg: string): nat
  {
    if TakesValue(arg) then 2 else 1
  }

  /** The argument after position i, or `undefined` past the end. */
  function NextArg(args: seq<string>, i: nat): Value
  {
    if i + 1 < |args| then Str(args[i + 1]) else Undefined
  }

  /** parseInt of an argument slot: `undefined` is read as the text "undefined". */
  function ParseIntArg(v: Value): Value
  {
    ParseInt(if v.Str? then v.s else "undefined")
  }

  /** The property one loop step at position i assigns, if any. */
  function Update(args: seq<string>, i: nat): (u: Result<Option<(string, Value)>, ParseError>)
    requires i < |args|
    ensures u.Failure? <==> IsListFlag(args[i]) && i == |args| - 1
    ensures !StartsWith(args[i], "-") ==> u == Success(Some(("url", Str(args[i]))))
    ensures StartsWith(args[i], "-") ==> !(u.Success? && u.value.Some? && u.value.value.0 == "url")
  {
    var arg := args[i];
    var next := NextArg(args, i);
    if arg == "--output" || arg == "-o" then Success(Some(("output", next)))
    else if arg == "--width" || arg == "-w" then Success(Some(("customWidth", ParseIntArg(next))))
    else if arg == "--height" || arg == "-h" then Success(Some(("customHeight", ParseIntArg(next))))
    else if arg == "--full-page" then Success(Some(("fullPage", Bool(next != Str("false")))))
    else if arg == "--delay" then Success(Some(("delay", ParseIntArg(next))))
    else if arg == "--devices" then
      if next.Str? then Success(Some(("devices", List(TrimAll(Split(next.s, ',')))))) else Failure(SplitOfUndefined(arg))
    else if arg == "--browsers" then
      if next.Str? then Success(Some(("browsers", List(TrimLowerAll(Split(next.s, ',')))))) else Failure(SplitOfUndefined(arg))
    else if arg == "--ua-spoof" then
      if next.Str? then Success(Some(("uaSpoof", List(TrimLowerAll(Split(next.s, ',')))))) else Failure(SplitOfUndefined(arg))
    else if arg == "--inject-eruda" then Success(Some(("injectEruda", Bool(true))))
    else if !StartsWith(arg, "-") then Success(Some(("url", Str(arg))))
    else Success(None)
  }

  /** The properties one step of `parseArgs` can assign. */
  const ParsedKeys: set<string> := {
    "url", "output", "customWidth", "customHeight", "fullPage", "delay",
    "devices", "browsers", "uaSpoof", "injectEruda"
  }

  /** The loop of `parseArgs` from position i with the properties assigned so far. */
  function ParseFrom(args: seq<string>, i: nat, parsed: Object): Result<Object, ParseError>
    decreases |args| - i
  {
    if i >= |args| then Success(parsed)
    else match Update(args, i)
      case Failure(e) => Failure(e)
      case Success(None) => ParseFrom(args, i + Width(args[i]), parsed)
      case Success(Some(kv)) => ParseFrom(args, i + Width(args[i]), parsed[kv.0 := kv.1])
  }

  /** `parseArgs`: the properties the command line sets. */
  function ParseArgs(args: seq<string>): (r: Result<Object, ParseError>)
    ensures r.Failure? ==> |args| > 0 && IsListFlag(args[|args| - 1])
    ensures r.Success? ==> r.value.Keys <= ParsedKeys
  {
    ParseFromFails(args, 0, map[]);
    ParseFromKnownKeys(args, 0, map[]);
    ParseFrom(args, 0, map[])
  }

  /** Every property a step assigns is one of the known ones. */
  lemma UpdateKnownKey(args: seq<string>, i: nat)
    requires i < |args| && Update(args, i).Success? && Update(args, i).value.Some?
    ensures Update(args, i).value.value.0 in ParsedKeys
  {
  }

  /** The loop assigns only properties a step can assign. */
  lemma {:induction false} ParseFromKnownKeys(args: seq<string>, i: nat, parsed: Object)
    requires parsed.Keys <= ParsedKeys
    ensures ParseFrom(args, i, parsed).Success? ==> ParseFrom(args, i, parsed).value.Keys <= ParsedKeys
    decreases |args| - i
  {
    if i < |args| && Update(args, i).Success? {
      var parsed' := ParseFromStep(args, i, parsed);
      if Update(args, i).value.Some? {
        UpdateKnownKey(args, i);
      }
      ParseFromKnownKeys(args, i + Width(args[i]), parsed');
    }
  }

  /** The positions the loop visits from i on: each step skips the value
      its option consumed. */
  function Heads(args: seq<string>, i: nat): (hs: seq<nat>)
    decreases |args| - i
    ensures forall j :: 0 <= j < |hs| ==> i <= hs[j] < |args|
    ensures |hs| > 0 ==> hs[0] == i
    ensures forall j :: 0 <= j < |hs| - 1 ==> hs[j + 1] == hs[j] + Width(args[hs[j]])
  {
    if i >= |args| then [] else [i] + Heads(args, i + Width(args[i]))
  }

  /** Position h assigns property k. */
  predicate SetsKey(args: seq<string>, h: nat, k: string)
  {
    h < |args| && Update(args, h).Success? && Update(args, h).value.Some? && Update(args, h).value.value.0 == k
  }

  /** Heads are visited in increasing order. */
  lemma {:induction false} HeadsIncrease(args: seq<string>, i: nat, a: nat, b: nat)
    requires a < b < |Heads(args, i)|
    ensures Heads(args, i)[a] < Heads(args, i)[b]
    decreases b - a
  {
    var hs := Heads(args, i);
    if b > a + 1 {
      HeadsIncrease(args, i, a + 1, b);
    }
  }

  /** The argument after an option that takes a value is never itself read
      as an option or as the URL. */
  lemma ValueIsNotAHead(args: seq<string>, h: nat)
    requires h in Heads(args, 0) && TakesValue(args[h])
    ensures h + 1 !in Heads(args, 0)
  {
    var hs := Heads(args, 0);
    var j :| 0 <= j < |hs| && hs[j] == h;
    if h + 1 in hs {
      var j' :| 0 <= j' < |hs| && hs[j'] == h + 1;
      if j' <= j {
        if j' < j { HeadsIncrease(args, 0, j', j); }
      } else {
        if j' > j + 1 { HeadsIncrease(args, 0, j + 1, j'); }
      }
    }
  }

  /** After a visited position the loop visits the next one past the
      option's value: options without a value consume nothing extra. */
  lemma NextHead(args: seq<string>, j: nat)
    requires j < |Heads(args, 0)|
    ensures var h := Heads(args, 0)[j];
            h + Width(args[h]) < |args| ==> h + Width(args[h]) in Heads(args, 0)
  {
    var hs := Heads(args, 0);
    var h := hs[j];
    if h + Width(args[h]) < |args| {
      if j + 1 < |hs| {
        assert hs[j + 1] == h + Width(args[h]);
      } else {
        HeadsReachTheEnd(args, 0, j);
      }
    }
  }

  /** The last visited position's step runs past the end. */
  lemma {:induction false} HeadsReachTheEnd(args: seq<string>, i: nat, j: nat)
    requires j == |Heads(args, i)| - 1
    ensures var h := Heads(args, i)[j]; h + Width(args[h]) >= |args|
    decreases |args| - i
  {
    var next := i + Width(args[i]);
    assert Heads(args, i) == [i] + Heads(args, next);
    if j > 0 {
      HeadsReachTheEnd(args, next, j - 1);
    }
  }

  /** A list item: no comma, no white space at either end. */
  ghost predicate Clean(item: string)
  {
    ',' !in item && (|item| > 0 ==> !IsWhitespace(item[0]) && !IsWhitespace(item[|item| - 1]))
  }

  ghost predicate NoUpper(item: string)
  {
    forall c :: 0 <= c < |item| ==> !('A' <= item[c] <= 'Z')
  }

  /** A list option's value becomes the comma-separated pieces, one more
      than there are commas, each trimmed of white space; browsers and
      identities are also lower-cased, devices keep their case. */
  lemma ListOptionItems(args: seq<string>, i: nat)
    requires i + 1 < |args| && IsListFlag(args[i])
    ensures Update(args, i).Success? && Update(args, i).value.Some? && Update(args, i).value.value.1.List?
    ensures var (k, v) := Update(args, i).value.value;
            && |v.items| == Count(args[i + 1], ',') + 1
            && (forall j :: 0 <= j < |v.items| ==> Clean(v.items[j]))
            && (args[i] == "--devices" ==> k == "devices" && forall j :: 0 <= j < |v.items| ==> v.items[j] == Trim(Split(args[i + 1], ',')[j]))
            && (args[i] == "--browsers" ==> k == "browsers")
            && (args[i] == "--ua-spoof" ==> k == "uaSpoof")
            && (args[i] != "--devices" ==> forall j :: 0 <= j < |v.items| ==>
                  v.items[j] == ToLower(Trim(Split(args[i + 1], ',')[j])) && NoUpper(v.items[j]))
  {
    var v := args[i + 1];
    assert NextArg(args, i) == Str(v);
    SplitCount(v, ',');
    PiecesClean(v);
    if args[i] == "--devices" {
      assert Update(args, i) == Success(Some(("devices", List(TrimAll(Split(v, ','))))));
    } else if args[i] == "--browsers" {
      assert Update(args, i) == Success(Some(("browsers", List(TrimLowerAll(Split(v, ','))))));
    } else {
      assert Update(args, i) == Success(Some(("uaSpoof", List(TrimLowerAll(Split(v, ','))))));
    }
  }

  /** Every piece of a split, trimmed and possibly lower-cased, is clean. */
  lemma PiecesClean(v: string)
    ensures forall j :: 0 <= j < |TrimAll(Split(v, ','))| ==> Clean(TrimAll(Split(v, ','))[j])
    ensures forall j :: 0 <= j < |TrimLowerAll(Split(v, ','))| ==>
              Clean(TrimLowerAll(Split(v, ','))[j]) && NoUpper(TrimLowerAll(Split(v, ','))[j])
  {
    var parts := Split(v, ',');
    forall j | 0 <= j < |parts|
      ensures Clean(Trim(parts[j])) && Clean(ToLower(Trim(parts[j]))) && NoUpper(ToLower(Trim(parts[j])))
    {
      PieceClean(parts[j]);
    }
  }

  /** One piece of a list option, trimmed and possibly lower-cased, is clean. */
  lemma PieceClean(p: string)
    requires ',' !in p
    ensures Clean(Trim(p)) && Clean(ToLower(Trim(p))) && NoUpper(ToLower(Trim(p)))
  {
    TrimNoChar(p, ',');
    TrimmedClean(p);
    LowerClean(Trim(p));
  }

  /** A trimmed text without commas is clean. */
  lemma TrimmedClean(p: string)
    requires ',' !in Trim(p)
    ensures Clean(Trim(p))
  {
  }

  /** Lower-casing a clean item keeps it clean and leaves no upper case. */
  lemma LowerClean(t: string)
    requires Clean(t)
    ensures Clean(ToLower(t)) && NoUpper(ToLower(t))
  {
    LowerKeepsCommasAndSpaces(t);
    var l := ToLower(t);
    assert ',' !in l by {
      forall c | 0 <= c < |l|
        ensures l[c] != ','
      {
        assert t[c] != ',';
      }
    }
  }

  /** Lower-casing keeps commas and white space where they were. */
  ghost predicate LowerKeeps(t: string)
  {
    forall c :: 0 <= c < |t| ==>
      (ToLower(t)[c] == ',' <==> t[c] == ',') && (IsWhitespace(ToLower(t)[c]) <==> IsWhitespace(t[c]))
  }

  lemma LowerKeepsCommasAndSpaces(t: string)
    ensures LowerKeeps(t)
  {
  }

  /** Trimming does not bring in a character that was absent. */
  lemma TrimNoChar(s: string, c: char)
    requires c !in s
    ensures c !in Trim(s)
  {
    var a, b :| 0 <= a <= b <= |s| && Trim(s) == s[a..b];
  }

  /** `--inject-eruda` sets the flag and consumes no value; any other
      argument starting with a dash that is not an option is ignored. */
  lemma FlagsWithoutValue(args: seq<string>, i: nat)
    requires i < |args| && StartsWith(args[i], "-") && !TakesValue(args[i])
    ensures Width(args[i]) == 1
    ensures args[i] == "--inject-eruda" ==> Update(args, i) == Success(Some(("injectEruda", Bool(true))))
    ensures args[i] != "--inject-eruda" ==> Update(args, i) == Success(None)
  {
  }

  /** The property a numeric option sets. */
  function NumericKey(arg: string): Option<string>
  {
    if arg == "-w" || arg == "--width" then Some("customWidth")
    else if arg == "-h" || arg == "--height" then Some("customHeight")
    else if arg == "--delay" then Some("delay")
    else None
  }

  /** `-w`/`--width`, `-h`/`--height` and `--delay` consume the next argument
      and store `parseInt` of it; with no next argument they read the text
      "undefined", which is NaN. */
  lemma NumericOptions(args: seq<string>, i: nat)
    requires i < |args| && NumericKey(args[i]).Some?
    ensures Width(args[i]) == 2
    ensures Update(args, i) == Success(Some((NumericKey(args[i]).value, ParseIntArg(NextArg(args, i)))))
    ensures i + 1 < |args| ==> ParseIntArg(NextArg(args, i)) == ParseInt(args[i + 1])
    ensures i + 1 == |args| ==> ParseIntArg(NextArg(args, i)) == NaN
  {
    if i + 1 == |args| {
      UndefinedIsNaN();
    }
  }

  /** `parseInt(undefined)` reads the text "undefined": NaN. */
  lemma UndefinedIsNaN()
    ensures ParseIntArg(Undefined) == NaN
  {
    var s := "undefined";
    assert s[0] == 'u' && !IsWhitespace(s[0]);
    assert TrimStart(s) == s;
    ParseIntNaN(s);
  }

  /** `-o` and `--output` both store the next argument verbatim. */
  lemma OutputAliases(args: seq<string>, i: nat)
    requires i + 1 < |args| && (args[i] == "-o" || args[i] == "--output")
    ensures Update(args, i) == Success(Some(("output", Str(args[i + 1]))))
  {
  }

  /** The loop fails exactly when it reaches a list option in the last
      position. */
  lemma {:induction false} ParseFromFails(args: seq<string>, i: nat, parsed: Object)
    ensures ParseFrom(args, i, parsed).Failure? <==>
              |args| > 0 && |args| - 1 in Heads(args, i) && IsListFlag(args[|args| - 1])
    decreases |args| - i
  {
    if i < |args| {
      var next := i + Width(args[i]);
      assert Heads(args, i) == [i] + Heads(args, next);
      if Update(args, i).Success? {
        var parsed' := ParseFromStep(args, i, parsed);
        ParseFromFails(args, next, parsed');
      }
    }
  }

  /** One successful loop step: the loop goes on past the option's value
      with the step's property assigned. */
  lemma ParseFromStep(args: seq<string>, i: nat, parsed: Object) returns (parsed': Object)
    requires i < |args| && Update(args, i).Success?
    ensures ParseFrom(args, i, parsed) == ParseFrom(args, i + Width(args[i]), parsed')
    ensures Update(args, i).value.None? ==> parsed' == parsed
    ensures Update(args, i).value.Some? ==>
              parsed' == parsed[Update(args, i).value.value.0 := Update(args, i).value.value.1]
  {
    parsed' := if Update(args, i).value.Some? then parsed[Update(args, i).value.value.0 := Update(args, i).value.value.1] else parsed;
  }

  /** Some position visited from i assigns k exactly when i does or some
      position visited after it does. */
  lemma SetsKeyFromHeads(args: seq<string>, i: nat, k: string)
    requires i < |args|
    ensures (exists h :: h in Heads(args, i) && SetsKey(args, h, k)) <==>
              SetsKey(args, i, k) || exists h :: h in Heads(args, i + Width(args[i])) && SetsKey(args, h, k)
  {
    assert Heads(args, i) == [i] + Heads(args, i + Width(args[i]));
  }

  /** A property is present after the loop exactly when it was present
      before or some visited position assigns it. */
  lemma {:induction false} ParseFromKeys(args: seq<string>, i: nat, parsed: Object, k: string)
    requires ParseFrom(args, i, parsed).Success?
    ensures k in ParseFrom(args, i, parsed).value <==> k in parsed || exists h :: h in Heads(args, i) && SetsKey(args, h, k)
    decreases |args| - i
  {
    if i < |args| {
      var next := i + Width(args[i]);
      SetsKeyFromHeads(args, i, k);
      assert Update(args, i).Success?;
      var parsed' := ParseFromStep(args, i, parsed);
      ParseFromKeys(args, next, parsed', k);
      assert (k in parsed' <==> k in parsed || SetsKey(args, i, k));
    }
  }

  /** The value of a property is the one assigned by the last visited
      position that assigns it: later options override earlier ones. */
  lemma {:induction false} ParseFromLastWins(args: seq<string>, i: nat, parsed: Object, h: nat, k: string)
    requires ParseFrom(args, i, parsed).Success?
    requires h in Heads(args, i) && SetsKey(args, h, k)
    requires forall h' :: h' in Heads(args, i) && h < h' ==> !SetsKey(args, h', k)
    ensures k in ParseFrom(args, i, parsed).value
    ensures ParseFrom(args, i, parsed).value[k] == Update(args, h).value.value.1
    decreases |args| - i
  {
    var next := i + Width(args[i]);
    var hs := Heads(args, i);
    assert hs == [i] + Heads(args, next);
    if h == i {
      var kv := Update(args, i).value.value;
      ParseFromUntouched(args, next, parsed[kv.0 := kv.1], k);
    } else {
      assert Update(args, i).Success?;
      var parsed' := ParseFromStep(args, i, parsed);
      ParseFromLastWins(args, next, parsed', h, k);
    }
  }

  /** A property no visited position assigns keeps its value. */
  lemma {:induction false} ParseFromUntouched(args: seq<string>, i: nat, parsed: Object, k: string)
    requires ParseFrom(args, i, parsed).Success? && k in parsed
    requires forall h :: h in Heads(args, i) ==> !SetsKey(args, h, k)
    ensures k in ParseFrom(args, i, parsed).value && ParseFrom(args, i, parsed).value[k] == parsed[k]
    decreases |args| - i
  {
    if i < |args| {
      var next := i + Width(args[i]);
      assert Heads(args, i) == [i] + Heads(args, next);
      assert i in Heads(args, i) && !SetsKey(args, i, k);
      assert Update(args, i).Success?;
      var parsed' := ParseFromStep(args, i, parsed);
      ParseFromUntouched(args, next, parsed', k);
    }
  }

  /** `parseArgs` throws exactly when the last argument is a list option
      reached by the loop. */
  lemma ParseArgsFails(args: seq<string>)
    ensures ParseArgs(args).Failure? <==>
              |args| > 0 && |args| - 1 in Heads(args, 0) && IsListFlag(args[|args| - 1])
  {
    ParseFromFails(args, 0, map[]);
  }

  /** The parsed object holds exactly the properties some visited position
      assigns, each with the value of the last such position. */
  lemma ParseArgsLastWins(args: seq<string>, k: string)
    requires ParseArgs(args).Success?
    ensures k in ParseArgs(args).value <==> exists h :: h in Heads(args, 0) && SetsKey(args, h, k)
    ensures forall h :: h in Heads(args, 0) && SetsKey(args, h, k)
                && (forall h' :: h' in Heads(args, 0) && h < h' ==> !SetsKey(args, h', k))
                ==> ParseArgs(args).value[k] == Update(args, h).value.value.1
  {
    ParseFromKeys(args, 0, map[], k);
    forall h | h in Heads(args, 0) && SetsKey(args, h, k)
                && (forall h' :: h' in Heads(args, 0) && h < h' ==> !SetsKey(args, h', k))
      ensures ParseArgs(args).value[k] == Update(args, h).value.value.1
    {
      ParseFromLastWins(args, 0, map[], h, k);
    }
  }

  /** The URL is the last visited argument that does not start with a dash. */
  lemma UrlIsLastPositional(args: seq<string>, h: nat)
    requires ParseArgs(args).Success?
    requires h in Heads(args, 0) && !StartsWith(args[h], "-")
    requires forall h' :: h' in Heads(args, 0) && h < h' ==> StartsWith(args[h'], "-")
    ensures "url" in ParseArgs(args).value
    ensures ParseArgs(args).value["url"] == Str(args[h])
  {
    ParseArgsLastWins(args, "url");
  }

  /** An option left without its value still assigns the property, with
      the value `undefined`. */
  lemma DanglingOutputIsUndefined(args: seq<string>)
    requires args == ["--output"]
    ensures ParseArgs(args) == Success(map["output" := Undefined])
  {
    assert Update(args, 0) == Success(Some(("output", Undefined)));
    assert ParseFrom(args, 2, map["output" := Undefined]) == Success(map["output" := Undefined]);
  }

  /** A list option left without its value throws. */
  lemma DanglingDevicesThrows(args: seq<string>)
    requires args == ["https://example.com", "--devices"]
    ensures ParseArgs(args) == Failure(SplitOfUndefined("--devices"))
  {
    assert args[0][0] == 'h';
    assert Update(args, 0) == Success(Some(("url", Str(args[0]))));
    assert IsListFlag(args[1]);
    assert Update(args, 1) == Failure(SplitOfUndefined("--devices"));
    assert ParseFrom(args, 1, map["url" := Str(args[0])]) == Failure(SplitOfUndefined("--devices"));
  }

  /** The value of an option is taken even when it looks like an option. */
  lemma OptionValueIsSwallowed(args: seq<string>)
    requires args == ["--output", "--delay", "https://example.com"]
    ensures ParseArgs(args) == Success(map["output" := Str("--delay"), "url" := Str("https://example.com")])
  {
    var m := map["output" := Str("--delay")];
    assert Update(args, 0) == Success(Some(("output", Str("--delay"))));
    assert TakesValue(args[0]);
    assert args[2][0] == 'h';
    assert Update(args, 2) == Success(Some(("url", Str(args[2]))));
    assert ParseFrom(args, 3, m["url" := Str(args[2])]) == Success(m["url" := Str(args[2])]);
    assert ParseFrom(args, 2, m) == Success(m["url" := Str(args[2])]);
  }

  /** `--full-page` at any position consumes two arguments and sets
      `fullPage` to whether the next argument differs from "false"; as the
      last argument it reads `undefined` and sets true. */
  lemma FullPageOption(args: seq<string>, i: nat)
    requires i < |args| && args[i] == "--full-page"
    ensures Width(args[i]) == 2
    ensures Update(args, i) == Success(Some(("fullPage", Bool(NextArg(args, i) != Str("false")))))
    ensures i + 1 < |args| ==> Update(args, i) == Success(Some(("fullPage", Bool(args[i + 1] != "false"))))
    ensures i + 1 == |args| ==> Update(args, i) == Success(Some(("fullPage", Bool(true))))
  {
  }

  /** Only the exact text "false" turns full-page capture off. */
  lemma FullPageOffOnlyByFalse(v: string)
    ensures ParseArgs(["--full-page", v]) == Success(map["fullPage" := Bool(v != "false")])
  {
    var args := ["--full-page", v];
    var m := map["fullPage" := Bool(v != "false")];
    assert Update(args, 0) == Success(Some(("fullPage", Bool(v != "false"))));
    assert TakesValue(args[0]);
    assert ParseFrom(args, 2, m) == Success(m);
  }

  // ---------------------------------------------------------------------
  // Defaults and the merge
  // ---------------------------------------------------------------------

  /** The built-in defaults. */
  function Defaults(): Object
  {
    map[
      "url" := Null,
      "output" := Str("./report"),
      "fullPage" := Bool(true),
      "delay" := Num(2000),
      "devices" := List(DefaultDevices()),
      "browsers" := List(["chromium", "webkit", "firefox"]),
      "uaSpoof" := List([]),
      "injectEruda" := Bool(false),
      "customWidth" := Null,
      "customHeight" := Null]
  }

  /** The defaults give a value to exactly the properties a step of
      `parseArgs` can assign (`UpdateKnownKey`). */
  lemma DefaultsCoverParsedKeys()
    ensures Defaults().Keys == ParsedKeys
  {
  }

  /** By default every launcher engine is requested and no identity is. */
  lemma DefaultsRequestEveryEngine()
    ensures Defaults()["browsers"].List? && Defaults()["uaSpoof"] == List([])
    ensures forall n :: n in Defaults()["browsers"].items <==> n in LauncherNames()
  {
  }

  /** `{ ...defaults, ...file, ...cli }`: every property of any layer is
      present, and each takes its value from the highest layer that has it. */
  function Merge(defaults: Object, file: Object, cli: Object): (config: Object)
    ensures config.Keys == defaults.Keys + file.Keys + cli.Keys
    ensures forall k :: k in cli ==> config[k] == cli[k]
    ensures forall k :: k in file && k !in cli ==> config[k] == file[k]
    ensures forall k :: k in defaults && k !in file && k !in cli ==> config[k] == defaults[k]
  {
    defaults + file + cli
  }

  /** A dangling `--output` overrides the default and any file value with
      `undefined`: spreading copies the property whatever its value. */
  lemma DanglingOutputOverrides(file: Object)
    ensures Merge(Defaults(), file, ParseArgs(["--output"]).value)["output"] == Undefined
  {
    DanglingOutputIsUndefined(["--output"]);
  }

  // ---------------------------------------------------------------------
  // The object the engine reads
  // ---------------------------------------------------------------------

  /** JavaScript truthiness. */
  predicate Truthiness(v: Value)
  {
    match v
    case Undefined => false
    case Null => false
    case Bool(b) => b
    case Num(n) => n != 0
    case NaN => false
    case Str(s) => s != ""
    case List(_) => true
  }

  /** Reading a property: a missing one is `undefined`. */
  function Get(o: Object, k: string): Value
  {
    if k in o then o[k] else Undefined
  }

  /** The URL as the engine sees it: a string, or None for a falsy value;
      a truthy non-string is outside the model. */
  function AsUrl(v: Value): (r: Option<Option<string>>)
    ensures r == Some(None) <==> !Truthiness(v)
    ensures v.Str? ==> r == Some(if v.s == "" then None else Some(v.s))
  {
    if v.Str? && v.s != "" then Some(Some(v.s))
    else if !Truthiness(v) then Some(None)
    else None
  }

  /** A custom dimension: a number, or None for a falsy value; a truthy
      non-number is outside the model. */
  function AsDimension(v: Value): (r: Option<Option<int>>)
    ensures r == Some(None) <==> !v.Num? && !Truthiness(v)
    ensures v.Num? ==> r == Some(Some(v.n))
  {
    if v.Num? then Some(Some(v.n))
    else if !Truthiness(v) then Some(None)
    else None
  }

  /** The engine's view of the merged object; None when a property has a
      shape outside the model: a list property that is not a list of
      strings, a truthy URL that is not a string, or a truthy width or
      height that is not a number. */
  function ToEngineConfig(o: Object): (cfg: Option<Config>)
    ensures cfg.None? <==>
              || AsUrl(Get(o, "url")).None?
              || AsDimension(Get(o, "customWidth")).None? || AsDimension(Get(o, "customHeight")).None?
              || !Get(o, "browsers").List? || !Get(o, "devices").List? || !Get(o, "uaSpoof").List?
    ensures cfg.Some? ==> AsUrl(Get(o, "url")) == Some(cfg.value.url)
    ensures cfg.Some? ==> AsDimension(Get(o, "customWidth")) == Some(cfg.value.customWidth)
                          && AsDimension(Get(o, "customHeight")) == Some(cfg.value.customHeight)
    ensures cfg.Some? ==> (cfg.value.url.None? <==> !Truthiness(Get(o, "url")))
    ensures cfg.Some? ==> cfg.value.injectEruda == Truthiness(Get(o, "injectEruda"))
    ensures cfg.Some? ==> (Get(o, "browsers") == List(cfg.value.browsers)
                           && Get(o, "devices") == List(cfg.value.devices)
                           && Get(o, "uaSpoof") == List(cfg.value.uaSpoof))
    ensures cfg.Some? ==> (Truthy(cfg.value.customWidth) <==> Truthiness(Get(o, "customWidth")))
    ensures cfg.Some? ==> (Truthy(cfg.value.customHeight) <==> Truthiness(Get(o, "customHeight")))
    ensures cfg.Some? ==> (cfg.value.output.Some? <==> Get(o, "output").Str?)
    ensures cfg.Some? && Get(o, "output").Str? ==> cfg.value.output.value == Get(o, "output").s
  {
    var url := AsUrl(Get(o, "url"));
    var w := AsDimension(Get(o, "customWidth"));
    var h := AsDimension(Get(o, "customHeight"));
    var browsers := Get(o, "browsers");
    var devices := Get(o, "devices");
    var uaSpoof := Get(o, "uaSpoof");
    var output := Get(o, "output");
    if url.Some? && w.Some? && h.Some? && browsers.List? && devices.List? && uaSpoof.List? then
      Some(Config(url.value, if output.Str? then Some(output.s) else None, browsers.items, devices.items, uaSpoof.items,
                  Truthiness(Get(o, "injectEruda")), w.value, h.value))
    else None
  }

  /** A non-zero width and height in the merged object become the
      viewport of every standard context, whatever the device. */
  lemma DimensionsReachTheViewport(o: Object, device: Device, w: int, h: int)
    requires Get(o, "customWidth") == Num(w) && w != 0
    requires Get(o, "customHeight") == Num(h) && h != 0
    requires ToEngineConfig(o).Some?
    ensures ContextViewport(device, ToEngineConfig(o).value.customWidth, ToEngineConfig(o).value.customHeight) == Viewport(w, h)
  {
  }

  /** With the defaults underneath and no other layer setting them, the
      engine's view exists and requests every launcher engine on every
      default device with no identity. */
  lemma DefaultsReachTheEngine(url: string)
    ensures var cfg := ToEngineConfig(Merge(Defaults(), map[], map["url" := Str(url)]));
            && cfg.Some?
            && cfg.value.browsers == ["chromium", "webkit", "firefox"]
            && cfg.value.devices == DefaultDevices()
            && cfg.value.uaSpoof == []
            && cfg.value.customWidth.None? && !cfg.value.injectEruda
            && cfg.value.output == Some("./report")
  {
    MergedDefaults(url);
  }

  /** What the merged object holds when the command line gives only a URL. */
  lemma MergedDefaults(url: string)
    ensures var o := Merge(Defaults(), map[], map["url" := Str(url)]);
            && Get(o, "url") == Str(url)
            && Get(o, "browsers") == List(["chromium", "webkit", "firefox"])
            && Get(o, "devices") == List(DefaultDevices())
            && Get(o, "uaSpoof") == List([]) && Get(o, "injectEruda") == Bool(false)
            && Get(o, "customWidth") == Null && Get(o, "customHeight") == Null
            && Get(o, "output") == Str("./report")
  {
    var d := Defaults();
    assert d["browsers"] == List(["chromium", "webkit", "firefox"]);
    assert d["devices"] == List(DefaultDevices());
    assert d["uaSpoof"] == List([]) && d["injectEruda"] == Bool(false);
    assert d["customWidth"] == Null && d["customHeight"] == Null;
    assert d["output"] == Str("./report");
  }

  /** `URL --output`: the dangling option overrides the output directory
      with `undefined`, which `path.resolve` refuses, so the run stops
      before any capture whatever the file says. */
  lemma DanglingOutputAborts(url: string, cli: Object, file: Object, reg: Registry, catalog: Catalog, runs: seq<seq<DriverStep>>)
    requires url != "" && url[0] != '-' && ParseArgs([url, "--output"]) == Success(cli)
    requires ToEngineConfig(Merge(Defaults(), file, cli)).Some?
    requires ValidRegistry(reg) && CatalogCovers(reg, catalog)
    requires RunsCover(runs, |Requests(ToEngineConfig(Merge(Defaults(), file, cli)).value, reg, catalog)|)
    ensures CaptureScreenshots(ToEngineConfig(Merge(Defaults(), file, cli)).value, reg, catalog, runs) == Failure(OutputNotAString)
  {
    UrlThenDanglingOutput(url);
    UndefinedOutputAborts(file, cli, url, reg, catalog, runs);
  }

  /** A command line with a URL and an `undefined` output stops the run at
      the output directory, whatever the file says. */
  lemma UndefinedOutputAborts(file: Object, cli: Object, url: string, reg: Registry, catalog: Catalog, runs: seq<seq<DriverStep>>)
    requires "url" in cli && cli["url"] == Str(url) && url != ""
    requires "output" in cli && cli["output"] == Undefined
    requires ToEngineConfig(Merge(Defaults(), file, cli)).Some?
    requires ValidRegistry(reg) && CatalogCovers(reg, catalog)
    requires RunsCover(runs, |Requests(ToEngineConfig(Merge(Defaults(), file, cli)).value, reg, catalog)|)
    ensures CaptureScreenshots(ToEngineConfig(Merge(Defaults(), file, cli)).value, reg, catalog, runs) == Failure(OutputNotAString)
  {
    CommandLineUrlReachesEngine(file, cli, url);
    UndefinedOutputReachesEngine(file, cli);
  }

  /** A non-empty URL on the command line is the engine's URL, whatever the
      file says. */
  lemma CommandLineUrlReachesEngine(file: Object, cli: Object, url: string)
    requires "url" in cli && cli["url"] == Str(url) && url != ""
    requires ToEngineConfig(Merge(Defaults(), file, cli)).Some?
    ensures ToEngineConfig(Merge(Defaults(), file, cli)).value.url == Some(url)
  {
    assert Get(Merge(Defaults(), file, cli), "url") == Str(url);
  }

  /** An `undefined` output on the command line leaves the engine without
      an output directory, whatever the file says. */
  lemma UndefinedOutputReachesEngine(file: Object, cli: Object)
    requires "output" in cli && cli["output"] == Undefined
    requires ToEngineConfig(Merge(Defaults(), file, cli)).Some?
    ensures ToEngineConfig(Merge(Defaults(), file, cli)).value.output.None?
  {
    assert Get(Merge(Defaults(), file, cli), "output") == Undefined;
  }

  /** `URL --output` sets the URL, then `output` to `undefined`. */
  lemma UrlThenDanglingOutput(url: string)
    requires url != "" && url[0] != '-'
    ensures ParseArgs([url, "--output"]) == Success(map["url" := Str(url), "output" := Undefined])
  {
    var args := [url, "--output"];
    var m := map["url" := Str(url)];
    assert !StartsWith(url, "-");
    assert Update(args, 0) == Success(Some(("url", Str(url))));
    assert Width(url) == 1;
    assert ParseFrom(args, 0, map[]) == ParseFrom(args, 1, m);
    assert Update(args, 1) == Success(Some(("output", Undefined)));
    assert ParseFrom(args, 3, m["output" := Undefined]) == Success(m["output" := Undefined]);
  }

  /** A command line with no positional argument, over a file without a
      URL, leaves the URL `null`, and the engine refuses to run. */
  lemma NoUrlIsRefused(args: seq<string>, file: Object, reg: Registry, catalog: Catalog, runs: seq<seq<DriverStep>>)
    requires ParseArgs(args).Success?
    requires forall h :: h in Heads(args, 0) ==> StartsWith(args[h], "-")
    requires "url" !in file
    requires ToEngineConfig(Merge(Defaults(), file, ParseArgs(args).value)).Some?
    requires ValidRegistry(reg) && CatalogCovers(reg, catalog)
    requires var cfg := ToEngineConfig(Merge(Defaults(), file, ParseArgs(args).value)).value;
             RunsCover(runs, |Requests(cfg, reg, catalog)|)
    ensures var cfg := ToEngineConfig(Merge(Defaults(), file, ParseArgs(args).value)).value;
            CaptureScreenshots(cfg, reg, catalog, runs) == Failure(MissingUrl)
  {
    NoPositionalNoUrl(args);
    MergedUrlIsNull(file, ParseArgs(args).value);
  }

  /** Without a positional argument the command line sets no URL. */
  lemma NoPositionalNoUrl(args: seq<string>)
    requires ParseArgs(args).Success?
    requires forall h :: h in Heads(args, 0) ==> StartsWith(args[h], "-")
    ensures "url" !in ParseArgs(args).value
  {
    ParseArgsLastWins(args, "url");
  }

  /** With no layer above the defaults setting it, the URL stays `null`. */
  lemma MergedUrlIsNull(file: Object, cli: Object)
    requires "url" !in file && "url" !in cli
    ensures Get(Merge(Defaults(), file, cli), "url") == Null
  {
    assert Defaults()["url"] == Null;
  }
}
