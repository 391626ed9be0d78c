/** `kasbex_kepler_command.py`: validates `key:value` arguments and
    produces the command file's name and text for the supervisor to read. */
module KeplerCommand {
  import opened Wrappers
  import opened PyText
  import opened CommandLine
  import opened CommandFiles
  import opened Supervisor

  /** The fields of `datetime.now()` that the file name shows. */
  datatype Stamp = Stamp(year: int, month: int, day: int, hour: int, minute: int, second: int)

  /** Field ranges of a `datetime`; years are taken to have four digits. */
  predicate ValidStamp(t: Stamp) {
    && 1000 <= t.year <= 9999 && 1 <= t.month <= 12 && 1 <= t.day <= 31
    && 0 <= t.hour <= 23 && 0 <= t.minute <= 59 && 0 <= t.second <= 59
  }

  function Digit(n: int): char
    requires 0 <= n < 10
  {
    ('0' as int + n) as char
  }

  predicate IsDigit(c: char) {
    '0' <= c <= '9'
  }

  function DigitValue(c: char): int {
    c as int - '0' as int
  }

  predicate AllDigits(s: string) {
    forall i :: 0 <= i < |s| ==> IsDigit(s[i])
  }

  /** `%m`, `%d`, `%H`, `%M`, `%S`: two digits, zero-padded. */
  function Pad2(n: int): (r: string)
    requires 0 <= n < 100
    ensures |r| == 2 && AllDigits(r)
  {
    [Digit(n / 10), Digit(n % 10)]
  }

  /** `%Y` for a four-digit year. */
  function Pad4(n: int): (r: string)
    requires 1000 <= n < 10000
    ensures |r| == 4 && AllDigits(r)
  {
    Pad2(n / 100) + Pad2(n % 100)
  }

  function Num2(s: string): int
    requires |s| == 2
  {
    10 * DigitValue(s[0]) + DigitValue(s[1])
  }

  function Num4(s: string): int
    requires |s| == 4
  {
    100 * Num2(s[..2]) + Num2(s[2..])
  }

  /** `now.strftime("kepler-%Y%m%d-%H%M%S.log")`: always 26 characters, and
      always a name the supervisor's `kepler*.log` glob picks up. */
  function FileName(t: Stamp): (r: string)
    requires ValidStamp(t)
    ensures |r| == 26 && MatchesCmdPattern(r)
  {
    "kepler-" + Pad4(t.year) + Pad2(t.month) + Pad2(t.day) + "-"
      + Pad2(t.hour) + Pad2(t.minute) + Pad2(t.second) + ".log"
  }

  /** Reads a stamp back from a file name; `None` for any name `FileName`
      does not produce. */
  function ParseFileName(s: string): Option<Stamp> {
    if |s| == 26 && s[..7] == "kepler-" && s[15] == '-' && s[22..] == ".log"
       && AllDigits(s[7..15]) && AllDigits(s[16..22])
    then
      var t := Stamp(Num4(s[7..11]), Num2(s[11..13]), Num2(s[13..15]),
                     Num2(s[16..18]), Num2(s[18..20]), Num2(s[20..22]));
      if ValidStamp(t) then Some(t) else None
    else None
  }

  lemma DivMod(a: int, b: int, base: int)
    requires base == 10 || base == 100
    requires 0 <= b < base
    ensures (base * a + b) / base == a && (base * a + b) % base == b
  {
  }

  lemma Pad2RoundTrip(n: int)
    requires 0 <= n < 100
    ensures Num2(Pad2(n)) == n
  {
    DivMod(n / 10, n % 10, 10);
  }

  lemma Pad4RoundTrip(n: int)
    requires 1000 <= n < 10000
    ensures Num4(Pad4(n)) == n
  {
    var s := Pad4(n);
    assert s[..2] == Pad2(n / 100) && s[2..] == Pad2(n % 100);
    Pad2RoundTrip(n / 100);
    Pad2RoundTrip(n % 100);
  }

  lemma Num2RoundTrip(s: string)
    requires |s| == 2 && AllDigits(s)
    ensures 0 <= Num2(s) < 100 && Pad2(Num2(s)) == s
  {
    assert IsDigit(s[0]) && IsDigit(s[1]);
    DivMod(DigitValue(s[0]), DigitValue(s[1]), 10);
  }

  lemma Num4RoundTrip(s: string)
    requires |s| == 4 && AllDigits(s) && 1000 <= Num4(s)
    ensures Num4(s) < 10000 && Pad4(Num4(s)) == s
  {
    assert s[..2][0] == s[0] && s[..2][1] == s[1] && s[2..][0] == s[2] && s[2..][1] == s[3];
    Num2RoundTrip(s[..2]);
    Num2RoundTrip(s[2..]);
    DivMod(Num2(s[..2]), Num2(s[2..]), 100);
    assert s == s[..2] + s[2..];
  }

  lemma DigitsWithin(s: string, i: nat, j: nat, a: nat, b: nat)
    requires i <= a <= b <= j <= |s| && AllDigits(s[i..j])
    ensures AllDigits(s[a..b])
  {
    assert forall k :: 0 <= k < b - a ==> s[a..b][k] == s[i..j][k + a - i];
  }

  /** The name written for a stamp reads back as that stamp. */
  lemma FileNameRoundTrip(t: Stamp)
    requires ValidStamp(t)
    ensures ParseFileName(FileName(t)) == Some(t)
  {
    var s := FileName(t);
    assert s[..7] == "kepler-";
    assert s[7..11] == Pad4(t.year) && s[11..13] == Pad2(t.month) && s[13..15] == Pad2(t.day);
    assert s[16..18] == Pad2(t.hour) && s[18..20] == Pad2(t.minute) && s[20..22] == Pad2(t.second);
    assert s[22..] == ".log";
    assert AllDigits(s[7..15]) by {
      assert s[7..15] == Pad4(t.year) + Pad2(t.month) + Pad2(t.day);
    }
    assert AllDigits(s[16..22]) by {
      assert s[16..22] == Pad2(t.hour) + Pad2(t.minute) + Pad2(t.second);
    }
    Pad4RoundTrip(t.year);
    Pad2RoundTrip(t.month);
    Pad2RoundTrip(t.day);
    Pad2RoundTrip(t.hour);
    Pad2RoundTrip(t.minute);
    Pad2RoundTrip(t.second);
  }

  /** Every name `ParseFileName` accepts is the file name of its stamp. */
  lemma ParseFileNameInverse(s: string)
    requires ParseFileName(s).Some?
    ensures ValidStamp(ParseFileName(s).value) && FileName(ParseFileName(s).value) == s
  {
    DigitsWithin(s, 7, 15, 7, 11);
    DigitsWithin(s, 7, 15, 11, 13);
    DigitsWithin(s, 7, 15, 13, 15);
    DigitsWithin(s, 16, 22, 16, 18);
    DigitsWithin(s, 16, 22, 18, 20);
    DigitsWithin(s, 16, 22, 20, 22);
    Num4RoundTrip(s[7..11]);
    Num2RoundTrip(s[11..13]);
    Num2RoundTrip(s[13..15]);
    Num2RoundTrip(s[16..18]);
    Num2RoundTrip(s[18..20]);
    Num2RoundTrip(s[20..22]);
    assert s == s[..7] + s[7..11] + s[11..13] + s[13..15] + [s[15]] + s[16..18] + s[18..20] + s[20..22] + s[22..];
  }

  /** The exception a rejected invocation raises: `Exception("Invalid
      args …")`, `ValueError` for the command or an argument, or the
      `AssertionError` listing the keys left over; `Unreadable` is raised
      only by the corrected writer. */
  datatype WriterError =
    | InvalidArgs
    | InvalidCommand(cmd: string)
    | BadArg(arg: string)
    | UnexpectedKeys(rest: map<string, string>)
    | Unreadable(token: string)

  /** What a successful invocation writes. */
  datatype CommandFile = CommandFile(name: string, content: string)

  /** The numeric arguments a command must carry, in the order checked. */
  function RequiredArgs(cmd: string): (args: seq<string>)
    ensures "command" !in args
    ensures forall j, k :: 0 <= j < k < |args| ==> args[j] != args[k]
  {
    if cmd == "scan" then ["azimuth", "range"]
    else if cmd == "rhi" || cmd == "ppi" then ["start_angle", "angle_span", "fixed_angle", "deg_per_sec", "nave"]
    else []
  }

  function ArgSet(args: seq<string>): set<string> {
    set j | 0 <= j < |args| :: args[j]
  }

  /** `arg` is present and `float()` accepts its value. */
  predicate ArgOk(d: map<string, string>, arg: string, toFloat: string -> Option<real>) {
    arg in d && toFloat(d[arg]).Some?
  }

  /** The invocations the writer accepts: the tokens parse, `command` is
      `scan`, `rhi` or `ppi`, each required argument is present and numeric,
      and no other key is present. */
  predicate Accepted(pairs: seq<string>, toFloat: string -> Option<real>) {
    ParsePairs(pairs).Some? && ValidCommandDict(ParsePairs(pairs).value, toFloat)
  }

  /** A dictionary that passes the writer's checks. */
  predicate ValidCommandDict(d: map<string, string>, toFloat: string -> Option<real>) {
    && "command" in d && IsScanCommand(d["command"])
    && var args := RequiredArgs(d["command"]);
    && (forall j :: 0 <= j < |args| ==> ArgOk(d, args[j], toFloat))
    && d.Keys == {"command"} + ArgSet(args)
  }

  /** The loop popping and converting each required argument: `bad` is the
      first argument missing or not numeric, and otherwise `rest` is what
      remains of the dictionary. */
  method PopArgs(cmdDict: map<string, string>, args: seq<string>, toFloat: string -> Option<real>)
    returns (rest: map<string, string>, bad: Option<string>)
    requires forall j, k :: 0 <= j < k < |args| ==> args[j] != args[k]
    ensures bad.None? ==>
      && (forall j :: 0 <= j < |args| ==> ArgOk(cmdDict, args[j], toFloat))
      && rest == cmdDict - ArgSet(args)
    ensures bad.Some? ==>
      exists k :: 0 <= k < |args| && args[k] == bad.value && !ArgOk(cmdDict, args[k], toFloat) &&
        forall j :: 0 <= j < k ==> ArgOk(cmdDict, args[j], toFloat)
  {
    rest := cmdDict;
    var i := 0;
    while i < |args|
      invariant 0 <= i <= |args|
      invariant rest == cmdDict - ArgSet(args[..i])
      invariant forall j :: 0 <= j < i ==> ArgOk(cmdDict, args[j], toFloat)
    {
      var arg := args[i];
      assert arg !in ArgSet(args[..i]);
      if arg !in rest || toFloat(rest[arg]).None? {
        return rest, Some(arg);
      }
      assert ArgSet(args[..i + 1]) == ArgSet(args[..i]) + {arg} by {
        assert args[..i + 1] == args[..i] + [arg];
      }
      rest := rest - {arg};
      i := i + 1;
    }
    assert args[..i] == args;
    return rest, None;
  }

  /** With every argument present, nothing is left over exactly when the
      keys are `command` and the arguments. */
  lemma NoneLeftOver(d: map<string, string>, args: seq<string>)
    requires "command" in d && "command" !in args
    requires forall j :: 0 <= j < |args| ==> args[j] in d
    ensures (d - {"command"}) - ArgSet(args) == map[] <==> d.Keys == {"command"} + ArgSet(args)
  {
    if d.Keys == {"command"} + ArgSet(args) {
      assert ((d - {"command"}) - ArgSet(args)).Keys == {};
    }
    var keys := {"command"} + ArgSet(args);
    if d.Keys != keys {
      assert keys <= d.Keys;
      var k :| k in d.Keys && k !in keys;
      assert k in (d - {"command"}) - ArgSet(args);
    }
  }

  /** The checks of `main` on the parsed dictionary (`None` when building it
      raised): `Success` when every check passes, else the first error. */
  method CheckDict(parsed: Option<map<string, string>>, toFloat: string -> Option<real>)
    returns (r: Result<(), WriterError>)
    ensures r == Failure(InvalidArgs) <==> parsed.None? || "command" !in parsed.value
    ensures r.Failure? && r.error.InvalidCommand? <==>
      parsed.Some? && "command" in parsed.value && !IsScanCommand(parsed.value["command"])
    ensures r.Failure? && r.error.InvalidCommand? ==> r.error.cmd == parsed.value["command"]
    ensures r.Success? || r.error.BadArg? || r.error.UnexpectedKeys? ==>
      parsed.Some? && "command" in parsed.value && IsScanCommand(parsed.value["command"])
    ensures r.Failure? && r.error.BadArg? ==>
      var d := parsed.value;
      var args := RequiredArgs(d["command"]);
      exists k :: 0 <= k < |args| && args[k] == r.error.arg && !ArgOk(d, args[k], toFloat) &&
        forall j :: 0 <= j < k ==> ArgOk(d, args[j], toFloat)
    ensures r.Success? || (r.Failure? && r.error.UnexpectedKeys?) ==>
      var d := parsed.value;
      var args := RequiredArgs(d["command"]);
      && (forall j :: 0 <= j < |args| ==> ArgOk(d, args[j], toFloat))
      && (r.Success? <==> d.Keys == {"command"} + ArgSet(args))
    ensures r.Failure? && r.error.UnexpectedKeys? ==>
      var d := parsed.value;
      var args := RequiredArgs(d["command"]);
      && r.error.rest == d - ({"command"} + ArgSet(args))
      && r.error.rest != map[]
    ensures !(r.Failure? && r.error.Unreadable?)
  {
    if parsed.None? || "command" !in parsed.value {
      return Failure(InvalidArgs);
    }
    var d := parsed.value;
    var cmd := d["command"];
    var cmdDict := d - {"command"};
    if !IsScanCommand(cmd) {
      return Failure(InvalidCommand(cmd));
    }
    var args := RequiredArgs(cmd);
    assert forall a :: a != "command" ==> ArgOk(cmdDict, a, toFloat) == ArgOk(d, a, toFloat);
    var rest, bad := PopArgs(cmdDict, args, toFloat);
    if bad.Some? {
      return Failure(BadArg(bad.value));
    }
    assert rest == d - ({"command"} + ArgSet(args));
    NoneLeftOver(d, args);
    if |rest| != 0 {
      assert rest != map[];
      return Failure(UnexpectedKeys(rest));
    }
    return Success(());
  }

  /** `main` of `kasbex_kepler_command.py` for the argument tokens `pairs`,
      the clock reading `now` and Python's `float()`. */
  method WriteCommand(pairs: seq<string>, now: Stamp, toFloat: string -> Option<real>)
    returns (r: Result<CommandFile, WriterError>)
    requires ValidStamp(now)
    ensures r.Success? <==> Accepted(pairs, toFloat)
    ensures r.Success? ==> r.value == CommandFile(FileName(now), Join(" ", pairs))
    ensures r == Failure(InvalidArgs) <==> ParsePairs(pairs).None? || "command" !in ParsePairs(pairs).value
    ensures r.Failure? && r.error.InvalidCommand? <==>
      ParsePairs(pairs).Some? && "command" in ParsePairs(pairs).value && !IsScanCommand(ParsePairs(pairs).value["command"])
    ensures r.Failure? && r.error.InvalidCommand? ==> r.error.cmd == ParsePairs(pairs).value["command"]
    ensures r.Failure? && r.error.BadArg? ==>
      var d := ParsePairs(pairs).value;
      var args := RequiredArgs(d["command"]);
      exists k :: 0 <= k < |args| && args[k] == r.error.arg && !ArgOk(d, args[k], toFloat) &&
        forall j :: 0 <= j < k ==> ArgOk(d, args[j], toFloat)
    ensures r.Failure? && r.error.UnexpectedKeys? ==>
      var d := ParsePairs(pairs).value;
      var args := RequiredArgs(d["command"]);
      && (forall j :: 0 <= j < |args| ==> ArgOk(d, args[j], toFloat))
      && r.error.rest == d - ({"command"} + ArgSet(args))
      && r.error.rest != map[]
    ensures !(r.Failure? && r.error.Unreadable?)
  {
    var name := FileName(now);
    var parsed := ParsePairs(pairs);
    var checked := CheckDict(parsed, toFloat);
    if checked.Failure? {
      return Failure(checked.error);
    }
    return Success(CommandFile(name, Join(" ", pairs)));
  }

  /** A token the supervisor's reader returns as written: no whitespace
      (its `split()` would cut it), one colon, and not ending in that colon
      (a trailing colon and the separating space are rewritten as one). */
  predicate Readable(t: string) {
    t != [] && NoSpace(t) && multiset(t)[':'] == 1 && t[|t| - 1] != ':'
  }

  /** A token is readable exactly when it has no whitespace and splits into
      a key and a non-empty value. */
  lemma ReadableMeans(t: string)
    ensures Readable(t) <==> NoSpace(t) && SplitPair(t).Some? && SplitPair(t).value.1 != ""
  {
    if Readable(t) {
      ReadableSplits(t);
    }
    if NoSpace(t) && SplitPair(t).Some? && SplitPair(t).value.1 != "" {
      SplitsReadable(t);
    }
  }

  /** A readable token splits into a key and a non-empty value. */
  lemma ReadableSplits(t: string)
    requires Readable(t)
    ensures SplitPair(t).Some? && SplitPair(t).value.1 != ""
  {
    SplitPairIffOneColon(t);
    TokenPartsUnstripped(t);
    var sp := SplitPair(t).value;
    assert t == sp.0 + ":" + sp.1;
  }

  /** A whitespace-free token that splits into a key and a non-empty value
      is readable. */
  lemma SplitsReadable(t: string)
    requires NoSpace(t) && SplitPair(t).Some? && SplitPair(t).value.1 != ""
    ensures Readable(t)
  {
    SplitPairIffOneColon(t);
    assert multiset(t)[':'] == 1;
    assert t != [];
    TokenPartsUnstripped(t);
    var sp := SplitPair(t).value;
    LastOfValue(t, sp.0, sp.1);
  }

  /** `k:v` ends in the last character of `v`, which is not a colon when `v`
      holds none. */
  lemma LastOfValue(t: string, k: string, v: string)
    requires t == k + ":" + v && v != "" && ':' !in v
    ensures t[|t| - 1] != ':'
  {
    assert t[|t| - 1] == v[|v| - 1];
    assert v[|v| - 1] in v;
  }

  /** The invocations the corrected writer accepts: those `WriteCommand`
      accepts whose tokens are all readable and whose `nave`, if the
      command has one, is also an `int()`. */
  predicate StrictlyAccepted(pairs: seq<string>, lib: Lib) {
    && Accepted(pairs, lib.toFloat)
    && (forall k :: 0 <= k < |pairs| ==> Readable(pairs[k]))
    && var d := ParsePairs(pairs).value;
    && (d["command"] != "scan" ==> "nave" in d && lib.toInt(d["nave"]).Some?)
  }

  /** The writer with the checks the supervisor's reading relies on: after
      `WriteCommand`'s own checks, each token must be readable and `nave`
      must parse with `int()`, as the supervisor reads it. */
  method WriteCommandStrict(pairs: seq<string>, now: Stamp, lib: Lib)
    returns (r: Result<CommandFile, WriterError>)
    requires ValidStamp(now)
    ensures r.Success? <==> StrictlyAccepted(pairs, lib)
    ensures r.Success? ==> r.value == CommandFile(FileName(now), Join(" ", pairs))
    ensures r.Failure? && r.error.Unreadable? ==>
      Accepted(pairs, lib.toFloat) && r.error.token in pairs && !Readable(r.error.token)
  {
    r := WriteCommand(pairs, now, lib.toFloat);
    if r.Failure? {
      return;
    }
    var bad := FirstUnreadable(pairs);
    if bad.Some? {
      return Failure(Unreadable(bad.value));
    }
    var d := ParsePairs(pairs).value;
    if d["command"] != "scan" && !("nave" in d && lib.toInt(d["nave"]).Some?) {
      return Failure(BadArg("nave"));
    }
  }

  /** The first token that is not readable, if any. */
  method FirstUnreadable(pairs: seq<string>) returns (bad: Option<string>)
    ensures bad.None? <==> forall k :: 0 <= k < |pairs| ==> Readable(pairs[k])
    ensures bad.Some? ==> exists k :: 0 <= k < |pairs| && pairs[k] == bad.value && !Readable(pairs[k]) &&
                                      (forall j :: 0 <= j < k ==> Readable(pairs[j]))
  {
    var i := 0;
    while i < |pairs|
      invariant 0 <= i <= |pairs|
      invariant forall k :: 0 <= k < i ==> Readable(pairs[k])
    {
      if !Readable(pairs[i]) {
        bad := Some(pairs[i]);
        assert pairs[i] == bad.value && !Readable(pairs[i]);
        return;
      }
      i := i + 1;
    }
    return None;
  }
}
