/** What the supervisor reads back from the command files the writer
    produces: the text `' '.join(pairs)` is parsed by `read_cmd_file` and
    decoded by `main`. */
module WriterReader {
  import opened Wrappers
  import opened PyText
  import opened CommandLine
  import opened StormPlan
  import opened Supervisor
  import opened CommandFiles
  import opened KeplerCommand
  import opened IopSignal

  /** A token `split()` and `replace(': ', ':')` leave alone once joined:
      no whitespace, and no colon at its end. */
  predicate PlainToken(t: string) {
    NoSpace(t) && (t == [] || t[|t| - 1] != ':')
  }

  /** When the tokens parse and are plain, reading the written text gives
      back the dictionary the writer checked. */
  lemma WrittenFileReadsBack(pairs: seq<string>)
    requires ParsePairs(pairs).Some?
    requires forall k :: 0 <= k < |pairs| ==> PlainToken(pairs[k])
    ensures ReadCmdFile(Join(" ", pairs)) == ParsePairs(pairs)
  {
    ParsePairsFails(pairs);
    forall k | 0 <= k < |pairs| ensures pairs[k] != [] {
      assert multiset(pairs[k])[':'] == 1;
    }
    var s := Join(" ", pairs);
    JoinEndsWithWord(pairs);
    OneCleanLine(s);
    JoinHasNoColonSpace(pairs);
    SplitWsJoin(pairs);
  }

  /** The text after a pair's first token: nothing, or a space and the
      remaining tokens. */
  function Gap(rest: seq<string>): string {
    if rest == [] then "" else " " + Join(" ", rest)
  }

  lemma JoinTwoAndRest(k: string, b: string, rest: seq<string>)
    ensures Join(" ", [k + ":", b] + rest) == k + (": " + (b + Gap(rest)))
  {
    var ts := [k + ":", b] + rest;
    assert ts[0] == k + ":" && ts[1..] == [b] + rest;
    if rest != [] {
      assert ([b] + rest)[1..] == rest;
    }
  }

  lemma Regroup(a: string, b: string, c: string, d: string)
    ensures a + (b + (c + d)) == ((a + b) + c) + d
  {
  }

  lemma GapStaysBlank(rest: seq<string>)
    ensures var v := ReplaceColonSpace(Gap(rest)); v == [] || v[0] == ' '
  {
    if rest != [] {
      ReplaceColonSpaceBlank(Join(" ", rest));
    }
  }

  /** A token with an empty value, `k:`, followed by a token holding a
      colon: the reader's `replace(': ', ':')` glues the two into one token
      with two colons, so `read_cmd_file` raises. */
  lemma EmptyValueMergesWithNext(k: string, b: string, rest: seq<string>)
    requires NoSpace(k) && ':' !in k
    requires b != [] && NoSpace(b) && ':' in b && b[|b| - 1] != ':'
    requires forall i :: 0 <= i < |rest| ==> rest[i] != [] && NoSpace(rest[i])
    ensures Tokens(Join(" ", [k + ":", b] + rest)) != []
    ensures Tokens(Join(" ", [k + ":", b] + rest))[0] == k + ":" + b
    ensures ReadCmdFile(Join(" ", [k + ":", b] + rest)) == None
  {
    var s := Join(" ", [k + ":", b] + rest);
    MergedLine(k, b, rest);
    var t, v := k + ":" + b, ReplaceColonSpace(Gap(rest));
    GapStaysBlank(rest);
    MergedFirstToken(k, b, v);
    FirstTokenBreaksParse(s, t, v);
  }

  /** The line `read_cmd_file` splits, for that layout. */
  lemma MergedLine(k: string, b: string, rest: seq<string>)
    requires NoSpace(k) && ':' !in k
    requires b != [] && NoSpace(b) && b[|b| - 1] != ':'
    requires forall i :: 0 <= i < |rest| ==> rest[i] != [] && NoSpace(rest[i])
    ensures ReplaceColonSpace(RStrip(ReadLine(Join(" ", [k + ":", b] + rest))))
         == (k + ":" + b) + ReplaceColonSpace(Gap(rest))
  {
    MergedTextShape(k, b, rest);
    MergedReplace(k, b, rest);
  }

  /** A first token with two colons makes `read_cmd_file` raise. */
  lemma FirstTokenBreaksParse(s: string, t: string, v: string)
    requires ReplaceColonSpace(RStrip(ReadLine(s))) == t + v
    requires SplitWs(t + v) != [] && SplitWs(t + v)[0] == t
    requires multiset(t)[':'] >= 2
    ensures Tokens(s) != [] && Tokens(s)[0] == t
    ensures ReadCmdFile(s) == None
  {
    var ts := Tokens(s);
    assert ts == SplitWs(t + v);
    assert multiset(ts[0])[':'] != 1;
    ParsePairsFails(ts);
  }

  /** The joined text is one line without trailing whitespace, laid out as
      the key, `": "`, the second token and the rest. */
  lemma MergedTextShape(k: string, b: string, rest: seq<string>)
    requires NoSpace(k) && b != [] && NoSpace(b)
    requires forall i :: 0 <= i < |rest| ==> rest[i] != [] && NoSpace(rest[i])
    ensures var s := Join(" ", [k + ":", b] + rest);
      ReadLine(s) == s && RStrip(s) == s && s == k + (": " + (b + Gap(rest)))
  {
    var ts := [k + ":", b] + rest;
    MergedTokensWords(k, b, rest);
    JoinEndsWithWord(ts);
    OneCleanLine(Join(" ", ts));
    JoinTwoAndRest(k, b, rest);
  }

  lemma MergedTokensWords(k: string, b: string, rest: seq<string>)
    requires NoSpace(k) && b != [] && NoSpace(b)
    requires forall i :: 0 <= i < |rest| ==> rest[i] != [] && NoSpace(rest[i])
    ensures var ts := [k + ":", b] + rest; forall i :: 0 <= i < |ts| ==> ts[i] != [] && NoSpace(ts[i])
  {
    var ts := [k + ":", b] + rest;
    assert NoSpace(k + ":") by {
      forall i | 0 <= i < |k + ":"| ensures !IsSpace((k + ":")[i]) {
        if i < |k| { assert (k + ":")[i] == k[i]; }
      }
    }
    forall i | 0 <= i < |ts| ensures ts[i] != [] && NoSpace(ts[i]) {
      if i >= 2 { assert ts[i] == rest[i - 2]; }
    }
  }

  /** `readline()` and `rstrip()` leave alone a text with no line boundary
      and no trailing whitespace. */
  lemma OneCleanLine(s: string)
    requires NoLineBreak(s) && (s == [] || !IsSpace(s[|s| - 1]))
    ensures ReadLine(s) == s && RStrip(s) == s
  {
  }

  /** `replace(': ', ':')` on that layout removes exactly the space after
      the empty value. */
  lemma MergedReplace(k: string, b: string, rest: seq<string>)
    requires NoSpace(k) && ':' !in k
    requires b != [] && NoSpace(b) && b[|b| - 1] != ':'
    ensures ReplaceColonSpace(k + (": " + (b + Gap(rest))))
         == (k + ":" + b) + ReplaceColonSpace(Gap(rest))
  {
    ReplaceColonSpacePrefix(k, ": " + (b + Gap(rest)));
    ReplaceColonSpaceColon(b + Gap(rest));
    ReplaceColonSpacePrefix(b, Gap(rest));
    Regroup(k, ":", b, ReplaceColonSpace(Gap(rest)));
  }

  /** `split()` then yields the glued token first, and it has two colons. */
  lemma MergedFirstToken(k: string, b: string, v: string)
    requires NoSpace(k) && NoSpace(b) && ':' in b
    requires v == [] || v[0] == ' '
    ensures SplitWs((k + ":" + b) + v) != [] && SplitWs((k + ":" + b) + v)[0] == k + ":" + b
    ensures multiset(k + ":" + b)[':'] >= 2
  {
    var t := k + ":" + b;
    assert NoSpace(t) by {
      forall i | 0 <= i < |t| ensures !IsSpace(t[i]) {
        if i < |k| { assert t[i] == k[i]; }
        else if i > |k| { assert t[i] == b[i - |k| - 1]; }
      }
    }
    SplitWsFirstWord(t, v);
    assert multiset(t) == multiset(k) + multiset(":") + multiset(b);
  }

  /** Prefixing a valid invocation `xs` with an empty-valued copy of its
      first key (`command: command:scan azimuth:1 range:1`) keeps it valid
      for the writer, whose dictionary lets the later token win, while the
      file it writes can no longer be read by the supervisor. */
  lemma EmptyDuplicateUnreadable(k: string, xs: seq<string>, toFloat: string -> Option<real>)
    requires Accepted(xs, toFloat)
    requires forall i :: 0 <= i < |xs| ==> PlainToken(xs[i])
    requires xs != [] && SplitPair(xs[0]).Some? && k == SplitPair(xs[0]).value.0
    ensures Accepted([k + ":"] + xs, toFloat)
    ensures ReadCmdFile(Join(" ", [k + ":"] + xs)) == None
  {
    ParsedTokensAreWords(xs);
    TokenPartsUnstripped(xs[0]);
    EmptyValueShadowed(k, xs);
    EmptyValueBeforePair(k, xs);
  }

  /** Tokens that parse hold a colon each, so none is empty. */
  lemma ParsedTokensAreWords(xs: seq<string>)
    requires ParsePairs(xs).Some?
    ensures forall i :: 0 <= i < |xs| ==> xs[i] != [] && ':' in xs[i]
  {
    ParsePairsFails(xs);
    forall i | 0 <= i < |xs| ensures xs[i] != [] && ':' in xs[i] {
      assert multiset(xs[i])[':'] == 1;
    }
  }

  /** `EmptyValueMergesWithNext` for a token sequence with its head. */
  lemma EmptyValueBeforePair(k: string, xs: seq<string>)
    requires NoSpace(k) && ':' !in k
    requires forall i :: 0 <= i < |xs| ==> xs[i] != [] && ':' in xs[i] && PlainToken(xs[i])
    requires xs != []
    ensures ReadCmdFile(Join(" ", [k + ":"] + xs)) == None
  {
    assert [k + ":"] + xs == [k + ":", xs[0]] + xs[1..];
    forall i | 0 <= i < |xs[1..]| ensures xs[1..][i] != [] && NoSpace(xs[1..][i]) {
      assert xs[1..][i] == xs[i + 1];
    }
    EmptyValueMergesWithNext(k, xs[0], xs[1..]);
  }

  /** An empty-valued token in front of tokens that assign its key changes
      nothing in the parsed dictionary. */
  lemma EmptyValueShadowed(k: string, xs: seq<string>)
    requires NoSpace(k) && ':' !in k
    requires xs != [] && ParsePairs(xs).Some? && SplitPair(xs[0]).Some? && SplitPair(xs[0]).value.0 == k
    ensures ParsePairs([k + ":"] + xs) == ParsePairs(xs)
  {
    SplitPairEmptyValue(k);
    ParsePairsContents(xs);
    assert k in ParsePairs(xs).value;
    ParsePairsShadowed(k + ":", xs);
  }

  /** With no `delay` key, `main` reads the delay as `0`. */
  lemma NoDelayKey(d: map<string, string>, toFloat: string -> Option<real>, lib: Lib)
    requires ValidCommandDict(d, toFloat)
    ensures "delay" !in d && FloatOr0(d, "delay", lib) == Some(0.0)
  {
    assert "delay" !in ArgSet(RequiredArgs(d["command"]));
  }

  /** A dictionary the writer accepts for `rhi`/`ppi` whose `nave` is not
      an `int()` literal decodes to nothing: `main` raises. */
  lemma NaveNotIntRaises(d: map<string, string>, lib: Lib)
    requires ValidCommandDict(d, lib.toFloat) && d["command"] != "scan"
    requires "nave" in d && lib.toInt(d["nave"]).None?
    ensures Decode(d, lib) == None
  {
    NoDelayKey(d, lib.toFloat, lib);
  }

  /** `nave` is checked with `float()` by the writer but read with `int()`
      by the supervisor: an accepted `rhi` or `ppi` file whose `nave` is not
      an integer literal (`nave:2.5`) cannot be decoded, so the cycle that
      picks it up raises. */
  lemma NaveCheckedAsFloatReadAsInt(pairs: seq<string>, lib: Lib, name: string, listing: map<string, FileEntry>)
    requires Accepted(pairs, lib.toFloat)
    requires forall k :: 0 <= k < |pairs| ==> PlainToken(pairs[k])
    requires var d := ParsePairs(pairs).value;
      d["command"] != "scan" && "nave" in d && lib.toInt(d["nave"]).None?
    requires name != "" && name in listing && listing[name].content == Join(" ", pairs)
    ensures CommandOf(name, listing, lib) == None
  {
    WrittenFileReadsBack(pairs);
    NaveNotIntRaises(ParsePairs(pairs).value, lib);
  }

  /** A readable token is plain. */
  lemma ReadableIsPlain(t: string)
    requires Readable(t)
    ensures PlainToken(t)
  {
  }

  /** What `main` decodes from a dictionary the corrected writer accepts:
      never an error and never an ignored command; for `scan` a storm scan,
      or `stop` beyond the range limit; for `rhi`/`ppi` the single scan with
      the file's parameters; the delay is always `0`. */
  lemma ValidDictDecodes(d: map<string, string>, lib: Lib)
    requires ValidCommandDict(d, lib.toFloat)
    requires d["command"] != "scan" ==> "nave" in d && lib.toInt(d["nave"]).Some?
    ensures var c := Decode(d, lib);
      && c.Some? && !c.value.Ignored?
      && (c.value.Foreground? ==> c.value.delay == 0.0)
      && (d["command"] == "scan" ==>
            && FloatOr0(d, "azimuth", lib).Some? && FloatOr0(d, "range", lib).Some?
            && c.value == if FloatOr0(d, "range", lib).value > MaxRange then Stop
                          else Foreground(Storm(FloatOr0(d, "azimuth", lib).value, FloatOr0(d, "range", lib).value), 0.0))
      && (d["command"] != "scan" ==>
            && c.value.Foreground? && c.value.fg.Single?
            && var q := c.value.fg.req;
            && q.kind == (if d["command"] == "rhi" then RHI else PPI)
            && FloatOr0(d, "start_angle", lib) == Some(q.startAngle)
            && FloatOr0(d, "angle_span", lib) == Some(q.angleSpan)
            && FloatOr0(d, "fixed_angle", lib) == Some(q.fixedAngle)
            && FloatOr0(d, "deg_per_sec", lib) == Some(q.degPerSec)
            && IntOr0(d, "nave", lib) == Some(q.nave))
  {
    NoDelayKey(d, lib.toFloat, lib);
    var args := RequiredArgs(d["command"]);
    if d["command"] == "scan" {
      assert ArgOk(d, args[0], lib.toFloat) && ArgOk(d, args[1], lib.toFloat);
    } else {
      assert ArgOk(d, args[0], lib.toFloat) && ArgOk(d, args[1], lib.toFloat) && ArgOk(d, args[2], lib.toFloat);
      assert ArgOk(d, args[3], lib.toFloat);
    }
  }

  /** Everything the corrected writer accepts reads back as the dictionary
      it checked. */
  lemma StrictRoundTrip(pairs: seq<string>, lib: Lib)
    requires StrictlyAccepted(pairs, lib)
    ensures ReadCmdFile(Join(" ", pairs)) == ParsePairs(pairs)
    ensures ValidCommandDict(ParsePairs(pairs).value, lib.toFloat)
  {
    forall k | 0 <= k < |pairs| ensures PlainToken(pairs[k]) {
      ReadableIsPlain(pairs[k]);
    }
    WrittenFileReadsBack(pairs);
  }

  /** A file the corrected writer produced never makes the supervisor's
      cycle raise while reading or decoding it. */
  lemma StrictFileDecodes(pairs: seq<string>, lib: Lib, name: string, listing: map<string, FileEntry>)
    requires StrictlyAccepted(pairs, lib)
    requires name != "" && name in listing && listing[name].content == Join(" ", pairs)
    ensures CommandOf(name, listing, lib) == Decode(ParsePairs(pairs).value, lib)
    ensures CommandOf(name, listing, lib).Some? && !CommandOf(name, listing, lib).value.Ignored?
  {
    StrictRoundTrip(pairs, lib);
    ValidDictDecodes(ParsePairs(pairs).value, lib);
  }

  /** A file the writer names is picked up by the supervisor's next poll
      when it is new, fresh and strictly newer than every other new file:
      its name matches `kepler*.log`, so it is among the current files. */
  lemma WrittenFileTakenUp(t: Stamp, previous: set<string>, listing: map<string, real>, now: real, cmdFile: string)
    requires ValidStamp(t)
    requires FileName(t) in listing && FileName(t) !in previous
    requires IsFileRecent(listing[FileName(t)], now, FreshnessWindow)
    requires forall g :: g in CurrentFiles(listing) - previous && g != FileName(t) ==> listing[g] < listing[FileName(t)]
    requires IsSelection(cmdFile, previous, listing, now)
    ensures FileName(t) in CurrentFiles(listing)
    ensures cmdFile == FileName(t)
  {
    var name := FileName(t);
    assert name in CurrentFiles(listing) - previous;
  }
}
