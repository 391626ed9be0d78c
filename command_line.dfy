/** `read_cmd_file`: one line of `key:value` tokens becomes a dictionary.
    A token that does not split on `':'` into exactly two parts makes the
    dictionary comprehension raise, so no dictionary is returned (`None`);
    otherwise later tokens overwrite earlier ones with the same key. */
module CommandLine {
  import opened Wrappers
  import opened PyText

  /** `key, value = t.split(':')` followed by `key.strip(), value.strip()`;
      `None` when the unpacking raises because `t` does not split into
      exactly two parts. */
  function SplitPair(t: string): (r: Option<(string, string)>)
    ensures r.Some? ==> ':' !in r.value.0 && ':' !in r.value.1
    ensures r.Some? ==> Trimmed(r.value.0) && Trimmed(r.value.1)
  {
    var p := SplitOn(t, ':');
    if |p| == 2 then
      StripKeeps(p[0], ':');
      StripKeeps(p[1], ':');
      Some((Strip(p[0]), Strip(p[1])))
    else None
  }

  /** The dictionary comprehension over pairs already split: the first
      failed unpacking raises, and a later pair overwrites an earlier one
      with the same key. */
  function BuildDict(ps: seq<Option<(string, string)>>): (r: Option<map<string, string>>)
    ensures r.Some? ==> |r.value| <= |ps|
    decreases |ps|
  {
    if ps == [] then Some(map[])
    else
      var front := BuildDict(ps[..|ps| - 1]);
      var last := ps[|ps| - 1];
      if front.None? || last.None? then None
      else Some(front.value[last.value.0 := last.value.1])
  }

  /** `{key.strip(): value.strip() for key, value in (p.split(':') for p in ts)}`;
      `None` when the unpacking raises for some token. */
  function ParsePairs(ts: seq<string>): (r: Option<map<string, string>>)
    ensures r.Some? <==> forall i :: 0 <= i < |ts| ==> SplitPair(ts[i]).Some?
    ensures r.Some? ==> forall k :: k in r.value ==> exists i :: 0 <= i < |ts| && SplitPair(ts[i]) == Some((k, r.value[k]))
  {
    var ps := SplitAll(ts);
    BuildDictFails(ps);
    if BuildDict(ps).Some? then BuildDictEntries(ps); BuildDict(ps) else None
  }

  /** `(p.split(':') for p in ts)`, each unpacked and stripped. */
  function SplitAll(ts: seq<string>): (ps: seq<Option<(string, string)>>)
    ensures |ps| == |ts|
    ensures forall i :: 0 <= i < |ts| ==> ps[i] == SplitPair(ts[i])
  {
    seq(|ts|, i requires 0 <= i < |ts| => SplitPair(ts[i]))
  }

  /** The tokens `read_cmd_file` sees: the first line, right-stripped, with
      `': '` rewritten as `':'`, split on whitespace. */
  function Tokens(content: string): (ts: seq<string>)
    ensures forall k :: 0 <= k < |ts| ==> ts[k] != [] && NoSpace(ts[k])
  {
    SplitWs(ReplaceColonSpace(RStrip(ReadLine(content))))
  }

  /** `read_cmd_file` on a file whose text is `content`: it raises exactly
      when a token of the first line does not hold exactly one colon, and
      every key and value it returns is free of colons and whitespace. */
  function ReadCmdFile(content: string): (r: Option<map<string, string>>)
    ensures r.Some? <==> forall i :: 0 <= i < |Tokens(content)| ==> multiset(Tokens(content)[i])[':'] == 1
    ensures r.Some? ==> forall k :: k in r.value ==>
      ':' !in k && NoSpace(k) && ':' !in r.value[k] && NoSpace(r.value[k])
  {
    var ts := Tokens(content);
    ParsePairsFails(ts);
    var r := ParsePairs(ts);
    assert r.Some? ==> forall k :: k in r.value ==> NoSpace(k) && NoSpace(r.value[k]) by {
      if r.Some? {
        forall k | k in r.value ensures NoSpace(k) && NoSpace(r.value[k]) {
          var i :| 0 <= i < |ts| && SplitPair(ts[i]) == Some((k, r.value[k]));
          TokenPartsUnstripped(ts[i]);
        }
      }
    }
    r
  }

  /** A token splits into a pair exactly when it holds one colon, and then
      it is the key text, a colon and the value text. */
  lemma SplitPairIffOneColon(t: string)
    ensures SplitPair(t).Some? <==> multiset(t)[':'] == 1
    ensures SplitPair(t).Some? ==> t == SplitOn(t, ':')[0] + ":" + SplitOn(t, ':')[1]
  {
    SplitOnCount(t, ':');
    JoinSplitOn(t, ':');
    var p := SplitOn(t, ':');
    if |p| == 2 {
      assert Join([':'], p) == p[0] + [':'] + Join([':'], p[1..]);
    }
  }

  /** Building fails exactly when some pair failed to unpack. */
  lemma {:induction false} BuildDictFails(ps: seq<Option<(string, string)>>)
    ensures BuildDict(ps).None? <==> exists i :: 0 <= i < |ps| && ps[i].None?
    decreases |ps|
  {
    if ps != [] {
      var front := ps[..|ps| - 1];
      BuildDictFails(front);
      if exists i :: 0 <= i < |front| && front[i].None? {
        var i :| 0 <= i < |front| && front[i].None?;
        assert ps[i] == front[i];
      }
      if exists i :: 0 <= i < |ps| && ps[i].None? {
        var i :| 0 <= i < |ps| && ps[i].None?;
        if i < |front| { assert front[i] == ps[i]; }
      }
    }
  }

  /** On success the keys are exactly the pairs' keys. */
  lemma {:induction false} BuildDictKeys(ps: seq<Option<(string, string)>>)
    requires BuildDict(ps).Some?
    ensures forall i :: 0 <= i < |ps| ==> ps[i].Some?
    ensures forall k :: k in BuildDict(ps).value <==> exists i :: 0 <= i < |ps| && ps[i].value.0 == k
    decreases |ps|
  {
    if ps != [] {
      var front := ps[..|ps| - 1];
      BuildDictKeys(front);
      var m := BuildDict(ps).value;
      forall i | 0 <= i < |ps| ensures ps[i].Some? {
        if i < |front| { assert ps[i] == front[i]; }
      }
      forall k ensures k in m <==> exists i :: 0 <= i < |ps| && ps[i].value.0 == k {
        if k in m && k != ps[|ps| - 1].value.0 {
          var i :| 0 <= i < |front| && front[i].value.0 == k;
          assert ps[i] == front[i];
        }
        if exists i :: 0 <= i < |ps| && ps[i].value.0 == k {
          var i :| 0 <= i < |ps| && ps[i].value.0 == k;
          if i < |front| { assert front[i] == ps[i]; }
        }
      }
    }
  }

  /** On success every entry is one of the pairs. */
  lemma {:induction false} BuildDictEntries(ps: seq<Option<(string, string)>>)
    requires BuildDict(ps).Some?
    ensures forall k :: k in BuildDict(ps).value ==> exists i :: 0 <= i < |ps| && ps[i] == Some((k, BuildDict(ps).value[k]))
    decreases |ps|
  {
    if ps != [] {
      var front := ps[..|ps| - 1];
      BuildDictEntries(front);
      var m := BuildDict(ps).value;
      forall k | k in m ensures exists i :: 0 <= i < |ps| && ps[i] == Some((k, m[k])) {
        if k != ps[|ps| - 1].value.0 {
          var i :| 0 <= i < |front| && front[i] == Some((k, BuildDict(front).value[k]));
          assert ps[i] == front[i];
        } else {
          assert ps[|ps| - 1] == Some((k, m[k]));
        }
      }
    }
  }

  /** On success each key maps to the value of its last occurrence. */
  lemma {:induction false} BuildDictLastWins(ps: seq<Option<(string, string)>>, i: nat)
    requires BuildDict(ps).Some?
    requires i < |ps| && ps[i].Some?
    requires forall j :: i < j < |ps| && ps[j].Some? ==> ps[j].value.0 != ps[i].value.0
    ensures ps[i].value.0 in BuildDict(ps).value
    ensures BuildDict(ps).value[ps[i].value.0] == ps[i].value.1
    decreases |ps|
  {
    var front := ps[..|ps| - 1];
    if i < |ps| - 1 {
      forall j | i < j < |front| && front[j].Some? ensures front[j].value.0 != front[i].value.0 {
        assert front[j] == ps[j];
      }
      assert front[i] == ps[i];
      BuildDictLastWins(front, i);
    }
  }

  /** Parsing raises exactly when some token does not hold exactly one
      colon; repeated keys never make it raise. */
  lemma ParsePairsFails(ts: seq<string>)
    ensures ParsePairs(ts).None? <==> exists i :: 0 <= i < |ts| && multiset(ts[i])[':'] != 1
  {
    var ps := SplitAll(ts);
    BuildDictFails(ps);
    forall i | 0 <= i < |ts| ensures ps[i].None? <==> multiset(ts[i])[':'] != 1 {
      SplitPairIffOneColon(ts[i]);
    }
  }

  /** When parsing succeeds the keys are exactly the tokens' keys, and
      each key maps to the value of its last occurrence. */
  lemma ParsePairsContents(ts: seq<string>)
    requires ParsePairs(ts).Some?
    ensures forall i :: 0 <= i < |ts| ==> SplitPair(ts[i]).Some?
    ensures forall k :: k in ParsePairs(ts).value <==>
      exists i :: 0 <= i < |ts| && SplitPair(ts[i]).value.0 == k
    ensures forall i :: 0 <= i < |ts| && LastOccurrence(ts, i) ==>
      ParsePairs(ts).value[SplitPair(ts[i]).value.0] == SplitPair(ts[i]).value.1
  {
    var ps := SplitAll(ts);
    BuildDictKeys(ps);
    var m := ParsePairs(ts).value;
    assert forall i :: 0 <= i < |ts| ==> SplitPair(ts[i]).Some?;
    forall k ensures k in m <==> exists i :: 0 <= i < |ts| && SplitPair(ts[i]).value.0 == k {
      if k in m {
        var i :| 0 <= i < |ps| && ps[i].value.0 == k;
        assert SplitPair(ts[i]).value.0 == k;
      }
    }
    forall i | 0 <= i < |ts| && LastOccurrence(ts, i)
      ensures m[SplitPair(ts[i]).value.0] == SplitPair(ts[i]).value.1
    {
      BuildDictLastWins(ps, i);
    }
  }

  /** A whitespace-free key, one colon and a whitespace-free value split
      back into that key and value. */
  lemma SplitPairOfParts(t: string, key: string, value: string)
    requires ':' !in key && ':' !in value && NoSpace(key) && NoSpace(value)
    requires t == key + ":" + value
    ensures SplitPair(t) == Some((key, value))
  {
    SplitOnOneColon(key, value);
  }

  /** A key followed by a colon and nothing else unpacks to that key and `""`. */
  lemma SplitPairEmptyValue(k: string)
    requires ':' !in k && NoSpace(k)
    ensures SplitPair(k + ":") == Some((k, ""))
  {
    assert k + ":" == k + ":" + "";
    SplitPairOfParts(k + ":", k, "");
  }

  /** `split(':')` of a string with exactly one colon. */
  lemma SplitOnOneColon(a: string, b: string)
    requires ':' !in a && ':' !in b
    ensures SplitOn(a + ":" + b, ':') == [a, b]
  {
    SplitOnOneSep(a, b, ':');
  }

  /** `split(c)` of a string with exactly one `c`. */
  lemma {:induction false} SplitOnOneSep(a: string, b: string, c: char)
    requires c !in a && c !in b
    ensures SplitOn(a + [c] + b, c) == [a, b]
    decreases |a|
  {
    if a == [] {
      assert a + [c] + b == [c] + b;
      SplitOnSepFirst(b, c);
      SplitOnAbsent(b, c);
    } else {
      assert c !in a[1..] by { assert forall i :: 0 <= i < |a[1..]| ==> a[1..][i] == a[i + 1]; }
      SplitOnOneSep(a[1..], b, c);
      SplitOnSepStep(a, b, c);
    }
  }

  /** The step of `SplitOnOneSep`: a first character other than `c` joins the first piece. */
  lemma SplitOnSepStep(a: string, b: string, c: char)
    requires a != [] && a[0] != c
    requires SplitOn(a[1..] + [c] + b, c) == [a[1..], b]
    ensures SplitOn(a + [c] + b, c) == [a, b]
  {
    var t := a[1..] + [c] + b;
    ConsSplit(a, [c] + b);
    assert a + [c] + b == [a[0]] + t;
    SplitOnCons(a[0], t, c);
    assert [a[0]] + a[1..] == a;
  }

  lemma ConsSplit(a: string, r: string)
    requires a != []
    ensures a + r == [a[0]] + (a[1..] + r)
  {
  }

  /** `split(c)` of a string that starts with `c`. */
  lemma SplitOnSepFirst(t: string, c: char)
    ensures SplitOn([c] + t, c) == [""] + SplitOn(t, c)
  {
    assert ([c] + t)[1..] == t;
  }

  /** `split(c)` of a string that starts with another character. */
  lemma SplitOnCons(x: char, t: string, c: char)
    requires x != c
    ensures SplitOn([x] + t, c) == [[x] + SplitOn(t, c)[0]] + SplitOn(t, c)[1..]
  {
    assert ([x] + t)[1..] == t;
  }

  /** `split(c)` of a string without `c` is that string alone. */
  lemma {:induction false} SplitOnAbsent(s: string, c: char)
    requires c !in s
    ensures SplitOn(s, c) == [s]
    decreases |s|
  {
    if s != [] {
      SplitOnAbsent(s[1..], c);
      assert [s[0]] + s[1..] == s;
    }
  }

  /** A pair in front is overridden by every later pair with its key. */
  lemma {:induction false} BuildDictPrepend(p: Option<(string, string)>, ps: seq<Option<(string, string)>>)
    requires p.Some? && BuildDict(ps).Some?
    ensures BuildDict([p] + ps) == Some(map[p.value.0 := p.value.1] + BuildDict(ps).value)
    decreases |ps|
  {
    if ps == [] {
      assert BuildDict([p]) == Some(map[][p.value.0 := p.value.1]);
      assert map[][p.value.0 := p.value.1] == map[p.value.0 := p.value.1] + map[];
    } else {
      var front, last := ps[..|ps| - 1], ps[|ps| - 1];
      assert ([p] + ps)[..|[p] + ps| - 1] == [p] + front;
      BuildDictPrepend(p, front);
      var m0, m := map[p.value.0 := p.value.1], BuildDict(front).value;
      assert (m0 + m)[last.value.0 := last.value.1] == m0 + m[last.value.0 := last.value.1];
    }
  }

  /** A token in front whose key a later token repeats changes nothing. */
  lemma ParsePairsShadowed(a: string, ts: seq<string>)
    requires SplitPair(a).Some? && ParsePairs(ts).Some?
    requires SplitPair(a).value.0 in ParsePairs(ts).value
    ensures ParsePairs([a] + ts) == ParsePairs(ts)
  {
    SplitAllCons(a, ts);
    var p := SplitPair(a);
    BuildDictPrepend(p, SplitAll(ts));
    MapShadowed(p.value.0, p.value.1, ParsePairs(ts).value);
  }

  lemma SplitAllCons(a: string, ts: seq<string>)
    ensures SplitAll([a] + ts) == [SplitPair(a)] + SplitAll(ts)
  {
    var u := [a] + ts;
    var l, r := SplitAll(u), [SplitPair(a)] + SplitAll(ts);
    assert |l| == |r|;
    forall i | 0 <= i < |l| ensures l[i] == r[i] {
      if i == 0 {
        assert u[0] == a;
      } else {
        assert u[i] == ts[i - 1];
        assert r[i] == SplitAll(ts)[i - 1];
      }
    }
  }

  lemma MapShadowed(k: string, v: string, m: map<string, string>)
    requires k in m
    ensures map[k := v] + m == m
  {
  }

  /** Token `i` is a pair whose key no later pair token repeats. */
  predicate LastOccurrence(ts: seq<string>, i: nat)
    requires i < |ts|
  {
    SplitPair(ts[i]).Some? &&
    forall j :: i < j < |ts| && SplitPair(ts[j]).Some? ==> SplitPair(ts[j]).value.0 != SplitPair(ts[i]).value.0
  }

  /** The reader's own `strip()` calls never change a key or a value:
      `split()` already left the tokens without whitespace. */
  lemma TokenPartsUnstripped(t: string)
    requires t != [] && NoSpace(t)
    requires SplitPair(t).Some?
    ensures t == SplitPair(t).value.0 + ":" + SplitPair(t).value.1
    ensures ':' !in SplitPair(t).value.0 && ':' !in SplitPair(t).value.1
    ensures NoSpace(SplitPair(t).value.0) && NoSpace(SplitPair(t).value.1)
  {
    SplitPairIffOneColon(t);
    var p := SplitOn(t, ':');
    assert NoSpace(p[0]) by {
      forall i | 0 <= i < |p[0]| ensures !IsSpace(p[0][i]) { assert p[0][i] == t[i]; }
    }
    assert NoSpace(p[1]) by {
      forall i | 0 <= i < |p[1]| ensures !IsSpace(p[1][i]) { assert p[1][i] == t[|p[0]| + 1 + i]; }
    }
  }
}
