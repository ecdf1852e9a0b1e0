/** How the indexer reads the URN an operation travels in, and exactly which printed operations it recovers. */
module IndexerParser {
  import opened Wrappers
  import opened Urn

  // No pairs is no map at all.
  datatype Protocol = Protocol(chainId: string, version: string, operation: string,
                               pairs: Option<map<string, string>>)

  function Get(pairs: map<string, string>, key: string): string {
    if key in pairs then pairs[key] else ""
  }

  // A part without "=" belongs to the value before it, if there was a key and it is not empty.
  function PairsFrom(parts: seq<string>, prevKey: string, pairs: map<string, string>): Option<map<string, string>>
    decreases parts
  {
    if parts == [] then Some(pairs)
    else
      var keyValue := Split(parts[0], '=');
      if |keyValue| == 2 then PairsFrom(parts[1..], keyValue[0], pairs[keyValue[0] := keyValue[1]])
      else if |keyValue| == 1 && prevKey != "" then
        PairsFrom(parts[1..], prevKey, pairs[prevKey := Get(pairs, prevKey) + "," + keyValue[0]])
      else None
  }

  function Parse(ss: string): Option<Protocol> {
    var sourceContent := Split(ss, ';');
    if |sourceContent| != 2 then None
    else
      var source, content := Split(sourceContent[0], '@'), Split(sourceContent[1], '$');
      if |source| != 2 || |content| != 2 then None
      else if content[1] == "" then Some(Protocol(source[0], source[1], content[0], None))
      else match PairsFrom(Split(content[1], ','), "", map[])
        case None => None
        case Some(pairs) => Some(Protocol(source[0], source[1], content[0], Some(pairs)))
  }

  method ParseProtocolString(ss: string) returns (r: Option<Protocol>)
    ensures r == Parse(ss)
  {
    var sourceContent := Split(ss, ';');
    if |sourceContent| != 2 {
      return None;
    }
    var sourceVersioning := Split(sourceContent[0], '@');
    if |sourceVersioning| != 2 {
      return None;
    }
    var opContent := Split(sourceContent[1], '$');
    if |opContent| != 2 {
      return None;
    }
    if opContent[1] == "" {
      return Some(Protocol(sourceVersioning[0], sourceVersioning[1], opContent[0], None));
    }
    var keyValuePairs: map<string, string> := map[];
    var parts := Split(opContent[1], ',');
    var prevKey := "";
    for i := 0 to |parts|
      invariant PairsFrom(parts[i..], prevKey, keyValuePairs) == PairsFrom(parts, "", map[])
    {
      assert parts[i..][1..] == parts[i + 1..];
      var keyValue := Split(parts[i], '=');
      if |keyValue| != 2 {
        if |keyValue| == 1 && prevKey != "" {
          keyValuePairs := keyValuePairs[prevKey := Get(keyValuePairs, prevKey) + "," + keyValue[0]];
          continue;
        }
        return None;
      }
      keyValuePairs := keyValuePairs[keyValue[0] := keyValue[1]];
      prevKey := keyValue[0];
    }
    return Some(Protocol(sourceVersioning[0], sourceVersioning[1], opContent[0], Some(keyValuePairs)));
  }

  // ---- splitting ----

  lemma {:induction false} SplitConcat(a: string, sep: char, b: string)
    ensures Split(a + [sep] + b, sep) == Split(a, sep) + Split(b, sep)
    decreases |a|
  {
    match Cut(a, sep)
    case None =>
      CutAt(a, sep, b);
      assert a + [sep] + b == a + ([sep] + b);
    case Some((x, y)) =>
      assert a + [sep] + b == x + ([sep] + (y + [sep] + b));
      CutAt(x, sep, y + [sep] + b);
      SplitConcat(y, sep, b);
  }

  lemma SplitWhole(s: string, sep: char)
    ensures |Split(s, sep)| == 1 <==> sep !in s
    ensures sep !in s ==> Split(s, sep) == [s]
  {
    if sep !in s { CutNone(s, sep); }
  }

  // Two parts are found exactly if neither holds the separator.
  lemma SplitInTwo(a: string, sep: char, b: string)
    ensures |Split(a + [sep] + b, sep)| == 2 <==> sep !in a && sep !in b
    ensures sep !in a && sep !in b ==> Split(a + [sep] + b, sep) == [a, b]
  {
    SplitConcat(a, sep, b);
    SplitWhole(a, sep);
    SplitWhole(b, sep);
  }

  // Parts, each with a comma before it
  function Commas(parts: seq<string>): string {
    if parts == [] then "" else "," + parts[0] + Commas(parts[1..])
  }

  lemma {:induction false} SplitJoins(s: string)
    ensures s == Split(s, ',')[0] + Commas(Split(s, ',')[1..])
    decreases |s|
  {
    match Cut(s, ',')
    case None =>
    case Some((a, b)) =>
      SplitJoins(b);
      var rest := Split(b, ',');
      assert Split(s, ',')[1..] == rest;
      assert Commas(rest) == "," + rest[0] + Commas(rest[1..]);
  }

  // ---- what the indexer recovers ----

  // What follows the name in a printed URN
  function SpecificText(u: Urn): string {
    u.chainId + "@" + u.version + ";" + (u.operation + "$" + Join(Printed(u.params), ','))
  }

  // Every component and every parameter is found, and nothing else.
  ghost predicate Recovers(u: Urn, p: Option<Protocol>) {
    && p.Some? && p.value.chainId == u.chainId && p.value.version == u.version && p.value.operation == u.operation
    && if u.params == [] then p.value.pairs == None
       else
         && p.value.pairs.Some?
         && var pairs := p.value.pairs.value;
            && (forall k :: 0 <= k < |u.params| ==> u.params[k].0 in pairs && pairs[u.params[k].0] == u.params[k].1)
            && (forall key :: key in pairs ==> exists k :: 0 <= k < |u.params| && u.params[k].0 == key)
  }

  ghost predicate ReadableParam(p: Param) {
    && ';' !in p.0 && '$' !in p.0 && '=' !in p.0 && ',' !in p.0
    && ';' !in p.1 && '$' !in p.1 && '=' !in p.1 && (p.0 == "" ==> ',' !in p.1)
  }

  // The delimiters that may not stand in a component. Commas may stand in a value, unless its key is empty.
  ghost predicate Readable(u: Urn) {
    && ';' !in u.chainId && '@' !in u.chainId && ';' !in u.version && '@' !in u.version
    && ';' !in u.operation && '$' !in u.operation
    && (forall k :: 0 <= k < |u.params| ==> ReadableParam(u.params[k]))
    && (forall i, j :: 0 <= i < j < |u.params| && u.params[i].0 == u.params[j].0 ==> u.params[i].1 == u.params[j].1)
  }

  lemma {:induction false} InJoined(params: seq<Param>, c: char)
    requires c != ',' && c != '='
    ensures c in Join(Printed(params), ',')
       <==> exists k :: 0 <= k < |params| && (c in params[k].0 || c in params[k].1)
    decreases |params|
  {
    if params != [] {
      var p, rest := params[0], params[1..];
      InJoined(rest, c);
      assert Printed(params)[1..] == Printed(rest) && Printed(params)[0] == p.0 + "=" + p.1;
      if rest == [] {
        InPair(p, "", c);
        assert Join(Printed(params), ',') == p.0 + "=" + p.1 + "";
      } else {
        InPair(p, "," + Join(Printed(rest), ','), c);
        InTail(Join(Printed(rest), ','), c);
        assert Join(Printed(params), ',') == p.0 + "=" + p.1 + ("," + Join(Printed(rest), ','));
      }
      hide Join, Printed;
      FirstOrRest(params, c);
    }
  }

  lemma InPair(p: Param, tail: string, c: char)
    requires c != '='
    ensures c in p.0 + "=" + p.1 + tail <==> c in p.0 || c in p.1 || c in tail
  {}

  lemma InTail(s: string, c: char)
    requires c != ','
    ensures c in "," + s <==> c in s
  {}

  lemma FirstOrRest(params: seq<Param>, c: char)
    requires params != []
    ensures (exists k :: 0 <= k < |params| && (c in params[k].0 || c in params[k].1))
       <==> c in params[0].0 || c in params[0].1
            || exists k :: 0 <= k < |params[1..]| && (c in params[1..][k].0 || c in params[1..][k].1)
  {
    if k :| 0 <= k < |params| && (c in params[k].0 || c in params[k].1) {
      if k > 0 { assert params[k] == params[1..][k - 1]; }
    }
    if k :| 0 <= k < |params[1..]| && (c in params[1..][k].0 || c in params[1..][k].1) {
      assert params[k + 1] == params[1..][k];
    }
  }

  // ---- pairs ----

  lemma {:induction false} ValueGoesOn(more: seq<string>, rest: seq<string>, key: string, pairs: map<string, string>)
    requires key in pairs && (more != [] ==> key != "")
    requires forall k :: 0 <= k < |more| ==> '=' !in more[k]
    ensures PairsFrom(more + rest, key, pairs) == PairsFrom(rest, key, pairs[key := pairs[key] + Commas(more)])
    decreases |more|
  {
    if more == [] {
      assert more + rest == rest;
      assert pairs[key] + "" == pairs[key];
      assert pairs[key := pairs[key] + Commas(more)] == pairs;
    } else {
      var once := pairs[key := pairs[key] + "," + more[0]];
      SplitWhole(more[0], '=');
      assert (more + rest)[0] == more[0] && (more + rest)[1..] == more[1..] + rest;
      ValueGoesOn(more[1..], rest, key, once);
      assert pairs[key] + "," + more[0] + Commas(more[1..]) == pairs[key] + Commas(more);
      assert once[key := once[key] + Commas(more[1..])] == pairs[key := pairs[key] + Commas(more)];
    }
  }

  // The part a key stands in
  lemma KeyPart(key: string, value: string, rest: seq<string>, prevKey: string, pairs: map<string, string>)
    requires '=' !in key && '=' !in value
    ensures PairsFrom([key + "=" + value] + rest, prevKey, pairs) == PairsFrom(rest, key, pairs[key := value])
  {
    SplitInTwo(key, '=', value);
    assert ([key + "=" + value] + rest)[1..] == rest;
  }

  // A value and its pieces between commas
  lemma ValueParts(p: Param)
    requires ReadableParam(p)
    ensures var pieces := Split(p.1, ',');
      && (forall k :: 0 <= k < |pieces| ==> '=' !in pieces[k])
      && (|pieces| > 1 ==> p.0 != "")
      && p.1 == pieces[0] + Commas(pieces[1..])
  {
    PiecesOf(p.1, '=', ',');
    SplitWhole(p.1, ',');
    SplitJoins(p.1);
  }

  lemma OneParam(p: Param, rest: seq<string>, prevKey: string, pairs: map<string, string>)
    requires ReadableParam(p)
    ensures PairsFrom(Split(p.0 + "=" + p.1, ',') + rest, prevKey, pairs) == PairsFrom(rest, p.0, pairs[p.0 := p.1])
  {
    var pieces := Split(p.1, ',');
    ParamPieces(p);
    ValueParts(p);
    hide Split, PairsFrom, Commas;
    PiecesArePaired(p.0, pieces[0], pieces[1..], rest, prevKey, pairs);
    assert [p.0 + "=" + pieces[0]] + pieces[1..] + rest == Split(p.0 + "=" + p.1, ',') + rest;
  }

  lemma PiecesArePaired(key: string, first: string, more: seq<string>, rest: seq<string>, prevKey: string,
                        pairs: map<string, string>)
    requires '=' !in key && '=' !in first && (forall k :: 0 <= k < |more| ==> '=' !in more[k])
    requires more != [] ==> key != ""
    ensures PairsFrom([key + "=" + first] + more + rest, prevKey, pairs)
         == PairsFrom(rest, key, pairs[key := first + Commas(more)])
  {
    hide PairsFrom, Commas;
    assert [key + "=" + first] + more + rest == [key + "=" + first] + (more + rest);
    KeyPart(key, first, more + rest, prevKey, pairs);
    ValueGoesOn(more, rest, key, pairs[key := first]);
    SetTwice(pairs, key, first, first + Commas(more));
  }

  lemma SetTwice(pairs: map<string, string>, key: string, a: string, b: string)
    ensures pairs[key := a][key := b] == pairs[key := b] && pairs[key := a][key] == a
  {}

  lemma ParamPieces(p: Param)
    requires ',' !in p.0
    ensures Split(p.0 + "=" + p.1, ',') == [p.0 + "=" + Split(p.1, ',')[0]] + Split(p.1, ',')[1..]
  {
    var key := p.0 + "=";
    match Cut(p.1, ',')
    case None => SplitWhole(key + p.1, ',');
    case Some((a, b)) =>
      assert key + p.1 == (key + a) + ([','] + b);
      CutAt(key + a, ',', b);
  }

  // What is not in a text is not in its parts.
  lemma {:induction false} PiecesOf(s: string, c: char, sep: char)
    requires c !in s
    ensures forall k :: 0 <= k < |Split(s, sep)| ==> c !in Split(s, sep)[k]
    decreases |s|
  {
    match Cut(s, sep)
    case None =>
    case Some((a, b)) => PiecesOf(b, c, sep);
  }

  // The last value of every key
  function Collected(params: seq<Param>, pairs: map<string, string>): map<string, string>
    decreases params
  {
    if params == [] then pairs else Collected(params[1..], pairs[params[0].0 := params[0].1])
  }

  lemma {:induction false} AllParams(params: seq<Param>, prevKey: string, pairs: map<string, string>)
    requires params != [] && forall k :: 0 <= k < |params| ==> ReadableParam(params[k])
    ensures PairsFrom(Split(Join(Printed(params), ','), ','), prevKey, pairs) == Some(Collected(params, pairs))
    decreases |params|
  {
    var p, rest := params[0], params[1..];
    var text := p.0 + "=" + p.1;
    var next := pairs[p.0 := p.1];
    assert Printed(params)[0] == text && Printed(params)[1..] == Printed(rest);
    hide PairsFrom, ReadableParam, Printed;
    if rest == [] {
      OneParam(p, [], prevKey, pairs);
      assert Split(text, ',') + [] == Split(text, ',');
      assert PairsFrom([], p.0, next) == Some(next) by { NoMoreParts(p.0, next); }
    } else {
      var others := Join(Printed(rest), ',');
      assert Join(Printed(params), ',') == text + [','] + others;
      SplitConcat(text, ',', others);
      OneParam(p, Split(others, ','), prevKey, pairs);
      AllParams(rest, p.0, next);
    }
  }

  lemma NoMoreParts(prevKey: string, pairs: map<string, string>)
    ensures PairsFrom([], prevKey, pairs) == Some(pairs)
  {}

  lemma {:induction false} CollectedKeys(params: seq<Param>, pairs: map<string, string>)
    ensures forall key :: key in Collected(params, pairs) <==>
      key in pairs || exists k :: 0 <= k < |params| && params[k].0 == key
    decreases |params|
  {
    if params != [] {
      var rest, next := params[1..], pairs[params[0].0 := params[0].1];
      CollectedKeys(rest, next);
      forall key ensures key in Collected(params, pairs) <==>
                         key in pairs || exists k :: 0 <= k < |params| && params[k].0 == key
      {
        if k :| 0 <= k < |params| && params[k].0 == key {
          if k > 0 { assert rest[k - 1].0 == key; }
        }
        if k :| 0 <= k < |rest| && rest[k].0 == key { assert params[k + 1].0 == key; }
      }
    }
  }

  // With one value for each key, all values are collected.
  lemma {:induction false} CollectedValues(params: seq<Param>, pairs: map<string, string>)
    requires forall i, j :: 0 <= i < j < |params| && params[i].0 == params[j].0 ==> params[i].1 == params[j].1
    ensures var all := Collected(params, pairs);
      && (forall k :: 0 <= k < |params| ==> params[k].0 in all && all[params[k].0] == params[k].1)
      && (forall key :: key in pairs && (forall k :: 0 <= k < |params| ==> params[k].0 != key) ==>
            key in all && all[key] == pairs[key])
    decreases |params|
  {
    if params != [] {
      var rest, next := params[1..], pairs[params[0].0 := params[0].1];
      assert forall k :: 0 <= k < |rest| ==> rest[k] == params[k + 1];
      CollectedValues(rest, next);
      var all := Collected(rest, next);
      forall k | 0 <= k < |params| ensures params[k].0 in all && all[params[k].0] == params[k].1 {
        if k > 0 {
          assert params[k] == rest[k - 1];
        } else if i :| 0 <= i < |rest| && rest[i].0 == params[0].0 {
          assert params[i + 1].0 == params[0].0;
        }
      }
    }
  }

  // What no pairs can hold, whatever was parsed
  ghost predicate CleanPairs(pairs: map<string, string>) {
    forall key :: key in pairs ==>
      '=' !in key && ',' !in key && '=' !in pairs[key] && (key == "" ==> ',' !in pairs[key])
  }

  lemma {:induction false} PairsAreClean(parts: seq<string>, prevKey: string, pairs: map<string, string>)
    requires CleanPairs(pairs) && '=' !in prevKey && ',' !in prevKey
    requires forall k :: 0 <= k < |parts| ==> ',' !in parts[k]
    requires PairsFrom(parts, prevKey, pairs).Some?
    ensures CleanPairs(PairsFrom(parts, prevKey, pairs).value)
    decreases |parts|
  {
    if parts != [] {
      var keyValue := Split(parts[0], '=');
      PiecesOf(parts[0], ',', '=');
      if |keyValue| == 2 {
        PairsAreClean(parts[1..], keyValue[0], pairs[keyValue[0] := keyValue[1]]);
      } else {
        var value := Get(pairs, prevKey) + "," + keyValue[0];
        assert '=' !in value;
        PairsAreClean(parts[1..], prevKey, pairs[prevKey := value]);
      }
    }
  }

  // ---- the result ----

  lemma HeadIsRead(u: Urn)
    ensures var content := Join(Printed(u.params), ',');
      var heads := ';' !in u.chainId && '@' !in u.chainId && ';' !in u.version && '@' !in u.version
                   && ';' !in u.operation && '$' !in u.operation && ';' !in content && '$' !in content;
      && (Parse(SpecificText(u)).Some? ==> heads)
      && (heads ==>
            Parse(SpecificText(u))
            == if content == "" then Some(Protocol(u.chainId, u.version, u.operation, None))
               else match PairsFrom(Split(content, ','), "", map[])
                    case None => None
                    case Some(pairs) => Some(Protocol(u.chainId, u.version, u.operation, Some(pairs))))
  {
    var content := Join(Printed(u.params), ',');
    var source, rest := u.chainId + "@" + u.version, u.operation + "$" + content;
    assert SpecificText(u) == source + [';'] + rest;
    assert source == u.chainId + ['@'] + u.version && rest == u.operation + ['$'] + content;
    SplitInTwo(source, ';', rest);
    SplitInTwo(u.chainId, '@', u.version);
    SplitInTwo(u.operation, '$', content);
    hide Join, Printed, Split, PairsFrom;
  }

  // The indexer recovers a printed operation, its chain, version, name and all its parameters, exactly if no delimiter
  // stands where it would be taken for one, and no key comes with two values.
  lemma IndexerReadsExactly(u: Urn)
    ensures Recovers(u, Parse(SpecificText(u))) <==> Readable(u)
  {
    hide Parse, SpecificText, Recovers, Readable;
    if Readable(u) {
      ReadableIsRecovered(u);
    }
    if Recovers(u, Parse(SpecificText(u))) {
      RecoveredIsReadable(u);
    }
  }

  lemma ReadableIsRecovered(u: Urn)
    requires Readable(u)
    ensures Recovers(u, Parse(SpecificText(u)))
  {
    HeadIsRead(u);
    InJoined(u.params, ';');
    InJoined(u.params, '$');
    hide Parse, SpecificText;
    if u.params != [] {
      JoinedNotEmpty(u.params);
      AllParams(u.params, "", map[]);
      CollectedKeys(u.params, map[]);
      CollectedValues(u.params, map[]);
      hide Join, Printed, PairsFrom, Collected;
    }
  }

  lemma RecoveredIsReadable(u: Urn)
    requires Recovers(u, Parse(SpecificText(u)))
    ensures Readable(u)
  {
    HeadIsRead(u);
    InJoined(u.params, ';');
    InJoined(u.params, '$');
    hide Parse, SpecificText, ReadableParam;
    if u.params != [] {
      JoinedNotEmpty(u.params);
      var pairs := Parse(SpecificText(u)).value.pairs.value;
      PairsAreClean(Split(Join(Printed(u.params), ','), ','), "", map[]);
      hide Join, Printed, PairsFrom, CleanPairs;
      forall k | 0 <= k < |u.params| ensures ReadableParam(u.params[k]) {
        CleanParam(u.params[k], pairs);
      }
    }
  }

  lemma CleanParam(p: Param, pairs: map<string, string>)
    requires CleanPairs(pairs) && p.0 in pairs && pairs[p.0] == p.1
    requires ';' !in p.0 && '$' !in p.0 && ';' !in p.1 && '$' !in p.1
    ensures ReadableParam(p)
  {}
}
