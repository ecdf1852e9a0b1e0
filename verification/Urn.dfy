/**
 * The printer of operation URNs, urn:name:chain@version;operation$key=value,..., and a reader of that shape.
 * A parameter value is the text JavaScript prints for it.
 */
module Urn {
  import opened Wrappers

  type Param = (string, string)

  datatype Urn = Urn(name: string, chainId: string, version: string, operation: string, params: seq<Param>)

  function Join(parts: seq<string>, sep: char): string {
    if parts == [] then ""
    else if |parts| == 1 then parts[0]
    else parts[0] + [sep] + Join(parts[1..], sep)
  }

  function Printed(params: seq<Param>): (r: seq<string>)
    ensures |r| == |params|
    ensures forall k :: 0 <= k < |r| ==> r[k] == params[k].0 + "=" + params[k].1
  {
    seq(|params|, k requires 0 <= k < |params| => params[k].0 + "=" + params[k].1)
  }

  function BuildUrn(u: Urn): string {
    "urn:" + (u.name + ":" + (u.chainId + "@" + (u.version + ";" + (u.operation + "$" + Join(Printed(u.params), ',')))))
  }

  // ---- a reader ----

  // The text before the first `sep` and the text after it
  function Cut(s: string, sep: char): (r: Option<(string, string)>)
    ensures r.Some? ==> s == r.value.0 + [sep] + r.value.1 && sep !in r.value.0
    ensures r.None? ==> sep !in s
  {
    if s == "" then None
    else if s[0] == sep then Some(("", s[1..]))
    else match Cut(s[1..], sep)
      case None => None
      case Some((a, b)) =>
        assert s == [s[0]] + s[1..];
        Some(([s[0]] + a, b))
  }

  function Split(s: string, sep: char): (r: seq<string>)
    ensures |r| > 0
    ensures forall k :: 0 <= k < |r| ==> sep !in r[k]
    decreases |s|
  {
    match Cut(s, sep)
    case None => [s]
    case Some((a, b)) => [a] + Split(b, sep)
  }

  function ParseParams(parts: seq<string>): (r: Option<seq<Param>>)
    ensures r.Some? ==> |r.value| == |parts|
    ensures r.Some? ==> forall k :: 0 <= k < |parts| ==>
      '=' !in r.value[k].0 && parts[k] == r.value[k].0 + "=" + r.value[k].1
  {
    if parts == [] then Some([])
    else match Cut(parts[0], '=')
      case None => None
      case Some(p) =>
        match ParseParams(parts[1..])
        case None => None
        case Some(rest) => Some([p] + rest)
  }

  function ParseUrn(s: string): Option<Urn> {
    if |s| < 4 || s[..4] != "urn:" then None
    else match Cut(s[4..], ':')
      case None => None
      case Some((name, s1)) => match Cut(s1, '@')
        case None => None
        case Some((chainId, s2)) => match Cut(s2, ';')
          case None => None
          case Some((version, s3)) => match Cut(s3, '$')
            case None => None
            case Some((operation, s4)) =>
              if s4 == "" then Some(Urn(name, chainId, version, operation, []))
              else match ParseParams(Split(s4, ','))
                case None => None
                case Some(params) => Some(Urn(name, chainId, version, operation, params))
  }

  // ---- what the printer promises ----

  // No component contains the delimiter that ends it.
  ghost predicate Clean(u: Urn) {
    && ':' !in u.name && '@' !in u.chainId && ';' !in u.version && '$' !in u.operation
    && forall k :: 0 <= k < |u.params| ==>
         && '=' !in u.params[k].0 && ',' !in u.params[k].0
         && ',' !in u.params[k].1
  }

  lemma {:induction false} CutAt(a: string, sep: char, b: string)
    requires sep !in a
    ensures Cut(a + ([sep] + b), sep) == Some((a, b))
  {
    var s := a + ([sep] + b);
    if a != "" {
      CutAt(a[1..], sep, b);
      assert s != "" && s[1..] == a[1..] + ([sep] + b);
      assert s[0] == a[0] && [a[0]] + a[1..] == a;
    } else {
      assert s[1..] == b;
    }
  }

  lemma {:induction false} CutNone(s: string, sep: char)
    requires sep !in s
    ensures Cut(s, sep) == None
  {
    if s != "" { CutNone(s[1..], sep); }
  }

  lemma {:induction false} SplitJoined(parts: seq<string>, sep: char)
    requires |parts| > 0 && forall k :: 0 <= k < |parts| ==> sep !in parts[k]
    ensures Split(Join(parts, sep), sep) == parts
    decreases |parts|
  {
    if |parts| == 1 {
      CutNone(parts[0], sep);
    } else {
      assert Join(parts, sep) == parts[0] + ([sep] + Join(parts[1..], sep));
      CutAt(parts[0], sep, Join(parts[1..], sep));
      SplitJoined(parts[1..], sep);
      assert parts == [parts[0]] + parts[1..];
    }
  }

  lemma {:induction false} ParsePrinted(params: seq<Param>)
    requires forall k :: 0 <= k < |params| ==> '=' !in params[k].0
    ensures ParseParams(Printed(params)) == Some(params)
  {
    if params != [] {
      var p := params[0];
      assert Printed(params)[0] == p.0 + (['='] + p.1);
      CutAt(p.0, '=', p.1);
      assert Printed(params)[1..] == Printed(params[1..]);
      ParsePrinted(params[1..]);
      assert params == [p] + params[1..];
    }
  }

  // Join of a non-empty list of non-empty parts is not empty.
  lemma JoinedNotEmpty(params: seq<Param>)
    requires params != []
    ensures Join(Printed(params), ',') != ""
  {
    assert |Printed(params)[0]| > 0;
  }

  lemma CleanPrintParses(u: Urn)
    requires Clean(u)
    ensures ParseUrn(BuildUrn(u)) == Some(u)
  {
    var s4 := Join(Printed(u.params), ',');
    var s3 := u.operation + (['$'] + s4);
    var s2 := u.version + ([';'] + s3);
    var s1 := u.chainId + (['@'] + s2);
    var s0 := u.name + ([':'] + s1);
    assert BuildUrn(u) == "urn:" + s0 by {
      assert s3 == u.operation + "$" + s4;
      assert s2 == u.version + ";" + s3;
      assert s1 == u.chainId + "@" + s2;
      assert s0 == u.name + ":" + s1;
    }
    assert ("urn:" + s0)[4..] == s0;
    CutAt(u.name, ':', s1);
    CutAt(u.chainId, '@', s2);
    CutAt(u.version, ';', s3);
    CutAt(u.operation, '$', s4);
    if u.params != [] {
      JoinedNotEmpty(u.params);
      SplitJoined(Printed(u.params), ',');
      ParsePrinted(u.params);
    }
  }

  // Whatever the reader returns has no delimiter inside a component.
  lemma ParsedIsClean(s: string)
    requires ParseUrn(s).Some?
    ensures Clean(ParseUrn(s).value)
  {
    hide Cut, Split, ParseParams;
    var (name, s1) := Cut(s[4..], ':').value;
    var (chainId, s2) := Cut(s1, '@').value;
    var (version, s3) := Cut(s2, ';').value;
    var (operation, s4) := Cut(s3, '$').value;
    if s4 != "" {
      var parts := Split(s4, ',');
      var params := ParseParams(parts).value;
      forall k | 0 <= k < |params| ensures ',' !in params[k].0 && ',' !in params[k].1 {
        assert ',' !in parts[k];
      }
    }
  }

  // The printed URN gives back every component and the parameters in order, exactly for clean components.
  lemma PrintedUrnParses(u: Urn)
    ensures ParseUrn(BuildUrn(u)) == Some(u) <==> Clean(u)
  {
    if Clean(u) { CleanPrintParses(u); }
    if ParseUrn(BuildUrn(u)) == Some(u) { ParsedIsClean(BuildUrn(u)); }
  }

  // Hence two clean operations never share a URN.
  lemma UrnIsUnambiguous(u: Urn, v: Urn)
    requires Clean(u) && Clean(v) && BuildUrn(u) == BuildUrn(v)
    ensures u == v
  {
    PrintedUrnParses(u);
    PrintedUrnParses(v);
  }

  // ---- the character set ----

  // <URN chars> of section 2.2 of RFC 2141, without the "%" that only starts an escape
  predicate UrnChar(c: char) {
    || 'a' <= c <= 'z' || 'A' <= c <= 'Z' || '0' <= c <= '9'
    || c in "()+,-.:=@;$_!*'"
  }

  predicate UrnText(s: string) {
    forall k :: 0 <= k < |s| ==> UrnChar(s[k])
  }

  lemma TextOfConcat(a: string, b: string)
    ensures UrnText(a + b) <==> UrnText(a) && UrnText(b)
  {
    var s := a + b;
    if UrnText(s) {
      assert forall k :: 0 <= k < |a| ==> a[k] == s[k];
      assert forall k :: 0 <= k < |b| ==> b[k] == s[|a| + k];
    }
  }

  lemma {:induction false} TextOfJoin(parts: seq<string>)
    ensures UrnText(Join(parts, ',')) <==> forall k :: 0 <= k < |parts| ==> UrnText(parts[k])
    decreases |parts|
  {
    if |parts| > 1 {
      TextOfJoin(parts[1..]);
      TextOfConcat(parts[0] + [','], Join(parts[1..], ','));
      TextOfConcat(parts[0], [',']);
      assert forall k :: 1 <= k < |parts| ==> parts[k] == parts[1..][k - 1];
    }
  }

  // The printer adds only characters that a URN may hold, so the URN is inside the character set exactly when
  // its components are.
  lemma UrnStaysInCharset(u: Urn)
    ensures UrnText(BuildUrn(u)) <==>
      && UrnText(u.name) && UrnText(u.chainId) && UrnText(u.version) && UrnText(u.operation)
      && forall k :: 0 <= k < |u.params| ==> UrnText(u.params[k].0) && UrnText(u.params[k].1)
  {
    var s4 := Join(Printed(u.params), ',');
    var s3 := u.operation + "$" + s4;
    var s2 := u.version + ";" + s3;
    var s1 := u.chainId + "@" + s2;
    var s0 := u.name + ":" + s1;
    TextOfConcat("urn:", s0);
    TextOfConcat(u.name + ":", s1); TextOfConcat(u.name, ":");
    TextOfConcat(u.chainId + "@", s2); TextOfConcat(u.chainId, "@");
    TextOfConcat(u.version + ";", s3); TextOfConcat(u.version, ";");
    TextOfConcat(u.operation + "$", s4); TextOfConcat(u.operation, "$");
    TextOfJoin(Printed(u.params));
    forall k | 0 <= k < |u.params|
      ensures UrnText(Printed(u.params)[k]) <==> UrnText(u.params[k].0) && UrnText(u.params[k].1)
    {
      TextOfConcat(u.params[k].0 + "=", u.params[k].1); TextOfConcat(u.params[k].0, "=");
    }
  }
}
