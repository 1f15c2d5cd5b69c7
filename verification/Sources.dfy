/** Where a config file comes from, as text (crates/core/src/source.rs). The
    printed form of a source is its identity in the `extends` walk. */
module Sources {
  import opened Basics
  import opened Text

  datatype Source =
    | File(path: string)
    | Http(url: string)
    | S3(bucket: string, key: string)
    | Gcs(bucket: string, key: string)
    | Azure(bucket: string, key: string)
    | AppConfig(application: string, environment: string, profile: string)
    | AzureAppConfig(store: string, key: string, tag: Option<string>)
    | DynamoDb(table: string, id: string, keyAttribute: Option<string>, valueAttribute: Option<string>)
    | Firestore(project: string, document: string, databaseId: Option<string>, field: Option<string>)
    | Cosmos(account: string, database: string, container: string, id: string,
             pk: Option<string>, field: Option<string>)

  /* ----- schemes ----- */

  datatype Scheme =
    | ToS3 | ToGs | ToAz | ToAppConfig | ToAzAppConfig | ToDynamoDb | ToFirestore | ToCosmos | ToHttps | ToHttp

  function Prefix(s: Scheme): string {
    match s
    case ToS3 => "s3://"
    case ToGs => "gs://"
    case ToAz => "az://"
    case ToAppConfig => "appconfig://"
    case ToAzAppConfig => "azappconfig://"
    case ToDynamoDb => "dynamodb://"
    case ToFirestore => "firestore://"
    case ToCosmos => "cosmos://"
    case ToHttps => "https://"
    case ToHttp => "http://"
  }

  const SCHEMES: seq<Scheme> :=
    [ToS3, ToGs, ToAz, ToAppConfig, ToAzAppConfig, ToDynamoDb, ToFirestore, ToCosmos, ToHttps, ToHttp]

  /** The first scheme, in the order they are tried, whose prefix the text starts with. */
  function SchemeOf(raw: string, schemes: seq<Scheme>): (s: Option<Scheme>)
    ensures s.Some? ==> s.value in schemes && Prefix(s.value) <= raw
  {
    if schemes == [] then None
    else if Prefix(schemes[0]) <= raw then Some(schemes[0])
    else SchemeOf(raw, schemes[1..])
  }

  /** No prefix begins another one's text: two of them differ within their common length. */
  lemma PrefixesDiffer(a: Scheme, b: Scheme, rest: string)
    requires a != b
    ensures !(Prefix(a) <= Prefix(b) + rest)
  {
    var i := DifferAt(a, b);
    assert Prefix(a)[i] != (Prefix(b) + rest)[i];
  }

  lemma DifferAt(a: Scheme, b: Scheme) returns (i: nat)
    requires a != b
    ensures i < |Prefix(a)| && i < |Prefix(b)| && Prefix(a)[i] != Prefix(b)[i]
  {
    i := if Prefix(a)[0] != Prefix(b)[0] then 0
         else if Prefix(a)[1] != Prefix(b)[1] then 1
         else if Prefix(a)[2] != Prefix(b)[2] then 2
         else 4;
  }

  lemma {:induction false} SchemeFound(s: Scheme, rest: string, schemes: seq<Scheme>)
    requires s in schemes
    ensures SchemeOf(Prefix(s) + rest, schemes) == Some(s)
  {
    if schemes[0] != s {
      PrefixesDiffer(schemes[0], s, rest);
      SchemeFound(s, rest, schemes[1..]);
    }
  }

  /* ----- query parameters ----- */

  function Position(allowed: seq<string>, name: string): (i: nat)
    ensures i <= |allowed| && (i < |allowed| ==> allowed[i] == name)
  {
    if allowed == [] || allowed[0] == name then 0 else 1 + Position(allowed[1..], name)
  }

  /** Name and value of one `name=value`. */
  function NameValue(pair: string): (string, string) {
    match SplitOnce(pair, '=')
    case Some(parts) => parts
    case None => (pair, "")
  }

  /** Puts each pair's value in its parameter's slot; unknown, repeated or empty ones are errors. */
  function Fill(pairs: seq<string>, allowed: seq<string>, values: seq<Option<string>>): (r: Option<seq<Option<string>>>)
    requires |values| == |allowed|
    ensures r.Some? ==> |r.value| == |allowed|
    decreases |pairs|
  {
    if pairs == [] then Some(values)
    else
      var (name, value) := NameValue(pairs[0]);
      var i := Position(allowed, name);
      if i < |allowed| && values[i].None? && value != "" then Fill(pairs[1..], allowed, values[i := Some(value)])
      else None
  }

  function Unset(n: nat): seq<Option<string>> {
    seq(n, _ => None)
  }

  /** What stands before the first `?`, and what each allowed parameter is set to after it. */
  function QuerySplit(rest: string, allowed: seq<string>): (r: Option<(string, seq<Option<string>>)>)
    ensures r.Some? ==> |r.value.1| == |allowed|
  {
    match SplitOnce(rest, '?')
    case None => Some((rest, Unset(|allowed|)))
    case Some((path, query)) =>
      match Fill(Split(query, '&'), allowed, Unset(|allowed|))
      case None => None
      case Some(values) => Some((path, values))
  }

  method SplitQuery(rest: string, allowed: seq<string>) returns (r: Option<(string, seq<Option<string>>)>)
    ensures r == QuerySplit(rest, allowed)
  {
    var values := Unset(|allowed|);
    var parts := SplitOnce(rest, '?');
    if parts.None? {
      return Some((rest, values));
    }
    var pairs := Split(parts.value.1, '&');
    var p := 0;
    while p < |pairs|
      invariant 0 <= p <= |pairs| && |values| == |allowed|
      invariant Fill(pairs[p..], allowed, values) == Fill(pairs, allowed, Unset(|allowed|))
    {
      var (name, value) := NameValue(pairs[p]);
      assert pairs[p..][1..] == pairs[p + 1..] && pairs[p..][0] == pairs[p];
      var slot := Position(allowed, name);
      if slot < |allowed| && values[slot].None? && value != "" {
        values := values[slot := Some(value)];
      } else {
        return None;
      }
      p := p + 1;
    }
    return Some((parts.value.0, values));
  }

  function WriteQuery(names: seq<string>, values: seq<Option<string>>, sep: char): string
    requires |values| == |names|
  {
    if names == [] then ""
    else
      match values[0]
      case None => WriteQuery(names[1..], values[1..], sep)
      case Some(v) => [sep] + (names[0] + ['='] + v) + WriteQuery(names[1..], values[1..], '&')
  }

  /** The pairs a query is written with. */
  function Pairs(names: seq<string>, values: seq<Option<string>>): seq<string>
    requires |values| == |names|
  {
    if names == [] then []
    else
      var more := Pairs(names[1..], values[1..]);
      if values[0].Some? then [names[0] + ['='] + values[0].value] + more else more
  }

  predicate NamesOk(names: seq<string>) {
    && (forall n :: n in names ==> '=' !in n && '&' !in n)
    && (forall i, j | 0 <= i < j < |names| :: names[i] != names[j])
  }

  predicate ValueOk(v: Option<string>) {
    v.Some? ==> v.value != "" && '&' !in v.value
  }

  lemma {:induction false} WrittenAsPairs(names: seq<string>, values: seq<Option<string>>, sep: char)
    requires |values| == |names|
    ensures WriteQuery(names, values, sep)
         == if Pairs(names, values) == [] then "" else [sep] + JoinBy(Pairs(names, values), '&')
  {
    if names != [] {
      WrittenAsPairs(names[1..], values[1..], '&');
      WrittenAsPairs(names[1..], values[1..], sep);
      if values[0].Some? {
        var pair, more := names[0] + ['='] + values[0].value, Pairs(names[1..], values[1..]);
        assert ([pair] + more)[1..] == more;
        if more == [] {
          assert [sep] + pair + "" == [sep] + pair;
        } else {
          assert [sep] + pair + (['&'] + JoinBy(more, '&')) == [sep] + (pair + ['&'] + JoinBy(more, '&'));
        }
      }
    }
  }

  lemma {:induction false} PairsAreClean(names: seq<string>, values: seq<Option<string>>)
    requires |values| == |names| && NamesOk(names) && forall v :: v in values ==> ValueOk(v)
    ensures forall p :: p in Pairs(names, values) ==> '&' !in p
  {
    if names != [] {
      assert values[0] in values && names[0] in names;
      PairsAreClean(names[1..], values[1..]);
    }
  }

  lemma {:induction false} PositionOf(allowed: seq<string>, i: nat)
    requires i < |allowed| && forall a, b | 0 <= a < b < |allowed| :: allowed[a] != allowed[b]
    ensures Position(allowed, allowed[i]) == i
  {
    if i > 0 {
      assert allowed[0] != allowed[i];
      PositionOf(allowed[1..], i - 1);
    }
  }

  /** Reading written pairs fills every slot as it was. */
  lemma {:induction false} FillRestores(names: seq<string>, values: seq<Option<string>>, i: nat)
    requires |values| == |names| && NamesOk(names) && i <= |names| && forall v :: v in values ==> ValueOk(v)
    ensures Fill(Pairs(names[i..], values[i..]), names, values[..i] + Unset(|names| - i)) == Some(values)
    decreases |names| - i
  {
    var filled := values[..i] + Unset(|names| - i);
    if i == |names| {
      assert filled == values;
    } else {
      FillRestores(names, values, i + 1);
      assert names[i..][1..] == names[i + 1..] && values[i..][1..] == values[i + 1..];
      assert values[i] in values && names[i] in names;
      var next := values[..i + 1] + Unset(|names| - i - 1);
      if values[i].Some? {
        FillOne(Pairs(names[i..], values[i..]), names, filled, i, values[i].value);
        assert filled[i := values[i]] == next;
        var all := Pairs(names[i..], values[i..]);
        assert all[1..] == Pairs(names[i + 1..], values[i + 1..]);
      } else {
        assert filled == next;
      }
    }
  }

  lemma SplitWritten(path: string, query: string)
    requires '?' !in path
    ensures SplitOnce(path + (['?'] + query), '?') == Some((path, query))
  {
    SplitJoined(path, '?', query);
    assert path + (['?'] + query) == path + ['?'] + query;
  }

  lemma WrittenQuerySplits(path: string, names: seq<string>, values: seq<Option<string>>)
    requires '?' !in path && |values| == |names| && NamesOk(names) && forall v :: v in values ==> ValueOk(v)
    requires Pairs(names, values) != []
    ensures SplitOnce(path + WriteQuery(names, values, '?'), '?') == Some((path, JoinBy(Pairs(names, values), '&')))
    ensures Split(JoinBy(Pairs(names, values), '&'), '&') == Pairs(names, values)
  {
    PairsAreClean(names, values);
    JoinSplits(Pairs(names, values), '&');
    WrittenAsPairs(names, values, '?');
    SplitWritten(path, JoinBy(Pairs(names, values), '&'));
  }

  /** A written query reads back, whatever clean path is before it. */
  lemma QueryRoundTrip(path: string, names: seq<string>, values: seq<Option<string>>)
    requires '?' !in path && |values| == |names| && NamesOk(names) && forall v :: v in values ==> ValueOk(v)
    ensures QuerySplit(path + WriteQuery(names, values, '?'), names) == Some((path, values))
  {
    FillRestores(names, values, 0);
    assert names[0..] == names && values[0..] == values && values[..0] + Unset(|names|) == Unset(|names|);
    if Pairs(names, values) == [] {
      WrittenAsPairs(names, values, '?');
      assert path + "" == path;
      SplitParts(path, '?');
    } else {
      WrittenQuerySplits(path, names, values);
    }
  }

  /** Every value read is one that can be written. */
  lemma {:induction false} FilledAreOk(pairs: seq<string>, allowed: seq<string>, values: seq<Option<string>>)
    requires |values| == |allowed| && (forall v :: v in values ==> ValueOk(v)) && forall p :: p in pairs ==> '&' !in p
    ensures Fill(pairs, allowed, values).Some? ==> forall v :: v in Fill(pairs, allowed, values).value ==> ValueOk(v)
    decreases |pairs|
  {
    if pairs != [] {
      var (name, value) := NameValue(pairs[0]);
      SplitParts(pairs[0], '=');
      assert pairs[0] in pairs;
      var i := Position(allowed, name);
      if i < |allowed| && values[i].None? && value != "" {
        FilledAreOk(pairs[1..], allowed, values[i := Some(value)]);
      }
    }
  }

  lemma QueryPartsOk(rest: string, allowed: seq<string>)
    ensures QuerySplit(rest, allowed).Some? ==>
              && '?' !in QuerySplit(rest, allowed).value.0
              && forall v :: v in QuerySplit(rest, allowed).value.1 ==> ValueOk(v)
  {
    SplitParts(rest, '?');
    if SplitOnce(rest, '?').Some? {
      var query := SplitOnce(rest, '?').value.1;
      SplitJoins(query, '&');
      FilledAreOk(Split(query, '&'), allowed, Unset(|allowed|));
    }
  }

  /* ----- lengths: reading keeps every character of a query, in some order ----- */

  function Weight(names: seq<string>, values: seq<Option<string>>): nat
    requires |values| == |names|
  {
    if names == [] then 0
    else Weight(names[1..], values[1..]) + if values[0].Some? then |names[0]| + |values[0].value| + 2 else 0
  }

  function PairsWeight(pairs: seq<string>): nat {
    if pairs == [] then 0 else |pairs[0]| + 1 + PairsWeight(pairs[1..])
  }

  lemma {:induction false} WeightOfWritten(names: seq<string>, values: seq<Option<string>>, sep: char)
    requires |values| == |names|
    ensures |WriteQuery(names, values, sep)| == Weight(names, values)
  {
    if names != [] {
      WeightOfWritten(names[1..], values[1..], if values[0].Some? then '&' else sep);
    }
  }

  lemma {:induction false} WeightOfSet(names: seq<string>, values: seq<Option<string>>, i: nat, v: string)
    requires |values| == |names| && i < |names| && values[i].None?
    ensures Weight(names, values[i := Some(v)]) == Weight(names, values) + |names[i]| + |v| + 2
  {
    if i == 0 {
      assert values[0 := Some(v)][1..] == values[1..];
    } else {
      assert values[i := Some(v)][1..] == values[1..][i - 1 := Some(v)];
      WeightOfSet(names[1..], values[1..], i - 1, v);
    }
  }

  lemma {:induction false} FillKeepsWeight(pairs: seq<string>, allowed: seq<string>, values: seq<Option<string>>)
    requires |values| == |allowed|
    ensures Fill(pairs, allowed, values).Some? ==>
              Weight(allowed, Fill(pairs, allowed, values).value) == Weight(allowed, values) + PairsWeight(pairs)
    decreases |pairs|
  {
    if pairs != [] {
      var (name, value) := NameValue(pairs[0]);
      SplitParts(pairs[0], '=');
      var i := Position(allowed, name);
      if i < |allowed| && values[i].None? && value != "" {
        WeightOfSet(allowed, values, i, value);
        FillKeepsWeight(pairs[1..], allowed, values[i := Some(value)]);
      }
    }
  }

  lemma {:induction false} WeightOfSplit(parts: seq<string>, c: char)
    requires parts != []
    ensures |JoinBy(parts, c)| + 1 == PairsWeight(parts)
  {
    if |parts| > 1 {
      WeightOfSplit(parts[1..], c);
    } else {
      assert PairsWeight(parts[1..]) == 0;
    }
  }

  lemma {:induction false} UnsetWeighsNothing(names: seq<string>)
    ensures Weight(names, Unset(|names|)) == 0
  {
    if names != [] {
      assert Unset(|names|)[1..] == Unset(|names[1..]|);
      UnsetWeighsNothing(names[1..]);
    }
  }

  lemma QueryKeepsLength(rest: string, allowed: seq<string>)
    ensures QuerySplit(rest, allowed).Some? ==>
              var (path, values) := QuerySplit(rest, allowed).value;
              |rest| == |path| + |WriteQuery(allowed, values, '?')|
  {
    UnsetWeighsNothing(allowed);
    SplitParts(rest, '?');
    if QuerySplit(rest, allowed).Some? {
      WeightOfWritten(allowed, QuerySplit(rest, allowed).value.1, '?');
      if SplitOnce(rest, '?').Some? {
        var query := SplitOnce(rest, '?').value.1;
        SplitJoins(query, '&');
        WeightOfSplit(Split(query, '&'), '&');
        FillKeepsWeight(Split(query, '&'), allowed, Unset(|allowed|));
      }
    }
  }

  /* ----- parsing and printing ----- */

  function SplitBucket(rest: string): Option<(string, string)> {
    match SplitOnce(rest, '/')
    case Some((bucket, key)) => if bucket != "" && key != "" then Some((bucket, key)) else None
    case None => None
  }

  predicate NoneEmpty(parts: seq<string>) {
    forall p :: p in parts ==> p != ""
  }

  /** Plain `http://` is for the local host only. */
  predicate Loopback(rest: string) {
    var authority := Split(rest, '/')[0];
    var end := IndexOf(authority, "]");
    var host := if end < |authority| && authority[0] == '[' then authority[..end + 1] else Split(authority, ':')[0];
    host == "localhost" || host == "127.0.0.1" || host == "[::1]"
  }

  const LABEL := ["label"]
  const KEY_VALUE := ["key", "value"]
  const DATABASE_FIELD := ["database", "field"]
  const PK_FIELD := ["pk", "field"]

  function AzureAppConfigOf(rest: string, names: seq<string>): Option<Source>
    requires |names| == 1
  {
    match QuerySplit(rest, names)
    case None => None
    case Some((path, values)) =>
      match SplitBucket(path)
      case Some((store, key)) => Some(AzureAppConfig(store, key, values[0]))
      case None => None
  }

  function DynamoDbOf(rest: string, names: seq<string>): Option<Source>
    requires |names| == 2
  {
    match QuerySplit(rest, names)
    case None => None
    case Some((path, values)) =>
      match SplitOnce(path, '/')
      case Some((table, id)) =>
        if table != "" && id != "" && '/' !in id then Some(DynamoDb(table, id, values[0], values[1])) else None
      case None => None
  }

  function FirestoreOf(rest: string, names: seq<string>): Option<Source>
    requires |names| == 2
  {
    match QuerySplit(rest, names)
    case None => None
    case Some((path, values)) =>
      match SplitBucket(path)
      case Some((project, document)) =>
        var segments := Split(document, '/');
        if |segments| % 2 == 0 && NoneEmpty(segments)
        then Some(Firestore(project, document, values[0], values[1])) else None
      case None => None
  }

  function CosmosOf(rest: string, names: seq<string>): Option<Source>
    requires |names| == 2
  {
    match QuerySplit(rest, names)
    case None => None
    case Some((path, values)) =>
      var parts := Split(path, '/');
      if |parts| == 4 && NoneEmpty(parts)
      then Some(Cosmos(parts[0], parts[1], parts[2], parts[3], values[0], values[1])) else None
  }

  function AppConfigOf(rest: string): Option<Source> {
    var parts := Split(rest, '/');
    if |parts| == 3 && NoneEmpty(parts) then Some(AppConfig(parts[0], parts[1], parts[2])) else None
  }

  function ParseAs(s: Scheme, rest: string): Option<Source> {
    match s
    case ToS3 => (match SplitBucket(rest) case Some((b, k)) => Some(S3(b, k)) case None => None)
    case ToGs => (match SplitBucket(rest) case Some((b, k)) => Some(Gcs(b, k)) case None => None)
    case ToAz => (match SplitBucket(rest) case Some((b, k)) => Some(Azure(b, k)) case None => None)
    case ToAppConfig => AppConfigOf(rest)
    case ToAzAppConfig => AzureAppConfigOf(rest, LABEL)
    case ToDynamoDb => DynamoDbOf(rest, KEY_VALUE)
    case ToFirestore => FirestoreOf(rest, DATABASE_FIELD)
    case ToCosmos => CosmosOf(rest, PK_FIELD)
    case ToHttps => Some(Http(Prefix(ToHttps) + rest))
    case ToHttp => if Loopback(rest) then Some(Http(Prefix(ToHttp) + rest)) else None
  }

  /** Parses text that has no spaces around it. */
  function ParseTrimmed(raw: string): Option<Source> {
    match SchemeOf(raw, SCHEMES)
    case Some(s) => ParseAs(s, raw[|Prefix(s)|..])
    case None => if Contains(raw, "://") then None else Some(File(raw))
  }

  function Parse(text: string): Option<Source> {
    ParseTrimmed(Trim(text))
  }

  function SchemeOfSource(src: Source): Option<Scheme> {
    match src
    case File(_) => None
    case Http(url) => Some(if Prefix(ToHttps) <= url then ToHttps else ToHttp)
    case S3(_, _) => Some(ToS3)
    case Gcs(_, _) => Some(ToGs)
    case Azure(_, _) => Some(ToAz)
    case AppConfig(_, _, _) => Some(ToAppConfig)
    case AzureAppConfig(_, _, _) => Some(ToAzAppConfig)
    case DynamoDb(_, _, _, _) => Some(ToDynamoDb)
    case Firestore(_, _, _, _) => Some(ToFirestore)
    case Cosmos(_, _, _, _, _, _) => Some(ToCosmos)
  }

  /** What follows the scheme. */
  function Body(src: Source): string
    requires !src.File? && !src.Http?
  {
    match src
    case S3(b, k) => b + ['/'] + k
    case Gcs(b, k) => b + ['/'] + k
    case Azure(b, k) => b + ['/'] + k
    case AppConfig(a, e, p) => JoinBy([a, e, p], '/')
    case AzureAppConfig(store, key, tag) => store + ['/'] + key + WriteQuery(LABEL, [tag], '?')
    case DynamoDb(table, id, k, v) => table + ['/'] + id + WriteQuery(KEY_VALUE, [k, v], '?')
    case Firestore(project, document, d, f) => project + ['/'] + document + WriteQuery(DATABASE_FIELD, [d, f], '?')
    case Cosmos(a, d, c, id, pk, f) => JoinBy([a, d, c, id], '/') + WriteQuery(PK_FIELD, [pk, f], '?')
  }

  /** The printed form: the source's identity. */
  function Print(src: Source): string {
    match src
    case File(path) => path
    case Http(url) => url
    case _ => Prefix(SchemeOfSource(src).value) + Body(src)
  }

  predicate Part(p: string) {
    p != "" && '/' !in p
  }

  predicate Clean(p: string) {
    '?' !in p
  }

  /** The sources that text can name. */
  predicate Nameable(src: Source) {
    match src
    case File(path) => !Contains(path, "://") && SchemeOf(path, SCHEMES) == None
    case Http(url) =>
      || Prefix(ToHttps) <= url
      || (Prefix(ToHttp) <= url && Loopback(url[|Prefix(ToHttp)|..]))
    case S3(b, k) => Part(b) && k != ""
    case Gcs(b, k) => Part(b) && k != ""
    case Azure(b, k) => Part(b) && k != ""
    case AppConfig(a, e, p) => Part(a) && Part(e) && Part(p)
    case AzureAppConfig(store, key, tag) => Part(store) && key != "" && Clean(store) && Clean(key) && ValueOk(tag)
    case DynamoDb(table, id, k, v) => Part(table) && Part(id) && Clean(table) && Clean(id) && ValueOk(k) && ValueOk(v)
    case Firestore(project, document, d, f) =>
      && Part(project) && Clean(project) && Clean(document) && ValueOk(d) && ValueOk(f)
      && |Split(document, '/')| % 2 == 0 && NoneEmpty(Split(document, '/'))
    case Cosmos(a, d, c, id, pk, f) =>
      && Part(a) && Part(d) && Part(c) && Part(id)
      && Clean(a) && Clean(d) && Clean(c) && Clean(id) && ValueOk(pk) && ValueOk(f)
  }

  lemma BucketRoundTrip(bucket: string, key: string)
    requires Part(bucket) && key != ""
    ensures SplitBucket(bucket + ['/'] + key) == Some((bucket, key))
  {
    SplitJoined(bucket, '/', key);
  }

  lemma CleanJoin(a: string, b: string)
    requires Clean(a) && Clean(b)
    ensures Clean(a + ['/'] + b)
  {
  }

  lemma {:induction false} JoinIsClean(parts: seq<string>)
    requires forall p :: p in parts ==> Clean(p)
    ensures Clean(JoinBy(parts, '/'))
  {
    if |parts| > 0 {
      assert parts[0] in parts;
    }
    if |parts| > 1 {
      JoinIsClean(parts[1..]);
      CleanJoin(parts[0], JoinBy(parts[1..], '/'));
    }
  }

  lemma AppConfigReadsBack(a: string, e: string, p: string)
    requires Part(a) && Part(e) && Part(p)
    ensures AppConfigOf(JoinBy([a, e, p], '/')) == Some(AppConfig(a, e, p))
  {
    JoinSplits([a, e, p], '/');
  }

  lemma AzureAppConfigReadsBack(store: string, key: string, tag: Option<string>, names: seq<string>)
    requires Nameable(AzureAppConfig(store, key, tag)) && |names| == 1 && NamesOk(names)
    ensures AzureAppConfigOf(store + ['/'] + key + WriteQuery(names, [tag], '?'), names)
        == Some(AzureAppConfig(store, key, tag))
  {
    CleanJoin(store, key);
    QueryRoundTrip(store + ['/'] + key, names, [tag]);
    BucketRoundTrip(store, key);
  }

  lemma DynamoDbReadsBack(table: string, id: string, k: Option<string>, v: Option<string>, names: seq<string>)
    requires Nameable(DynamoDb(table, id, k, v)) && |names| == 2 && NamesOk(names)
    ensures DynamoDbOf(table + ['/'] + id + WriteQuery(names, [k, v], '?'), names) == Some(DynamoDb(table, id, k, v))
  {
    CleanJoin(table, id);
    QueryRoundTrip(table + ['/'] + id, names, [k, v]);
    SplitJoined(table, '/', id);
  }

  lemma FirestoreReadsBack(project: string, document: string, d: Option<string>, f: Option<string>, names: seq<string>)
    requires Nameable(Firestore(project, document, d, f)) && |names| == 2 && NamesOk(names)
    ensures FirestoreOf(project + ['/'] + document + WriteQuery(names, [d, f], '?'), names)
        == Some(Firestore(project, document, d, f))
  {
    CleanJoin(project, document);
    QueryRoundTrip(project + ['/'] + document, names, [d, f]);
    SplitOfEmpty('/');
    BucketRoundTrip(project, document);
  }

  lemma SplitOfEmpty(c: char)
    ensures Split("", c) == [""] && !NoneEmpty(Split("", c))
  {
    assert "" in [""];
  }

  lemma PartsReadBack(parts: seq<string>, names: seq<string>, values: seq<Option<string>>)
    requires parts != [] && forall i | 0 <= i < |parts| :: Part(parts[i]) && Clean(parts[i])
    requires |values| == |names| && NamesOk(names) && forall i | 0 <= i < |values| :: ValueOk(values[i])
    ensures QuerySplit(JoinBy(parts, '/') + WriteQuery(names, values, '?'), names) == Some((JoinBy(parts, '/'), values))
    ensures Split(JoinBy(parts, '/'), '/') == parts
  {
    JoinIsClean(parts);
    QueryRoundTrip(JoinBy(parts, '/'), names, values);
    JoinSplits(parts, '/');
  }

  lemma CosmosReadsBack(parts: seq<string>, values: seq<Option<string>>, names: seq<string>)
    requires |parts| == 4 && |values| == |names| == 2 && NamesOk(names)
    requires forall i | 0 <= i < |parts| :: Part(parts[i]) && Clean(parts[i])
    requires forall i | 0 <= i < |values| :: ValueOk(values[i])
    ensures CosmosOf(JoinBy(parts, '/') + WriteQuery(names, values, '?'), names)
         == Some(Cosmos(parts[0], parts[1], parts[2], parts[3], values[0], values[1]))
  {
    PartsReadBack(parts, names, values);
    assert NoneEmpty(parts);
  }

  lemma LabelOk()
    ensures NamesOk(LABEL)
  {
  }

  lemma KeyValueOk()
    ensures NamesOk(KEY_VALUE)
  {
    assert "key"[0] != "value"[0];
  }

  lemma DatabaseFieldOk()
    ensures NamesOk(DATABASE_FIELD)
  {
    assert "database"[0] != "field"[0];
  }

  lemma PkFieldOk()
    ensures NamesOk(PK_FIELD)
  {
    assert "pk"[0] != "field"[0];
  }

  lemma CosmosBody(src: Source)
    requires src.Cosmos? && Nameable(src)
    ensures ParseAs(ToCosmos, Body(src)) == Some(src)
  {
    var parts := [src.account, src.database, src.container, src.id];
    var values := [src.pk, src.field];
    PkFieldOk();
    CosmosReadsBack(parts, values, PK_FIELD);
    assert Body(src) == JoinBy(parts, '/') + WriteQuery(PK_FIELD, values, '?');
  }

  lemma ParsesAsItem(rest: string)
    ensures ParseAs(ToDynamoDb, rest) == DynamoDbOf(rest, KEY_VALUE)
  {
  }

  lemma ParsesAsDocument(rest: string)
    ensures ParseAs(ToFirestore, rest) == FirestoreOf(rest, DATABASE_FIELD)
  {
  }

  lemma ParsesAsStore(rest: string)
    ensures ParseAs(ToAzAppConfig, rest) == AzureAppConfigOf(rest, LABEL)
  {
  }

  lemma DynamoDbBody(src: Source)
    requires src.DynamoDb? && Nameable(src)
    ensures ParseAs(ToDynamoDb, Body(src)) == Some(src)
  {
    KeyValueOk();
    DynamoDbReadsBack(src.table, src.id, src.keyAttribute, src.valueAttribute, KEY_VALUE);
    ParsesAsItem(Body(src));
  }

  lemma FirestoreBody(src: Source)
    requires src.Firestore? && Nameable(src)
    ensures ParseAs(ToFirestore, Body(src)) == Some(src)
  {
    DatabaseFieldOk();
    FirestoreReadsBack(src.project, src.document, src.databaseId, src.field, DATABASE_FIELD);
    ParsesAsDocument(Body(src));
  }

  lemma AzureAppConfigBody(src: Source)
    requires src.AzureAppConfig? && Nameable(src)
    ensures ParseAs(ToAzAppConfig, Body(src)) == Some(src)
  {
    LabelOk();
    AzureAppConfigReadsBack(src.store, src.key, src.tag, LABEL);
  }

  lemma AppConfigBody(src: Source)
    requires src.AppConfig? && Nameable(src)
    ensures ParseAs(ToAppConfig, Body(src)) == Some(src)
  {
    AppConfigReadsBack(src.application, src.environment, src.profile);
  }

  /** Reading the body of a printed source gives the source. */
  lemma BodyRoundTrip(src: Source)
    requires Nameable(src) && !src.File? && !src.Http?
    ensures ParseAs(SchemeOfSource(src).value, Body(src)) == Some(src)
  {
    match src
    case S3(b, k) => BucketRoundTrip(b, k);
    case Gcs(b, k) => BucketRoundTrip(b, k);
    case Azure(b, k) => BucketRoundTrip(b, k);
    case AppConfig(_, _, _) => AppConfigBody(src);
    case AzureAppConfig(_, _, _) => AzureAppConfigBody(src);
    case DynamoDb(_, _, _, _) => DynamoDbBody(src);
    case Firestore(_, _, _, _) => FirestoreBody(src);
    case Cosmos(_, _, _, _, _, _) => CosmosBody(src);
  }

  lemma PrefixAndRest(s: Scheme, raw: string)
    requires Prefix(s) <= raw
    ensures raw == Prefix(s) + raw[|Prefix(s)|..]
  {
  }

  lemma HttpReadsBack(s: Scheme, rest: string)
    requires s == ToHttps || (s == ToHttp && Loopback(rest))
    ensures ParseTrimmed(Prefix(s) + rest) == Some(Http(Prefix(s) + rest))
  {
    SchemeReadsBack(s, rest);
  }

  lemma SchemeReadsBack(s: Scheme, rest: string)
    ensures ParseTrimmed(Prefix(s) + rest) == ParseAs(s, rest)
  {
    assert s in SCHEMES;
    SchemeFound(s, rest, SCHEMES);
    assert (Prefix(s) + rest)[|Prefix(s)|..] == rest;
  }

  /** Printed and read again without trimming, every nameable source is itself. */
  lemma PrintReadsBack(src: Source)
    requires Nameable(src)
    ensures ParseTrimmed(Print(src)) == Some(src)
  {
    if src.Http? {
      var s := SchemeOfSource(src).value;
      var rest := src.url[|Prefix(s)|..];
      PrefixAndRest(s, src.url);
      HttpReadsBack(s, rest);
    } else if !src.File? {
      SchemeReadsBack(SchemeOfSource(src).value, Body(src));
      BodyRoundTrip(src);
    }
  }

  /** No two nameable sources print alike: the walk's visited key tells them apart. */
  lemma PrintIsInjective(a: Source, b: Source)
    requires Nameable(a) && Nameable(b) && Print(a) == Print(b)
    ensures a == b
  {
    PrintReadsBack(a);
    PrintReadsBack(b);
  }

  /* ----- everything that parses is nameable ----- */

  lemma BucketParts(rest: string)
    ensures SplitBucket(rest).Some? ==>
              var (b, k) := SplitBucket(rest).value;
              Part(b) && k != "" && rest == b + ['/'] + k
  {
    SplitParts(rest, '/');
  }

  lemma AzureAppConfigParses(rest: string, names: seq<string>)
    requires |names| == 1 && AzureAppConfigOf(rest, names).Some?
    ensures var src := AzureAppConfigOf(rest, names).value;
            src.AzureAppConfig? && Nameable(src)
            && |rest| == |src.store + ['/'] + src.key + WriteQuery(names, [src.tag], '?')|
  {
    var (path, values) := QuerySplit(rest, names).value;
    QueryPartsOk(rest, names);
    QueryKeepsLength(rest, names);
    BucketParts(path);
    assert values == [values[0]];
  }

  lemma DynamoDbParses(rest: string, names: seq<string>)
    requires |names| == 2 && DynamoDbOf(rest, names).Some?
    ensures var src := DynamoDbOf(rest, names).value;
            src.DynamoDb? && Nameable(src)
            && |rest| == |src.table + ['/'] + src.id + WriteQuery(names, [src.keyAttribute, src.valueAttribute], '?')|
  {
    var (path, values) := QuerySplit(rest, names).value;
    QueryPartsOk(rest, names);
    QueryKeepsLength(rest, names);
    SplitParts(path, '/');
    assert values == [values[0], values[1]];
  }

  lemma FirestoreParses(rest: string, names: seq<string>)
    requires |names| == 2 && FirestoreOf(rest, names).Some?
    ensures var src := FirestoreOf(rest, names).value;
            src.Firestore? && Nameable(src)
            && |rest| == |src.project + ['/'] + src.document + WriteQuery(names, [src.databaseId, src.field], '?')|
  {
    var (path, values) := QuerySplit(rest, names).value;
    QueryPartsOk(rest, names);
    QueryKeepsLength(rest, names);
    BucketParts(path);
    assert values == [values[0], values[1]];
  }

  lemma PartsParse(path: string)
    requires NoneEmpty(Split(path, '/'))
    ensures path == JoinBy(Split(path, '/'), '/')
    ensures forall i | 0 <= i < |Split(path, '/')| ::
              Part(Split(path, '/')[i]) && (Clean(path) ==> Clean(Split(path, '/')[i]))
  {
    SplitJoins(path, '/');
    forall i | 0 <= i < |Split(path, '/')|
      ensures Part(Split(path, '/')[i]) && (Clean(path) ==> Clean(Split(path, '/')[i]))
    {
      assert Split(path, '/')[i] in Split(path, '/');
      if Clean(path) {
        PartOfJoin(Split(path, '/'), i);
      }
    }
  }

  lemma {:induction false} PartOfJoin(parts: seq<string>, i: nat)
    requires i < |parts| && Clean(JoinBy(parts, '/'))
    ensures Clean(parts[i])
  {
    if |parts| > 1 {
      var rest := JoinBy(parts[1..], '/');
      assert JoinBy(parts, '/') == parts[0] + (['/'] + rest);
      if i == 0 {
        CleanSum(parts[0], ['/'] + rest);
      } else {
        CleanSum(parts[0], ['/'] + rest);
        CleanSum(['/'], rest);
        PartOfJoin(parts[1..], i - 1);
      }
    }
  }

  lemma CleanSum(a: string, b: string)
    requires Clean(a + b)
    ensures Clean(a) && Clean(b)
  {
    forall c | c in a ensures c in a + b {}
    forall c | c in b ensures c in a + b {}
  }

  lemma FourPartsNameable(path: string, pk: Option<string>, field: Option<string>)
    requires var parts := Split(path, '/'); |parts| == 4 && NoneEmpty(parts)
    requires Clean(path) && ValueOk(pk) && ValueOk(field)
    ensures var parts := Split(path, '/');
            && Nameable(Cosmos(parts[0], parts[1], parts[2], parts[3], pk, field))
            && path == JoinBy([parts[0], parts[1], parts[2], parts[3]], '/')
  {
    PartsParse(path);
    var parts := Split(path, '/');
    assert parts == [parts[0], parts[1], parts[2], parts[3]];
  }

  lemma CosmosParses(rest: string, names: seq<string>)
    requires |names| == 2 && CosmosOf(rest, names).Some?
    ensures var src := CosmosOf(rest, names).value;
            src.Cosmos? && Nameable(src)
            && |rest| == |JoinBy([src.account, src.database, src.container, src.id], '/')
                          + WriteQuery(names, [src.pk, src.field], '?')|
  {
    var (path, values) := QuerySplit(rest, names).value;
    QueryPartsOk(rest, names);
    QueryKeepsLength(rest, names);
    FourPartsNameable(path, values[0], values[1]);
    assert values == [values[0], values[1]];
  }

  lemma AppConfigParses(rest: string)
    requires AppConfigOf(rest).Some?
    ensures var src := AppConfigOf(rest).value;
            src.AppConfig? && Nameable(src) && rest == JoinBy([src.application, src.environment, src.profile], '/')
  {
    PartsParse(rest);
    var parts := Split(rest, '/');
    assert parts == [parts[0], parts[1], parts[2]];
  }

  lemma BodyParses(s: Scheme, rest: string)
    requires s != ToHttps && s != ToHttp && ParseAs(s, rest).Some?
    ensures var src := ParseAs(s, rest).value;
            !src.File? && !src.Http? && Nameable(src) && SchemeOfSource(src) == Some(s) && |rest| == |Body(src)|
  {
    match s
    case ToS3 => BucketParts(rest);
    case ToGs => BucketParts(rest);
    case ToAz => BucketParts(rest);
    case ToAppConfig => AppConfigParses(rest);
    case ToAzAppConfig => AzureAppConfigParses(rest, LABEL);
    case ToDynamoDb => DynamoDbParses(rest, KEY_VALUE);
    case ToFirestore => FirestoreParses(rest, DATABASE_FIELD);
    case ToCosmos => CosmosParses(rest, PK_FIELD);
  }

  /** Whatever parses is nameable, and its printed form is as long as the text
      was: at most the order of the query parameters changes. */
  lemma ParsedIsNameable(raw: string)
    requires ParseTrimmed(raw).Some?
    ensures Nameable(ParseTrimmed(raw).value) && |Print(ParseTrimmed(raw).value)| == |raw|
  {
    match SchemeOf(raw, SCHEMES)
    case None =>
    case Some(s) =>
      var rest := raw[|Prefix(s)|..];
      PrefixAndRest(s, raw);
      if s == ToHttps || s == ToHttp {
        HttpParses(s, rest);
      } else {
        BodyParses(s, rest);
      }
  }

  lemma HttpParses(s: Scheme, rest: string)
    requires (s == ToHttps || s == ToHttp) && ParseAs(s, rest).Some?
    ensures ParseAs(s, rest) == Some(Http(Prefix(s) + rest)) && Nameable(Http(Prefix(s) + rest))
  {
    assert (Prefix(s) + rest)[|Prefix(s)|..] == rest;
    assert Prefix(s) <= Prefix(s) + rest;
  }

  lemma {:induction false} TrimStartIsSuffix(s: string)
    ensures |TrimStart(s)| <= |s| && (|TrimStart(s)| == |s| ==> TrimStart(s) == s)
  {
    if s != [] && IsSpace(s[0]) {
      TrimStartIsSuffix(s[1..]);
    }
  }

  lemma TrimOfSameLength(s: string)
    requires |Trim(s)| == |s|
    ensures Trim(s) == s
  {
    TrimStartIsSuffix(s);
    TrimEndIsPrefix(TrimStart(s));
  }

  /** For every text that parses: printing the source and parsing again gives it
      back exactly when the printed form has no space at its ends. */
  lemma RoundTripIffTrimmed(text: string)
    requires Parse(text).Some?
    ensures Parse(Print(Parse(text).value)) == Parse(text) <==> Trimmed(Print(Parse(text).value))
  {
    var raw := Trim(text);
    var src := ParseTrimmed(raw).value;
    ParsedIsNameable(raw);
    PrintReadsBack(src);
    TrimTrims(Print(src));
    if Parse(Print(src)) == Some(src) {
      ParsedIsNameable(Trim(Print(src)));
      TrimOfSameLength(Print(src));
    }
  }

  /** The identity holds with no condition: of the sources that text names, no two print alike. */
  lemma PrintedFormIdentifies(a: string, b: string)
    requires Parse(a).Some? && Parse(b).Some? && Print(Parse(a).value) == Print(Parse(b).value)
    ensures Parse(a) == Parse(b)
  {
    ParsedIsNameable(Trim(a));
    ParsedIsNameable(Trim(b));
    PrintIsInjective(Parse(a).value, Parse(b).value);
  }

  /* ----- the order of parameters ----- */

  lemma FillOne(pairs: seq<string>, names: seq<string>, values: seq<Option<string>>, i: nat, v: string)
    requires |values| == |names| && NamesOk(names) && i < |names| && values[i].None? && v != ""
    requires pairs != [] && pairs[0] == names[i] + ['='] + v
    ensures Fill(pairs, names, values) == Fill(pairs[1..], names, values[i := Some(v)])
  {
    assert names[i] in names;
    SplitJoined(names[i], '=', v);
    PositionOf(names, i);
  }

  lemma PairsReadBack(path: string, pairs: seq<string>, names: seq<string>)
    requires Clean(path) && pairs != [] && forall i | 0 <= i < |pairs| :: '&' !in pairs[i]
    ensures QuerySplit(path + ['?'] + JoinBy(pairs, '&'), names)
         == match Fill(pairs, names, Unset(|names|)) case None => None case Some(values) => Some((path, values))
  {
    SplitJoined(path, '?', JoinBy(pairs, '&'));
    JoinSplits(pairs, '&');
  }

  /** Both parameters of a source, the second one written first, read as they would in order. */
  lemma QueryOrderDoesNotMatter(path: string, names: seq<string>, v0: string, v1: string)
    requires Clean(path) && |names| == 2 && NamesOk(names) && ValueOk(Some(v0)) && ValueOk(Some(v1))
    ensures QuerySplit(path + ['?'] + JoinBy([names[1] + ['='] + v1, names[0] + ['='] + v0], '&'), names)
         == Some((path, [Some(v0), Some(v1)]))
  {
    var first, second := names[1] + ['='] + v1, names[0] + ['='] + v0;
    assert names[0] in names && names[1] in names;
    PairsReadBack(path, [first, second], names);
    FillOne([first, second], names, Unset(2), 1, v1);
    assert [first, second][1..] == [second];
    FillOne([second], names, Unset(2)[1 := Some(v1)], 0, v0);
    assert Unset(2)[1 := Some(v1)][0 := Some(v0)] == [Some(v0), Some(v1)];
  }

  lemma LastOfJoin(a: string, b: string)
    ensures JoinBy([a, b], '&') == a + ['&'] + b
  {
    assert [a, b][1..] == [b];
  }

  lemma LastOfWritten(names: seq<string>, k: string, v: string)
    requires |names| == 2 && v != ""
    ensures var q := WriteQuery(names, [Some(k), Some(v)], '?');
            q != "" && q[|q| - 1] == v[|v| - 1]
  {
    var values := [Some(k), Some(v)];
    assert values[1..] == [Some(v)] && [Some(v)][1..] == [] && names[1..][1..] == [];
    assert WriteQuery(names[1..], values[1..], '&') == ['&'] + (names[1] + ['='] + v) + "";
  }

  /** A DynamoDB source written with its second parameter first. */
  function Reordered(table: string, id: string, k: string, v: string, names: seq<string>): string
    requires |names| == 2
  {
    table + ['/'] + id + ['?'] + JoinBy([names[1] + ['='] + v, names[0] + ['='] + k], '&')
  }

  lemma ReorderedReads(table: string, id: string, k: string, v: string, names: seq<string>)
    requires Nameable(DynamoDb(table, id, Some(k), Some(v))) && |names| == 2 && NamesOk(names)
    ensures DynamoDbOf(Reordered(table, id, k, v, names), names) == Some(DynamoDb(table, id, Some(k), Some(v)))
  {
    CleanJoin(table, id);
    QueryOrderDoesNotMatter(table + ['/'] + id, names, k, v);
    SplitJoined(table, '/', id);
  }

  lemma ReorderedEnds(table: string, id: string, k: string, v: string, names: seq<string>)
    requires |names| == 2 && k != ""
    ensures var text := Reordered(table, id, k, v, names);
            text != "" && text[|text| - 1] == k[|k| - 1]
  {
    LastOfJoin(names[1] + ['='] + v, names[0] + ['='] + k);
  }

  /** The condition is needed: a space at the end of a parameter that is not
      written last survives parsing, ends up last in print, and is trimmed off. */
  lemma TrailingSpaceIsLost(table: string, id: string, k: string, v: string)
    requires Nameable(DynamoDb(table, id, Some(k), Some(v))) && !IsSpace(k[|k| - 1]) && IsSpace(v[|v| - 1])
    ensures var text := Prefix(ToDynamoDb) + Reordered(table, id, k, v, KEY_VALUE);
            var src := DynamoDb(table, id, Some(k), Some(v));
            Parse(text) == Some(src) && Parse(Print(src)) != Some(src)
  {
    var text := Prefix(ToDynamoDb) + Reordered(table, id, k, v, KEY_VALUE);
    var src := DynamoDb(table, id, Some(k), Some(v));
    ReorderedParses(table, id, k, v);
    LastOfWritten(KEY_VALUE, k, v);
    EndsInSpace(src, v);
    RoundTripIffTrimmed(text);
  }

  lemma ReorderedParses(table: string, id: string, k: string, v: string)
    requires Nameable(DynamoDb(table, id, Some(k), Some(v))) && !IsSpace(k[|k| - 1])
    ensures Parse(Prefix(ToDynamoDb) + Reordered(table, id, k, v, KEY_VALUE))
        == Some(DynamoDb(table, id, Some(k), Some(v)))
  {
    KeyValueOk();
    ReorderedReads(table, id, k, v, KEY_VALUE);
    ReorderedEnds(table, id, k, v, KEY_VALUE);
    ParsesAsDynamoDb(Reordered(table, id, k, v, KEY_VALUE));
  }

  lemma ParsesAsDynamoDb(rest: string)
    requires rest != "" && !IsSpace(rest[|rest| - 1])
    ensures Parse(Prefix(ToDynamoDb) + rest) == DynamoDbOf(rest, KEY_VALUE)
  {
    SchemeReadsBack(ToDynamoDb, rest);
    ParsesAsItem(rest);
    CleanEnds(rest);
  }

  lemma CleanEnds(rest: string)
    requires rest != "" && !IsSpace(rest[|rest| - 1])
    ensures Trim(Prefix(ToDynamoDb) + rest) == Prefix(ToDynamoDb) + rest
  {
    var text := Prefix(ToDynamoDb) + rest;
    assert text[0] == 'd' && text[|text| - 1] == rest[|rest| - 1];
    TrimTrims(text);
  }

  lemma EndsInSpace(src: Source, v: string)
    requires src.DynamoDb? && v != "" && IsSpace(v[|v| - 1])
    requires var q := WriteQuery(KEY_VALUE, [src.keyAttribute, src.valueAttribute], '?');
             q != "" && q[|q| - 1] == v[|v| - 1]
    ensures !Trimmed(Print(src))
  {
    var q := WriteQuery(KEY_VALUE, [src.keyAttribute, src.valueAttribute], '?');
    assert Print(src)[|Print(src)| - 1] == q[|q| - 1];
  }

  /* ----- relative `extends` entries ----- */

  /** A reference's segments, walked from the parts of a key. */
  function Resolve(parts: seq<string>, segments: seq<string>): Option<seq<string>>
    decreases |segments|
  {
    if segments == [] then Some(parts)
    else if segments[0] == "" || segments[0] == "." then Resolve(parts, segments[1..])
    else if segments[0] == ".." then
      if parts == [] then None else Resolve(parts[..|parts| - 1], segments[1..])
    else Resolve(parts + [segments[0]], segments[1..])
  }

  function Folder(key: string): seq<string> {
    var parts := Split(key, '/');
    if parts == [] then [] else parts[..|parts| - 1]
  }

  function KeyJoined(key: string, reference: string): Option<string> {
    match Resolve(Folder(key), Split(reference, '/'))
    case None => None
    case Some(parts) => if parts == [] then None else Some(JoinBy(parts, '/'))
  }

  /** `reference` resolved against the folder of `key`. */
  method JoinKey(key: string, reference: string) returns (r: Option<string>)
    ensures r == KeyJoined(key, reference)
  {
    var parts := Folder(key);
    var segments := Split(reference, '/');
    var i := 0;
    while i < |segments|
      invariant 0 <= i <= |segments|
      invariant Resolve(parts, segments[i..]) == Resolve(Folder(key), segments)
    {
      var segment := segments[i];
      assert segments[i..][0] == segment && segments[i..][1..] == segments[i + 1..];
      if segment == "" || segment == "." {
      } else if segment == ".." {
        if parts == [] {
          return None;
        }
        parts := parts[..|parts| - 1];
      } else {
        parts := parts + [segment];
      }
      i := i + 1;
    }
    return if parts == [] then None else Some(JoinBy(parts, '/'));
  }

  function FlatName(reference: string): Option<string> {
    if reference == "" || '/' in reference || '?' in reference then None else Some(reference)
  }

  /** A relative entry of a file that lives in a cloud store: the same store, another key. */
  function JoinRelative(src: Source, reference: string): Option<Source>
    requires !src.File? && !src.Http?
  {
    match src
    case S3(b, k) => (match KeyJoined(k, reference) case None => None case Some(key) => Some(S3(b, key)))
    case Gcs(b, k) => (match KeyJoined(k, reference) case None => None case Some(key) => Some(Gcs(b, key)))
    case Azure(b, k) => (match KeyJoined(k, reference) case None => None case Some(key) => Some(Azure(b, key)))
    case AppConfig(a, e, _) =>
      if reference == "" || '/' in reference then None else Some(AppConfig(a, e, reference))
    case AzureAppConfig(store, k, tag) =>
      (match KeyJoined(k, reference) case None => None case Some(key) => Some(AzureAppConfig(store, key, tag)))
    case DynamoDb(table, _, k, v) =>
      (match FlatName(reference) case None => None case Some(id) => Some(DynamoDb(table, id, k, v)))
    case Firestore(project, doc, d, f) =>
      (match KeyJoined(doc, reference)
       case None => None
       case Some(key) => if |Split(key, '/')| % 2 == 0 then Some(Firestore(project, key, d, f)) else None)
    case Cosmos(a, d, c, _, _, f) =>
      (match FlatName(reference) case None => None case Some(id) => Some(Cosmos(a, d, c, id, None, f)))
  }

  predicate Segment(p: string, clean: bool) {
    '/' !in p && (clean ==> Clean(p))
  }

  lemma {:induction false} ResolveKeeps(parts: seq<string>, segments: seq<string>, clean: bool, full: bool)
    requires forall i | 0 <= i < |parts| :: Segment(parts[i], clean) && (full ==> parts[i] != "")
    requires forall i | 0 <= i < |segments| :: Segment(segments[i], clean)
    ensures var out := Resolve(parts, segments);
            out.Some? ==>
              forall i | 0 <= i < |out.value| :: Segment(out.value[i], clean) && (full ==> out.value[i] != "")
    decreases |segments|
  {
    if segments != [] {
      var seg, rest := segments[0], segments[1..];
      assert Segment(seg, clean);
      if seg == "" || seg == "." {
        ResolveKeeps(parts, rest, clean, full);
        assert Resolve(parts, segments) == Resolve(parts, rest);
      } else if seg == ".." {
        if parts != [] {
          ResolveKeeps(parts[..|parts| - 1], rest, clean, full);
          assert Resolve(parts, segments) == Resolve(parts[..|parts| - 1], rest);
        }
      } else {
        ResolveKeeps(parts + [seg], rest, clean, full);
        assert Resolve(parts, segments) == Resolve(parts + [seg], rest);
      }
    }
  }

  lemma SplitSegments(s: string, clean: bool)
    requires clean ==> Clean(s)
    ensures forall i | 0 <= i < |Split(s, '/')| :: Segment(Split(s, '/')[i], clean)
  {
    SplitJoins(s, '/');
    forall i | 0 <= i < |Split(s, '/')| ensures Segment(Split(s, '/')[i], clean) {
      assert Split(s, '/')[i] in Split(s, '/');
      if clean {
        PartOfJoin(Split(s, '/'), i);
      }
    }
  }

  lemma JoinOfClean(parts: seq<string>)
    requires forall i | 0 <= i < |parts| :: Clean(parts[i])
    ensures Clean(JoinBy(parts, '/'))
  {
    JoinIsClean(parts);
  }

  /** A joined key splits into clean segments when the key and the reference do;
      none is empty when the key had none. */
  lemma KeyJoinedKeeps(key: string, reference: string, clean: bool, full: bool)
    requires clean ==> Clean(key) && Clean(reference)
    requires full ==> NoneEmpty(Split(key, '/'))
    requires KeyJoined(key, reference).Some?
    ensures var joined := KeyJoined(key, reference).value;
            (clean ==> Clean(joined)) && (full ==> NoneEmpty(Split(joined, '/')))
  {
    SplitSegments(key, clean);
    SplitSegments(reference, clean);
    forall i | 0 <= i < |Folder(key)| ensures Segment(Folder(key)[i], clean) && (full ==> Folder(key)[i] != "") {
      assert Folder(key)[i] == Split(key, '/')[i] && Split(key, '/')[i] in Split(key, '/');
    }
    ResolveKeeps(Folder(key), Split(reference, '/'), clean, full);
    var parts := Resolve(Folder(key), Split(reference, '/')).value;
    if clean {
      forall i | 0 <= i < |parts| ensures Clean(parts[i]) { assert Segment(parts[i], clean); }
      JoinOfClean(parts);
    }
    forall i | 0 <= i < |parts| ensures '/' !in parts[i] { assert Segment(parts[i], clean); }
    JoinSplits(parts, '/');
  }

  function KeyOf(src: Source): string
    requires !src.File? && !src.Http?
  {
    match src
    case S3(_, k) => k
    case Gcs(_, k) => k
    case Azure(_, k) => k
    case AppConfig(_, _, p) => p
    case AzureAppConfig(_, k, _) => k
    case DynamoDb(_, id, _, _) => id
    case Firestore(_, doc, _, _) => doc
    case Cosmos(_, _, _, id, _, _) => id
  }

  /** The forms whose keys resolve like paths but whose query a `?` begins. */
  predicate TakesQuery(src: Source) {
    src.AzureAppConfig? || src.Firestore?
  }

  /** What a walk may hold: the sources that text names, and what joins make of them. A
      join keeps the store and the parameters, and leaves the key of a path free. */
  predicate Kept(src: Source) {
    match src
    case S3(b, _) => Part(b)
    case Gcs(b, _) => Part(b)
    case Azure(b, _) => Part(b)
    case AzureAppConfig(store, _, tag) => Part(store) && Clean(store) && ValueOk(tag)
    case Firestore(project, document, d, f) =>
      && Part(project) && Clean(project) && ValueOk(d) && ValueOk(f)
      && |Split(document, '/')| % 2 == 0 && NoneEmpty(Split(document, '/'))
    case _ => Nameable(src)
  }

  lemma NameableIsKept(src: Source)
    requires Nameable(src)
    ensures Kept(src)
  {
  }

  lemma NoneEmptyKey(document: string)
    requires |Split(document, '/')| % 2 == 0
    ensures document != ""
  {
    SplitOfEmpty('/');
  }

  /** Joins stay among them, in their form; and what a relative entry names is nameable
      exactly when its key is not empty and, in the two forms that resolve paths and
      have a query, holds no `?`. */
  lemma JoinStaysNameable(src: Source, reference: string)
    requires Kept(src) && !src.File? && !src.Http? && JoinRelative(src, reference).Some?
    ensures var joined := JoinRelative(src, reference).value;
            && Kept(joined) && !joined.File? && !joined.Http? && SchemeOfSource(joined) == SchemeOfSource(src)
            && (Nameable(joined) <==> KeyOf(joined) != "" && (TakesQuery(joined) ==> Clean(KeyOf(joined))))
  {
    match src
    case Firestore(_, doc, _, _) =>
      KeyJoinedKeeps(doc, reference, false, true);
      NoneEmptyKey(JoinRelative(src, reference).value.document);
    case AzureAppConfig(_, _, _) =>
    case S3(_, _) =>
    case Gcs(_, _) =>
    case Azure(_, _) =>
    case AppConfig(_, _, _) =>
    case DynamoDb(_, _, _, _) =>
    case Cosmos(_, _, _, _, _, _) =>
  }

  /** How many of `n` parts stay when the segments are walked, with `above` more of them
      on top at first. */
  function Staying(n: nat, above: nat, segments: seq<string>): (k: nat)
    ensures k <= n
    decreases |segments|
  {
    if segments == [] then n
    else if segments[0] == "" || segments[0] == "." then Staying(n, above, segments[1..])
    else if segments[0] != ".." then Staying(n, above + 1, segments[1..])
    else if above > 0 then Staying(n, above - 1, segments[1..])
    else if n > 0 then Staying(n - 1, 0, segments[1..])
    else 0
  }

  lemma {:induction false} CleanIffStaying(parts: seq<string>, pushed: seq<string>, segments: seq<string>)
    requires forall i | 0 <= i < |pushed| :: Clean(pushed[i])
    requires forall i | 0 <= i < |segments| :: Clean(segments[i])
    requires Resolve(parts + pushed, segments).Some?
    ensures var out := Resolve(parts + pushed, segments).value;
            (forall i | 0 <= i < |out| :: Clean(out[i])) <==>
            (forall i | 0 <= i < Staying(|parts|, |pushed|, segments) :: Clean(parts[i]))
    decreases |segments|
  {
    if segments == [] {
      var out := parts + pushed;
      assert forall i | 0 <= i < |parts| :: out[i] == parts[i];
      assert forall i | |parts| <= i < |out| :: out[i] == pushed[i - |parts|];
    } else if segments[0] == "" || segments[0] == "." {
      CleanIffStaying(parts, pushed, segments[1..]);
    } else if segments[0] != ".." {
      assert parts + (pushed + [segments[0]]) == parts + pushed + [segments[0]];
      CleanIffStaying(parts, pushed + [segments[0]], segments[1..]);
    } else if pushed != [] {
      assert (parts + pushed)[..|parts + pushed| - 1] == parts + pushed[..|pushed| - 1];
      CleanIffStaying(parts, pushed[..|pushed| - 1], segments[1..]);
    } else {
      assert (parts + pushed)[..|parts + pushed| - 1] == parts[..|parts| - 1] + [];
      CleanIffStaying(parts[..|parts| - 1], [], segments[1..]);
    }
  }

  /** An entry without `?` joins to a key without one exactly when the folders that stay
      of the base's key hold none. */
  lemma CleanEntryJoinsClean(src: Source, reference: string)
    requires Kept(src) && TakesQuery(src) && Clean(reference) && JoinRelative(src, reference).Some?
    ensures var folder := Folder(KeyOf(src));
            Clean(KeyOf(JoinRelative(src, reference).value)) <==>
            forall i | 0 <= i < Staying(|folder|, 0, Split(reference, '/')) :: Clean(folder[i])
  {
    var folder, segments := Folder(KeyOf(src)), Split(reference, '/');
    SplitSegments(reference, true);
    assert forall i | 0 <= i < |segments| :: Segment(segments[i], true) ==> Clean(segments[i]);
    assert folder + [] == folder;
    CleanIffStaying(folder, [], segments);
    JoinIsCleanIff(Resolve(folder, segments).value);
  }

  lemma {:induction false} JoinIsCleanIff(parts: seq<string>)
    ensures Clean(JoinBy(parts, '/')) <==> forall i | 0 <= i < |parts| :: Clean(parts[i])
  {
    if forall i | 0 <= i < |parts| :: Clean(parts[i]) {
      JoinOfClean(parts);
    }
    if Clean(JoinBy(parts, '/')) {
      forall i | 0 <= i < |parts| ensures Clean(parts[i]) {
        PartOfJoin(parts, i);
      }
    }
  }

  /* ----- which joined sources print like another ----- */

  function ParametersOf(src: Source): seq<string>
    requires TakesQuery(src)
  {
    if src.AzureAppConfig? then LABEL else DATABASE_FIELD
  }

  /** The query a source of such a form prints with. */
  function OwnQuery(src: Source): string
    requires TakesQuery(src)
  {
    match src
    case AzureAppConfig(_, _, tag) => WriteQuery(LABEL, [tag], '?')
    case Firestore(_, _, d, f) => WriteQuery(DATABASE_FIELD, [d, f], '?')
  }

  /** `query` is just as these parameters are written. */
  predicate IsWritten(query: string, names: seq<string>) {
    var values := Fill(Split(query, '&'), names, Unset(|names|));
    values.Some? && WriteQuery(names, values.value, '?') == ['?'] + query
  }

  /** What stands before the first `?` of the key is a key of the form, and what
      follows, the source's own query included, is just as the form writes one. */
  predicate Disguised(src: Source) {
    TakesQuery(src)
    && match SplitOnce(KeyOf(src), '?')
       case None => false
       case Some((before, after)) =>
         && IsWritten(after + OwnQuery(src), ParametersOf(src))
         && before != ""
         && (src.Firestore? ==> |Split(before, '/')| % 2 == 0 && NoneEmpty(Split(before, '/')))
  }

  function Head(src: Source): string
    requires TakesQuery(src)
  {
    if src.AzureAppConfig? then src.store else src.project
  }

  function WithKey(src: Source, key: string, values: seq<Option<string>>): Source
    requires TakesQuery(src) && |values| == |ParametersOf(src)|
  {
    if src.AzureAppConfig? then AzureAppConfig(src.store, key, values[0])
    else Firestore(src.project, key, values[0], values[1])
  }

  lemma BodyOfKey(src: Source, key: string, values: seq<Option<string>>)
    requires TakesQuery(src) && |values| == |ParametersOf(src)|
    ensures Body(WithKey(src, key, values)) == Head(src) + ['/'] + key + WriteQuery(ParametersOf(src), values, '?')
  {
    if src.AzureAppConfig? {
      assert values == [values[0]];
    } else {
      assert values == [values[0], values[1]];
    }
  }

  lemma BodyOfOwn(src: Source)
    requires TakesQuery(src)
    ensures Body(src) == Head(src) + ['/'] + KeyOf(src) + OwnQuery(src)
  {
  }

  lemma Regrouped(head: string, before: string, after: string, own: string)
    ensures head + ['/'] + (before + ['?'] + after) + own == head + ['/'] + before + (['?'] + (after + own))
    ensures head + ['/'] + before + ['?'] + (after + own) == head + ['/'] + before + (['?'] + (after + own))
  {
  }

  lemma KeySplits(head: string, key: string, own: string)
    requires '/' !in head && Clean(head) && !Clean(key)
    ensures SplitOnce(key, '?').Some?
    ensures var (before, after) := SplitOnce(key, '?').value;
            && Clean(before)
            && head + ['/'] + key + own == head + ['/'] + before + (['?'] + (after + own))
            && SplitOnce(head + ['/'] + key + own, '?') == Some((head + ['/'] + before, after + own))
            && SplitOnce(head + ['/'] + before, '/') == Some((head, before))
  {
    SplitParts(key, '?');
    var (before, after) := SplitOnce(key, '?').value;
    Regrouped(head, before, after, own);
    SplitJoined(head + ['/'] + before, '?', after + own);
    SplitJoined(head, '/', before);
  }

  /** The body of a source with `?` in its key, split where it would be read. */
  lemma BodySplits(src: Source)
    requires TakesQuery(src) && '/' !in Head(src) && Clean(Head(src)) && !Clean(KeyOf(src))
    ensures SplitOnce(KeyOf(src), '?').Some?
    ensures var (before, after) := SplitOnce(KeyOf(src), '?').value;
            && Clean(before)
            && Body(src) == Head(src) + ['/'] + before + (['?'] + (after + OwnQuery(src)))
            && SplitOnce(Body(src), '?') == Some((Head(src) + ['/'] + before, after + OwnQuery(src)))
            && SplitOnce(Head(src) + ['/'] + before, '/') == Some((Head(src), before))
  {
    BodyOfOwn(src);
    KeySplits(Head(src), KeyOf(src), OwnQuery(src));
  }

  lemma WrittenValues(query: string, names: seq<string>) returns (values: seq<Option<string>>)
    requires IsWritten(query, names)
    ensures |values| == |names| && WriteQuery(names, values, '?') == ['?'] + query
    ensures forall i | 0 <= i < |values| :: ValueOk(values[i])
  {
    SplitJoins(query, '&');
    FilledAreOk(Split(query, '&'), names, Unset(|names|));
    values := Fill(Split(query, '&'), names, Unset(|names|)).value;
  }

  lemma Impersonated(src: Source) returns (other: Source)
    requires Disguised(src) && Part(Head(src)) && Clean(Head(src))
    ensures Nameable(other) && other != src && Print(other) == Print(src)
  {
    SplitParts(KeyOf(src), '?');
    BodySplits(src);
    var (before, after) := SplitOnce(KeyOf(src), '?').value;
    var values := WrittenValues(after + OwnQuery(src), ParametersOf(src));
    other := WithKey(src, before, values);
    BodyOfKey(src, before, values);
    assert KeyOf(other) == before;
  }

  /** Whoever prints like a source is what the source's print is read as. */
  lemma ReadAsOther(src: Source, other: Source)
    requires !src.File? && !src.Http? && Nameable(other) && Print(other) == Print(src)
    ensures ParseAs(SchemeOfSource(src).value, Body(src)) == Some(other)
    ensures SchemeOfSource(other) == SchemeOfSource(src) ==> Body(other) == Body(src)
  {
    PrintReadsBack(other);
    SchemeReadsBack(SchemeOfSource(src).value, Body(src));
    if SchemeOfSource(other) == SchemeOfSource(src) {
      var prefix := Prefix(SchemeOfSource(src).value);
      assert Body(src) == Print(src)[|prefix|..] && Body(other) == Print(other)[|prefix|..];
    }
  }

  lemma AzureAppConfigRead(rest: string, head: string, before: string, query: string, names: seq<string>)
    requires |names| == 1 && SplitOnce(rest, '?') == Some((head + ['/'] + before, query))
    requires SplitOnce(head + ['/'] + before, '/') == Some((head, before)) && AzureAppConfigOf(rest, names).Some?
    ensures var values := Fill(Split(query, '&'), names, Unset(|names|));
            values.Some? && before != ""
              && AzureAppConfigOf(rest, names).value == AzureAppConfig(head, before, values.value[0])
  {
  }

  lemma FirestoreRead(rest: string, head: string, before: string, query: string, names: seq<string>)
    requires |names| == 2 && SplitOnce(rest, '?') == Some((head + ['/'] + before, query))
    requires SplitOnce(head + ['/'] + before, '/') == Some((head, before)) && FirestoreOf(rest, names).Some?
    ensures var values := Fill(Split(query, '&'), names, Unset(|names|));
            && values.Some? && before != "" && |Split(before, '/')| % 2 == 0 && NoneEmpty(Split(before, '/'))
            && FirestoreOf(rest, names).value == Firestore(head, before, values.value[0], values.value[1])
  {
  }

  /** What is read is written again as it stood, so the key was disguised. */
  lemma StoreUnmasked(src: Source, other: Source, names: seq<string>)
    requires src.AzureAppConfig? && '/' !in src.store && Clean(src.store) && !Clean(src.key) && names == LABEL
    requires AzureAppConfigOf(Body(src), names) == Some(other) && Body(other) == Body(src)
    ensures Disguised(src)
  {
    BodySplits(src);
    var (before, after) := SplitOnce(src.key, '?').value;
    var query := after + OwnQuery(src);
    AzureAppConfigRead(Body(src), src.store, before, query, names);
    var values := Fill(Split(query, '&'), names, Unset(|names|)).value;
    BodyOfKey(src, before, values);
    SameTail(src.store + ['/'] + before, WriteQuery(names, values, '?'), ['?'] + query);
  }

  lemma DocumentUnmasked(src: Source, other: Source, names: seq<string>)
    requires src.Firestore? && '/' !in src.project && Clean(src.project) && !Clean(src.document)
    requires names == DATABASE_FIELD && FirestoreOf(Body(src), names) == Some(other) && Body(other) == Body(src)
    ensures Disguised(src)
  {
    BodySplits(src);
    var (before, after) := SplitOnce(src.document, '?').value;
    var query := after + OwnQuery(src);
    FirestoreRead(Body(src), src.project, before, query, names);
    var values := Fill(Split(query, '&'), names, Unset(|names|)).value;
    BodyOfKey(src, before, values);
    SameTail(src.project + ['/'] + before, WriteQuery(names, values, '?'), ['?'] + query);
  }

  lemma Unmasked(src: Source, other: Source)
    requires TakesQuery(src) && Part(Head(src)) && Clean(Head(src)) && !Clean(KeyOf(src))
    requires Nameable(other) && Print(other) == Print(src)
    ensures Disguised(src)
  {
    ReadAsOther(src, other);
    if src.AzureAppConfig? {
      ParsesAsStore(Body(src));
      StoreUnmasked(src, other, LABEL);
    } else {
      ParsesAsDocument(Body(src));
      DocumentUnmasked(src, other, DATABASE_FIELD);
    }
  }

  lemma SameTail(path: string, a: string, b: string)
    requires path + a == path + b
    ensures a == b
  {
    assert (path + a)[|path|..] == a && (path + b)[|path|..] == b;
  }

  lemma NoKeyInBucket(bucket: string)
    requires Part(bucket)
    ensures SplitBucket(bucket + ['/'] + "").None?
  {
    SplitJoined(bucket, '/', "");
  }

  lemma NoKeyInStore(store: string, tag: Option<string>, names: seq<string>)
    requires Part(store) && Clean(store) && ValueOk(tag) && |names| == 1 && NamesOk(names)
    ensures AzureAppConfigOf(store + ['/'] + "" + WriteQuery(names, [tag], '?'), names).None?
  {
    QueryRoundTrip(store + ['/'] + "", names, [tag]);
    NoKeyInBucket(store);
  }

  /** A source with no key reads as nothing. */
  lemma NoKeyUnread(src: Source)
    requires src.S3? || src.Gcs? || src.Azure? || src.AzureAppConfig?
    requires KeyOf(src) == ""
    requires src.AzureAppConfig? ==> Part(src.store) && Clean(src.store) && ValueOk(src.tag)
    requires !src.AzureAppConfig? ==> Part(src.bucket)
    ensures ParseAs(SchemeOfSource(src).value, Body(src)).None?
  {
    if src.AzureAppConfig? {
      LabelOk();
      BodyOfOwn(src);
      ParsesAsStore(Body(src));
      NoKeyInStore(src.store, src.tag, LABEL);
    } else {
      NoKeyInBucket(src.bucket);
      assert Body(src) == src.bucket + ['/'] + "";
    }
  }

  /** Only a path can come out empty. */
  lemma NoKeyMeansPath(src: Source)
    requires Kept(src) && !src.File? && !src.Http? && KeyOf(src) == ""
    ensures src.S3? || src.Gcs? || src.Azure? || src.AzureAppConfig?
  {
    if src.Firestore? {
      NoneEmptyKey(src.document);
    }
  }

  lemma ClashIsDisguised(src: Source, other: Source)
    requires Kept(src) && !src.File? && !src.Http? && Nameable(other) && other != src && Print(other) == Print(src)
    requires Nameable(src) <==> KeyOf(src) != "" && (TakesQuery(src) ==> Clean(KeyOf(src)))
    ensures Disguised(src)
  {
    if Nameable(src) {
      PrintIsInjective(src, other);
    } else if KeyOf(src) == "" {
      NoKeyMeansPath(src);
      NoKeyUnread(src);
      ReadAsOther(src, other);
    } else {
      Unmasked(src, other);
    }
  }

  /** A joined entry prints like some source that text names exactly when its key
      disguises it: the part from the first `?` on is just as the form writes its query. */
  lemma JoinClashesIffDisguised(src: Source, reference: string)
    requires Kept(src) && !src.File? && !src.Http? && JoinRelative(src, reference).Some?
    ensures var joined := JoinRelative(src, reference).value;
            (exists other :: Nameable(other) && other != joined && Print(other) == Print(joined)) <==> Disguised(joined)
  {
    var joined := JoinRelative(src, reference).value;
    JoinStaysNameable(src, reference);
    if Disguised(joined) {
      var other := Impersonated(joined);
    }
    forall other | Nameable(other) && other != joined && Print(other) == Print(joined) ensures Disguised(joined) {
      ClashIsDisguised(joined, other);
    }
  }

  /* ----- which two sources of a walk print alike ----- */

  /** Two sources of one form and store whose keys differ but read on alike, the
      parameters included. */
  predicate Confused(a: Source, b: Source) {
    && TakesQuery(a) && TakesQuery(b) && SchemeOfSource(a) == SchemeOfSource(b) && Head(a) == Head(b)
    && KeyOf(a) != KeyOf(b) && KeyOf(a) + OwnQuery(a) == KeyOf(b) + OwnQuery(b)
  }

  /** The print begins with its form's scheme, and a file's with none. */
  lemma PrintTellsScheme(src: Source)
    requires Kept(src)
    ensures SchemeOf(Print(src), SCHEMES) == SchemeOfSource(src)
  {
    if !src.File? {
      var s := SchemeOfSource(src).value;
      assert s in SCHEMES;
      if src.Http? {
        PrefixAndRest(s, src.url);
        SchemeFound(s, src.url[|Prefix(s)|..], SCHEMES);
      } else {
        SchemeFound(s, Body(src), SCHEMES);
      }
    }
  }

  lemma SamePrintSameScheme(a: Source, b: Source)
    requires Kept(a) && Kept(b) && Print(a) == Print(b)
    ensures SchemeOfSource(a) == SchemeOfSource(b)
  {
    PrintTellsScheme(a);
    PrintTellsScheme(b);
  }

  lemma SamePrintSameBody(a: Source, b: Source)
    requires !a.File? && !a.Http? && !b.File? && !b.Http?
    requires SchemeOfSource(a) == SchemeOfSource(b) && Print(a) == Print(b)
    ensures Body(a) == Body(b)
  {
    SameTail(Prefix(SchemeOfSource(a).value), Body(a), Body(b));
  }

  /** The parameters can be told from what they print. */
  lemma OwnQueryIsInjective(a: Source, b: Source)
    requires Kept(a) && Kept(b) && TakesQuery(a) && SchemeOfSource(a) == SchemeOfSource(b)
    requires Head(a) == Head(b) && KeyOf(a) == KeyOf(b) && OwnQuery(a) == OwnQuery(b)
    ensures a == b
  {
    if a.AzureAppConfig? {
      LabelOk();
      QueryRoundTrip("", LABEL, [a.tag]);
      QueryRoundTrip("", LABEL, [b.tag]);
      assert [a.tag][0] == [b.tag][0];
    } else {
      DatabaseFieldOk();
      QueryRoundTrip("", DATABASE_FIELD, [a.databaseId, a.field]);
      QueryRoundTrip("", DATABASE_FIELD, [b.databaseId, b.field]);
      assert [a.databaseId, a.field] == [b.databaseId, b.field];
      assert [a.databaseId, a.field][0] == [b.databaseId, b.field][0];
      assert [a.databaseId, a.field][1] == [b.databaseId, b.field][1];
    }
  }

  lemma SameHeadSameRest(h1: string, k1: string, q1: string, h2: string, k2: string, q2: string)
    requires '/' !in h1 && '/' !in h2
    ensures h1 + ['/'] + k1 + q1 == h2 + ['/'] + k2 + q2 <==> h1 == h2 && k1 + q1 == k2 + q2
  {
    assert h1 + ['/'] + k1 + q1 == h1 + ['/'] + (k1 + q1) && h2 + ['/'] + k2 + q2 == h2 + ['/'] + (k2 + q2);
    SplitJoined(h1, '/', k1 + q1);
    SplitJoined(h2, '/', k2 + q2);
  }

  lemma SameBodyIff(a: Source, b: Source)
    requires Kept(a) && Kept(b) && TakesQuery(a) && TakesQuery(b)
    ensures Body(a) == Body(b) <==> Head(a) == Head(b) && KeyOf(a) + OwnQuery(a) == KeyOf(b) + OwnQuery(b)
  {
    BodyOfOwn(a);
    BodyOfOwn(b);
    SameHeadSameRest(Head(a), KeyOf(a), OwnQuery(a), Head(b), KeyOf(b), OwnQuery(b));
  }

  /** The other forms print what they are, however free their keys. */
  lemma OthersPrintThemselves(a: Source, b: Source)
    requires Kept(a) && Kept(b) && !TakesQuery(a) && Print(a) == Print(b)
    ensures a == b
  {
    SamePrintSameScheme(a, b);
    if a.S3? || a.Gcs? || a.Azure? {
      SamePrintSameBody(a, b);
      SplitJoined(a.bucket, '/', KeyOf(a));
      SplitJoined(b.bucket, '/', KeyOf(b));
    } else {
      PrintIsInjective(a, b);
    }
  }

  lemma TakenIsConfused(a: Source, b: Source)
    requires Kept(a) && Kept(b) && TakesQuery(a) && a != b && Print(a) == Print(b)
    ensures Confused(a, b)
  {
    SamePrintSameScheme(a, b);
    SamePrintSameBody(a, b);
    SameBodyIff(a, b);
    if KeyOf(a) == KeyOf(b) {
      SameTail(KeyOf(a), OwnQuery(a), OwnQuery(b));
      OwnQueryIsInjective(a, b);
    }
  }

  /** Of all that a walk may hold, joined entries on both sides included, two sources
      are taken for one exactly when they are confused: one form and store, different
      keys, and the same text from the key on. */
  lemma TakenForOneIffConfused(a: Source, b: Source)
    requires Kept(a) && Kept(b)
    ensures a != b && Print(a) == Print(b) <==> Confused(a, b)
  {
    if a != b && Print(a) == Print(b) {
      if TakesQuery(a) {
        TakenIsConfused(a, b);
      } else {
        OthersPrintThemselves(a, b);
      }
    }
    if Confused(a, b) {
      SameBodyIff(a, b);
    }
  }

  /** A pair whose name holds a `?` is no parameter. */
  lemma UnknownName(name: string, value: string, names: seq<string>)
    requires '=' !in name && '&' !in name && '&' !in value && !Clean(name)
    requires forall i | 0 <= i < |names| :: Clean(names[i])
    ensures !IsWritten(name + ['='] + value, names)
  {
    var pair := name + ['='] + value;
    SplitOfOne(pair, '&');
    assert [pair][1..] == [];
    SplitJoined(name, '=', value);
    assert Position(names, name) == |names|;
  }

  lemma LabelText(tag: string)
    ensures WriteQuery(LABEL, [Some(tag)], '?') == ['?'] + ("label" + ['='] + tag)
    ensures Clean(LABEL[0]) && '=' !in "label" && '&' !in "label"
  {
    assert LABEL[1..] == [] && [Some(tag)][1..] == [];
    var name := "label";
    assert forall i | 0 <= i < |name| :: name[i] != '?' && name[i] != '=' && name[i] != '&';
    assert WriteQuery(LABEL, [Some(tag)], '?') == ['?'] + (name + ['='] + tag) + "";
  }

  lemma SplitMore(text: string, more: string)
    requires !Clean(text)
    ensures SplitOnce(text, '?').Some?
    ensures var (before, after) := SplitOnce(text, '?').value;
            && SplitOnce(text + more, '?') == Some((before, after + more))
            && forall c | c !in text :: c !in after
  {
    SplitParts(text, '?');
    var (before, after) := SplitOnce(text, '?').value;
    SplitJoined(before, '?', after + more);
    assert text + more == before + ['?'] + (after + more);
  }

  lemma NotDisguisedIf(store: string, key: string, tag: Option<string>, query: string)
    requires SplitOnce(key, '?').Some? && SplitOnce(key, '?').value.1 + WriteQuery(LABEL, [tag], '?') == query
    requires !IsWritten(query, LABEL)
    ensures !Disguised(AzureAppConfig(store, key, tag))
  {
  }

  /** An entry that holds `?` but no `=` is not disguised, whatever label comes after it
      and whether that is the base's or the entry's own. */
  lemma NotDisguised(store: string, entry: string, tag: string)
    requires '=' !in entry && '&' !in entry && !Clean(entry) && '&' !in tag
    ensures !Disguised(AzureAppConfig(store, entry, Some(tag)))
    ensures !Disguised(AzureAppConfig(store, entry + WriteQuery(LABEL, [Some(tag)], '?'), None))
  {
    var written := WriteQuery(LABEL, [Some(tag)], '?');
    SplitMore(entry, written);
    var after := SplitOnce(entry, '?').value.1;
    LabelText(tag);
    NotWritten(after, tag, written);
    NotDisguisedIf(store, entry, Some(tag), after + written);
    assert WriteQuery(LABEL, [None], '?') == "" && after + written + "" == after + written;
    NotDisguisedIf(store, entry + written, None, after + written);
  }

  lemma NotWritten(after: string, tag: string, written: string)
    requires '=' !in after && '&' !in after && '&' !in tag
    requires written == ['?'] + ("label" + ['='] + tag) && Clean(LABEL[0]) && '=' !in "label" && '&' !in "label"
    ensures !IsWritten(after + written, LABEL)
  {
    var name := after + (['?'] + "label");
    assert name[|after|] == '?';
    assert after + written == name + ['='] + tag;
    UnknownName(name, tag, LABEL);
  }

  /** Two joined entries that are: a label comes from the base on the one hand, and from
      the entry on the other. Neither prints like a source that text names. */
  lemma JoinedEntriesClash(store: string, key: string, entry: string, tag: string)
    requires Part(store) && Clean(store) && Part(key) && Clean(key)
    requires '/' !in entry && '=' !in entry && '&' !in entry && !Clean(entry) && |entry| > 2
    requires tag != "" && '&' !in tag && '/' !in tag
    ensures var labelled, bare := AzureAppConfig(store, key, Some(tag)), AzureAppConfig(store, key, None);
            var longer := entry + WriteQuery(LABEL, [Some(tag)], '?');
            && Nameable(labelled) && Nameable(bare)
            && JoinRelative(labelled, entry) == Some(AzureAppConfig(store, entry, Some(tag)))
            && JoinRelative(bare, longer) == Some(AzureAppConfig(store, longer, None))
            && Confused(AzureAppConfig(store, entry, Some(tag)), AzureAppConfig(store, longer, None))
            && !Disguised(AzureAppConfig(store, entry, Some(tag))) && !Disguised(AzureAppConfig(store, longer, None))
  {
    LabelWritten(tag);
    NameJoins(key, entry);
    NameJoins(key, entry + WriteQuery(LABEL, [Some(tag)], '?'));
    assert WriteQuery(LABEL, [None], '?') == "";
    NotDisguised(store, entry, tag);
  }

  /** With `?` it is not: this entry joins to a source that prints like a
      different one, so the walk would take the two files for one. */
  lemma QueryInReferenceClashes(store: string, key: string, name: string, tag: string)
    requires Part(store) && Clean(store) && Part(key) && Clean(key)
    requires Part(name) && Clean(name) && tag != "" && '&' !in tag && '/' !in tag
    ensures var src := AzureAppConfig(store, key, None);
            var reference := name + WriteQuery(LABEL, [Some(tag)], '?');
            var other := AzureAppConfig(store, name, Some(tag));
            && Nameable(src) && Nameable(other)
            && JoinRelative(src, reference).Some?
            && JoinRelative(src, reference).value != other
            && Print(JoinRelative(src, reference).value) == Print(other)
  {
    var written := WriteQuery(LABEL, [Some(tag)], '?');
    LabelWritten(tag);
    var reference := name + written;
    NameJoins(key, reference);
    assert reference[|name|] == '?';
    assert WriteQuery(LABEL, [None], '?') == "";
    assert store + ['/'] + reference + "" == store + ['/'] + name + written;
  }

  lemma LabelWritten(tag: string)
    requires '/' !in tag
    ensures var written := WriteQuery(LABEL, [Some(tag)], '?');
            |written| >= 7 && written[0] == '?' && '/' !in written
  {
    assert LABEL[1..] == [] && [Some(tag)][1..] == [];
    var name := "label";
    assert forall i | 0 <= i < |name| :: name[i] != '/';
    assert WriteQuery(LABEL, [Some(tag)], '?') == ['?'] + (name + ['='] + tag) + "";
  }

  /** A reference of one segment names a file beside one of one segment. */
  lemma NameJoins(key: string, reference: string)
    requires '/' !in key && '/' !in reference && |reference| > 2
    ensures KeyJoined(key, reference) == Some(reference)
  {
    SplitOfOne(key, '/');
    SplitOfOne(reference, '/');
    assert [key][..0] == [] && [reference][1..] == [];
    assert [] + [reference] == [reference];
    assert Resolve([], [reference]) == Resolve([reference], []) == Some([reference]);
  }
}
