/** The texts that name a config source, written out, and what a relative entry comes to
    (crates/core/src/source.rs). */
module SourceForms {
  import opened Basics
  import opened Text
  import opened Sources

  const UNSET: Option<string> := None

  /* ----- texts ----- */

  lemma Spelled(prefix: string, a: string, b: string, query: string)
    ensures prefix + a + "/" + b + query == prefix + (a + ['/'] + b + query)
    ensures prefix + a + "/" + b == prefix + (a + ['/'] + b) == prefix + (a + ['/'] + b + "")
  {
  }

  /** How the three object stores are written: a bucket, and all that follows it. */
  lemma ObjectTexts(bucket: string, key: string)
    ensures Print(S3(bucket, key)) == "s3://" + bucket + "/" + key
    ensures Print(Gcs(bucket, key)) == "gs://" + bucket + "/" + key
    ensures Print(Azure(bucket, key)) == "az://" + bucket + "/" + key
  {
    Spelled("s3://", bucket, key, "");
    Spelled("gs://", bucket, key, "");
    Spelled("az://", bucket, key, "");
  }

  lemma SpelledThree(prefix: string, a: string, b: string, c: string)
    ensures JoinBy([a, b, c], '/') == a + ['/'] + (b + ['/'] + c)
    ensures prefix + a + "/" + b + "/" + c == prefix + (a + ['/'] + (b + ['/'] + c))
  {
    assert [a, b, c][1..] == [b, c] && [b, c][1..] == [c];
    assert JoinBy([c], '/') == c && JoinBy([b, c], '/') == b + ['/'] + JoinBy([c], '/');
  }

  lemma AppConfigText(a: string, e: string, p: string)
    ensures Print(AppConfig(a, e, p)) == "appconfig://" + a + "/" + e + "/" + p
  {
    SpelledThree("appconfig://", a, e, p);
  }

  lemma LastParameter(name: string, value: string, sep: char)
    ensures WriteQuery([name], [Some(value)], sep) == [sep] + (name + ['='] + value)
    ensures WriteQuery([name], [UNSET], sep) == ""
  {
    assert [name][1..] == [] && [Some(value)][1..] == [] && [UNSET][1..] == [];
    assert [sep] + (name + ['='] + value) + "" == [sep] + (name + ['='] + value);
  }

  lemma SpelledParameters(first: string, a: string, second: string, b: string)
    ensures ['?'] + (first + ['='] + a) == "?" + first + "=" + a
    ensures ['?'] + (first + ['='] + a) + (['&'] + (second + ['='] + b))
         == "?" + first + "=" + a + "&" + second + "=" + b
  {
  }

  lemma TwoParameters(first: string, a: string, second: string, b: string)
    ensures WriteQuery([first, second], [Some(a), Some(b)], '?') == "?" + first + "=" + a + "&" + second + "=" + b
    ensures WriteQuery([first, second], [UNSET, Some(b)], '?') == "?" + second + "=" + b
    ensures WriteQuery([first, second], [Some(a), UNSET], '?') == "?" + first + "=" + a
    ensures WriteQuery([first, second], [UNSET, UNSET], '?') == ""
  {
    assert [first, second][1..] == [second];
    assert [Some(a), Some(b)][1..] == [Some(b)] && [UNSET, Some(b)][1..] == [Some(b)];
    assert [Some(a), UNSET][1..] == [UNSET] && [UNSET, UNSET][1..] == [UNSET];
    LastParameter(second, b, '&');
    LastParameter(second, b, '?');
    SpelledParameters(first, a, second, b);
    SpelledParameters(second, b, "", "");
    assert ['?'] + (first + ['='] + a) + "" == ['?'] + (first + ['='] + a);
  }

  lemma AzureAppConfigTexts(store: string, key: string, tag: string)
    ensures Print(AzureAppConfig(store, key, None)) == "azappconfig://" + store + "/" + key
    ensures Print(AzureAppConfig(store, key, Some(tag)))
         == "azappconfig://" + store + "/" + key + ("?" + "label" + "=" + tag)
  {
    LastParameter("label", tag, '?');
    SpelledParameters("label", tag, "", "");
    Spelled("azappconfig://", store, key, "?" + "label" + "=" + tag);
  }

  lemma DynamoDbTexts(table: string, id: string, k: string, v: string)
    ensures Print(DynamoDb(table, id, None, None)) == "dynamodb://" + table + "/" + id
    ensures Print(DynamoDb(table, id, Some(k), None)) == "dynamodb://" + table + "/" + id + ("?" + "key" + "=" + k)
    ensures Print(DynamoDb(table, id, None, Some(v))) == "dynamodb://" + table + "/" + id + ("?" + "value" + "=" + v)
    ensures Print(DynamoDb(table, id, Some(k), Some(v)))
         == "dynamodb://" + table + "/" + id + ("?" + "key" + "=" + k + "&" + "value" + "=" + v)
  {
    TwoParameters("key", k, "value", v);
    Spelled("dynamodb://", table, id, "?" + "key" + "=" + k);
    Spelled("dynamodb://", table, id, "?" + "value" + "=" + v);
    Spelled("dynamodb://", table, id, "?" + "key" + "=" + k + "&" + "value" + "=" + v);
  }

  lemma FirestoreTexts(project: string, document: string, d: string, f: string)
    ensures Print(Firestore(project, document, None, None)) == "firestore://" + project + "/" + document
    ensures Print(Firestore(project, document, Some(d), None))
         == "firestore://" + project + "/" + document + ("?" + "database" + "=" + d)
    ensures Print(Firestore(project, document, None, Some(f)))
         == "firestore://" + project + "/" + document + ("?" + "field" + "=" + f)
    ensures Print(Firestore(project, document, Some(d), Some(f)))
         == "firestore://" + project + "/" + document + ("?" + "database" + "=" + d + "&" + "field" + "=" + f)
  {
    TwoParameters("database", d, "field", f);
    Spelled("firestore://", project, document, "?" + "database" + "=" + d);
    Spelled("firestore://", project, document, "?" + "field" + "=" + f);
    Spelled("firestore://", project, document, "?" + "database" + "=" + d + "&" + "field" + "=" + f);
  }

  lemma SpelledFour(prefix: string, a: string, b: string, c: string, d: string, query: string)
    ensures JoinBy([a, b, c, d], '/') == a + ['/'] + (b + ['/'] + (c + ['/'] + d))
    ensures prefix + a + "/" + b + "/" + c + "/" + d + query
         == prefix + (a + ['/'] + (b + ['/'] + (c + ['/'] + d)) + query)
    ensures prefix + a + "/" + b + "/" + c + "/" + d + "" == prefix + a + "/" + b + "/" + c + "/" + d
  {
    assert [a, b, c, d][1..] == [b, c, d];
    SpelledThree("", b, c, d);
  }

  lemma CosmosTexts(a: string, d: string, c: string, id: string, pk: string, f: string)
    ensures Print(Cosmos(a, d, c, id, None, None)) == "cosmos://" + a + "/" + d + "/" + c + "/" + id
    ensures Print(Cosmos(a, d, c, id, Some(pk), None))
         == "cosmos://" + a + "/" + d + "/" + c + "/" + id + ("?" + "pk" + "=" + pk)
    ensures Print(Cosmos(a, d, c, id, None, Some(f)))
         == "cosmos://" + a + "/" + d + "/" + c + "/" + id + ("?" + "field" + "=" + f)
    ensures Print(Cosmos(a, d, c, id, Some(pk), Some(f)))
         == "cosmos://" + a + "/" + d + "/" + c + "/" + id + ("?" + "pk" + "=" + pk + "&" + "field" + "=" + f)
  {
    TwoParameters("pk", pk, "field", f);
    SpelledFour("cosmos://", a, d, c, id, "");
    SpelledFour("cosmos://", a, d, c, id, "?" + "pk" + "=" + pk);
    SpelledFour("cosmos://", a, d, c, id, "?" + "field" + "=" + f);
    SpelledFour("cosmos://", a, d, c, id, "?" + "pk" + "=" + pk + "&" + "field" + "=" + f);
  }

  lemma PrintedReads(src: Source, text: string)
    requires Nameable(src) && Print(src) == text
    ensures ParseTrimmed(text) == Some(src)
  {
    PrintReadsBack(src);
  }

  /** A parameter's value: not empty, and without the character that ends it. */
  predicate IsValue(value: string) {
    value != "" && '&' !in value
  }

  /** An object: a bucket, and all that follows it. */
  lemma ObjectReads(text: string, src: Source, bucket: string, key: string)
    requires Given(bucket) && key != ""
    requires || (text == "s3://" + bucket + "/" + key && src == S3(bucket, key))
             || (text == "gs://" + bucket + "/" + key && src == Gcs(bucket, key))
             || (text == "az://" + bucket + "/" + key && src == Azure(bucket, key))
    ensures ParseTrimmed(text) == Some(src)
  {
    ObjectTexts(bucket, key);
    PrintedReads(src, text);
  }

  /** A profile: application, environment and profile. */
  lemma ProfileReads(text: string, a: string, e: string, p: string)
    requires Given(a) && Given(e) && Given(p) && text == "appconfig://" + a + "/" + e + "/" + p
    ensures ParseTrimmed(text) == Some(AppConfig(a, e, p))
  {
    AppConfigText(a, e, p);
    PrintedReads(AppConfig(a, e, p), text);
  }

  /** A setting, with or without a label. */
  lemma SettingReads(text: string, store: string, key: string, tag: string, query: string)
    requires Given(store) && key != "" && '?' !in store && '?' !in key && IsValue(tag)
    requires text == "azappconfig://" + store + "/" + key + query
    requires query == "" || query == "?" + "label" + "=" + tag
    ensures ParseTrimmed(text) == Some(AzureAppConfig(store, key, if query == "" then None else Some(tag)))
  {
    AzureAppConfigTexts(store, key, tag);
    assert query == "" ==> text == "azappconfig://" + store + "/" + key;
    PrintedReads(AzureAppConfig(store, key, if query == "" then None else Some(tag)), text);
  }

  /** An item of a table, with any of its two parameters. */
  lemma ItemReads(text: string, table: string, id: string, k: Option<string>, v: Option<string>, query: string)
    requires Given(table) && Given(id) && '?' !in table && '?' !in id
    requires (k.Some? ==> IsValue(k.value)) && (v.Some? ==> IsValue(v.value))
    requires text == "dynamodb://" + table + "/" + id + query && IsQuery(query, "key", k, "value", v)
    ensures ParseTrimmed(text) == Some(DynamoDb(table, id, k, v))
  {
    DynamoDbTexts(table, id, OrEmpty(k), OrEmpty(v));
    assert query == "" ==> text == "dynamodb://" + table + "/" + id;
    PrintedReads(DynamoDb(table, id, k, v), text);
  }

  function OrEmpty(value: Option<string>): string {
    if value.Some? then value.value else ""
  }

  /** The query text for two parameters, each given or not. */
  predicate IsQuery(query: string, first: string, a: Option<string>, second: string, b: Option<string>) {
    if a.Some? && b.Some? then query == "?" + first + "=" + a.value + "&" + second + "=" + b.value
    else if a.Some? then query == "?" + first + "=" + a.value
    else if b.Some? then query == "?" + second + "=" + b.value
    else query == ""
  }

  /** A document: its path has an even number of parts, collection and document in turn. */
  lemma DocumentReads(text: string, project: string, document: string, d: Option<string>, f: Option<string>,
      query: string)
    requires Given(project) && '?' !in project && '?' !in document
    requires NoneEmpty(Split(document, '/')) && |Split(document, '/')| % 2 == 0
    requires (d.Some? ==> IsValue(d.value)) && (f.Some? ==> IsValue(f.value))
    requires text == "firestore://" + project + "/" + document + query && IsQuery(query, "database", d, "field", f)
    ensures ParseTrimmed(text) == Some(Firestore(project, document, d, f))
  {
    FirestoreTexts(project, document, OrEmpty(d), OrEmpty(f));
    assert query == "" ==> text == "firestore://" + project + "/" + document;
    PrintedReads(Firestore(project, document, d, f), text);
  }

  /** An item of a container: account, database, container and item. */
  lemma ContainerItemReads(text: string, a: string, d: string, c: string, id: string, pk: Option<string>,
      f: Option<string>, query: string)
    requires Given(a) && Given(d) && Given(c) && Given(id)
    requires '?' !in a && '?' !in d && '?' !in c && '?' !in id
    requires (pk.Some? ==> IsValue(pk.value)) && (f.Some? ==> IsValue(f.value))
    requires text == "cosmos://" + a + "/" + d + "/" + c + "/" + id + query && IsQuery(query, "pk", pk, "field", f)
    ensures ParseTrimmed(text) == Some(Cosmos(a, d, c, id, pk, f))
  {
    CosmosTexts(a, d, c, id, OrEmpty(pk), OrEmpty(f));
    assert query == "" ==> text == "cosmos://" + a + "/" + d + "/" + c + "/" + id;
    PrintedReads(Cosmos(a, d, c, id, pk, f), text);
  }

  predicate HasScheme(text: string) {
    || "s3://" <= text || "gs://" <= text || "az://" <= text || "appconfig://" <= text || "azappconfig://" <= text
    || "dynamodb://" <= text || "firestore://" <= text || "cosmos://" <= text
    || "https://" <= text || "http://" <= text
  }

  lemma NotPrefixed(text: string, s: Scheme)
    requires !HasScheme(text)
    ensures !(Prefix(s) <= text)
  {
  }

  lemma NoSchemeFound(text: string, schemes: seq<Scheme>)
    requires forall s :: !(Prefix(s) <= text)
    ensures SchemeOf(text, schemes) == None
  {
  }

  /** Any other text names a local file, unless it looks like a scheme. */
  lemma OtherTexts(text: string)
    requires !HasScheme(text)
    ensures ParseTrimmed(text) == if Contains(text, "://") then None else Some(File(text))
  {
    forall s ensures !(Prefix(s) <= text) {
      NotPrefixed(text, s);
    }
    NoSchemeFound(text, SCHEMES);
  }

  /** What stands before the first `c` is the first part. */
  lemma HeadIs(head: string, tail: string, c: char)
    requires c !in head && (tail == "" || tail[0] == c)
    ensures Split(head + tail, c)[0] == head
  {
    if tail == "" {
      assert head + tail == head;
      assert JoinBy([head], c) == head;
      JoinSplits([head], c);
    } else {
      var rest := tail[1..];
      SplitJoins(rest, c);
      var parts := [head] + Split(rest, c);
      assert parts[1..] == Split(rest, c);
      assert JoinBy(parts, c) == head + [c] + rest == head + tail;
      forall i | 0 <= i < |parts| ensures c !in parts[i] {
        assert i > 0 ==> parts[i] in Split(rest, c);
      }
      JoinSplits(parts, c);
    }
  }

  lemma LoopbackOf(rest: string, authority: string, host: string)
    requires Split(rest, '/')[0] == authority && Split(authority, ':')[0] == host
    requires authority == "" || authority[0] != '['
    ensures Loopback(rest) <==> host == "localhost" || host == "127.0.0.1" || host == "[::1]"
  {
  }

  lemma ReadsAs(text: string, s: Scheme, rest: string, src: Option<Source>)
    requires text == Prefix(s) + rest && src == ParseAs(s, rest)
    ensures ParseTrimmed(text) == src
  {
    SchemeReadsBack(s, rest);
  }

  lemma PlainHttpReads(text: string, rest: string)
    requires text == Prefix(ToHttp) + rest
    ensures ParseTrimmed(text) == if Loopback(rest) then Some(Http(text)) else None
  {
    ReadsAs(text, ToHttp, rest, if Loopback(rest) then Some(Http(text)) else None);
  }

  /** Text after `http://` is read only when its host, up to a port or a path, is the local one. */
  lemma PlainHttpIsLocal(host: string, port: string, path: string)
    requires '/' !in host && ':' !in host && '/' !in port && (host == "" || host[0] != '[')
    requires (port == "" || port[0] == ':') && (path == "" || path[0] == '/')
    ensures var text := "http://" + (host + port + path);
            ParseTrimmed(text) == if host == "localhost" || host == "127.0.0.1" then Some(Http(text)) else None
  {
    HeadIs(host + port, path, '/');
    HeadIs(host, port, ':');
    LoopbackOf(host + port + path, host + port, host);
    PlainHttpReads("http://" + (host + port + path), host + port + path);
  }

  lemma BracketEnds(inner: string, port: string)
    requires ']' !in inner
    ensures IndexOf("[" + inner + "]" + port, "]") == |inner| + 1
  {
    IndexOfJoined("[" + inner, ']', port);
    assert "[" + inner + [']'] + port == "[" + inner + "]" + port;
  }

  lemma LoopbackInBrackets(rest: string, authority: string, inner: string, port: string)
    requires Split(rest, '/')[0] == authority == "[" + inner + "]" + port && ']' !in inner
    ensures Loopback(rest) <==> inner == "::1"
  {
    BracketEnds(inner, port);
    var host := authority[..|inner| + 2];
    assert host == "[" + inner + "]" && host[1..|host| - 1] == inner;
    assert |host| >= 2 && "[::1]"[1..4] == "::1";
  }

  /** In brackets, only this one is. */
  lemma BracketedHttpIsLocal(inner: string, port: string, path: string)
    requires ']' !in inner && '/' !in inner && '/' !in port && (path == "" || path[0] == '/')
    ensures var text := "http://" + ("[" + inner + "]" + port + path);
            ParseTrimmed(text) == if inner == "::1" then Some(Http(text)) else None
  {
    var authority := "[" + inner + "]" + port;
    HeadIs(authority, path, '/');
    LoopbackInBrackets(authority + path, authority, inner, port);
    PlainHttpReads("http://" + (authority + path), authority + path);
  }

  /* ----- keys ----- */

  predicate Given(part: string) {
    part != "" && '/' !in part
  }

  /** A segment that names something, and is no direction. */
  predicate IsName(segment: string) {
    Given(segment) && segment != "." && segment != ".."
  }

  lemma SplitFirst(a: string, b: string)
    requires '/' !in a
    ensures Split(a + "/" + b, '/') == [a] + Split(b, '/')
  {
    SplitJoins(b, '/');
    var parts := [a] + Split(b, '/');
    assert parts[1..] == Split(b, '/');
    assert JoinBy(parts, '/') == a + ['/'] + b;
    assert a + "/" + b == a + ['/'] + b;
    forall i | 0 <= i < |parts| ensures '/' !in parts[i] {
      assert i > 0 ==> parts[i] in Split(b, '/');
    }
    JoinSplits(parts, '/');
  }

  /** A folder and a file in it: the parts are the folder's, and the file. */
  lemma SplitLast(folder: string, file: string)
    requires '/' !in file
    ensures Split(folder + "/" + file, '/') == Split(folder, '/') + [file]
  {
    SplitJoins(folder, '/');
    var parts := Split(folder, '/') + [file];
    JoinLast(Split(folder, '/'), file);
    forall i | 0 <= i < |parts| ensures '/' !in parts[i] {
      assert i < |parts| - 1 ==> parts[i] in Split(folder, '/');
    }
    JoinSplits(parts, '/');
  }

  lemma {:induction false} JoinLast(parts: seq<string>, file: string)
    requires parts != []
    ensures JoinBy(parts + [file], '/') == JoinBy(parts, '/') + "/" + file
  {
    if |parts| == 1 {
      assert (parts + [file])[1..] == [file];
      assert JoinBy([file], '/') == file;
    } else {
      assert (parts + [file])[1..] == parts[1..] + [file];
      JoinLast(parts[1..], file);
      assert parts[0] + ['/'] + (JoinBy(parts[1..], '/') + "/" + file)
          == parts[0] + ['/'] + JoinBy(parts[1..], '/') + "/" + file;
    }
  }

  /** Where a file is: in no folder, or in this one. */
  lemma FolderIs(folder: string, file: string)
    requires '/' !in file
    ensures Folder(file) == [] && Folder(folder + "/" + file) == Split(folder, '/')
    ensures Split(folder, '/') != [] && JoinBy(Split(folder, '/'), '/') == folder
  {
    SplitOfOne(file, '/');
    SplitLast(folder, file);
    SplitJoins(folder, '/');
  }

  lemma ResolveFirst(parts: seq<string>, segment: string, more: seq<string>)
    ensures Resolve(parts, [segment] + more) ==
            if segment == "" || segment == "." then Resolve(parts, more)
            else if segment == ".." then if parts == [] then None else Resolve(parts[..|parts| - 1], more)
            else Resolve(parts + [segment], more)
  {
    assert ([segment] + more)[1..] == more;
  }

  /** A bare name is a file of the same folder. */
  lemma NameIsSibling(folder: string, file: string, name: string)
    requires '/' !in file && IsName(name)
    ensures KeyJoined(file, name) == Some(name)
    ensures KeyJoined(folder + "/" + file, name) == Some(folder + "/" + name)
  {
    FolderIs(folder, file);
    SplitOfOne(name, '/');
    assert [name] + [] == [name] && [] + [name] == [name];
    ResolveFirst([], name, []);
    ResolveFirst(Split(folder, '/'), name, []);
    JoinLast(Split(folder, '/'), name);
  }

  function Ended(parts: Option<seq<string>>): Option<string> {
    if parts.None? || parts.value == [] then None else Some(JoinBy(parts.value, '/'))
  }

  /** The first segment of a reference is walked first. */
  lemma FirstSegment(key: string, segment: string, reference: string)
    requires '/' !in segment
    ensures KeyJoined(key, segment + "/" + reference)
         == Ended(Resolve(Folder(key), [segment] + Split(reference, '/')))
    ensures KeyJoined(key, reference) == Ended(Resolve(Folder(key), Split(reference, '/')))
  {
    SplitFirst(segment, reference);
  }

  /** A dot, or nothing, before a slash goes nowhere. */
  lemma DotStays(key: string, reference: string)
    ensures KeyJoined(key, "." + "/" + reference) == KeyJoined(key, reference)
    ensures KeyJoined(key, "" + "/" + reference) == KeyJoined(key, reference)
  {
    FirstSegment(key, ".", reference);
    FirstSegment(key, "", reference);
    ResolveFirst(Folder(key), ".", Split(reference, '/'));
    ResolveFirst(Folder(key), "", Split(reference, '/'));
  }

  /** Two dots go to the folder above. */
  lemma DotsGoUp(folder: string, inner: string, file: string, reference: string)
    requires '/' !in file && '/' !in inner
    ensures KeyJoined(folder + "/" + inner + "/" + file, ".." + "/" + reference)
         == KeyJoined(folder + "/" + file, reference)
  {
    var parts := Split(folder, '/');
    FolderIs(folder, file);
    FolderIs(folder + "/" + inner, file);
    SplitLast(folder, inner);
    FirstSegment(folder + "/" + inner + "/" + file, "..", reference);
    FirstSegment(folder + "/" + file, "..", reference);
    assert (parts + [inner])[..|parts + [inner]| - 1] == parts;
    ResolveFirst(parts + [inner], "..", Split(reference, '/'));
  }

  /** At most to the top, and there is none above it. */
  lemma DotsStopAtTop(inner: string, file: string, reference: string)
    requires '/' !in file && '/' !in inner
    ensures KeyJoined(inner + "/" + file, ".." + "/" + reference) == KeyJoined(file, reference)
    ensures KeyJoined(file, ".." + "/" + reference) == None
  {
    FolderIs(inner, file);
    SplitOfOne(inner, '/');
    FirstSegment(inner + "/" + file, "..", reference);
    FirstSegment(file, "..", reference);
    assert [inner][..|[inner]| - 1] == [];
    ResolveFirst([inner], "..", Split(reference, '/'));
    ResolveFirst([], "..", Split(reference, '/'));
  }

  /** A name before a slash goes into that folder. */
  lemma NameGoesDown(folder: string, file: string, name: string, reference: string)
    requires '/' !in file && IsName(name)
    ensures KeyJoined(folder + "/" + file, name + "/" + reference)
         == KeyJoined(folder + "/" + name + "/" + file, reference)
    ensures KeyJoined(file, name + "/" + reference) == KeyJoined(name + "/" + file, reference)
  {
    FolderIs(folder, file);
    FolderIs(folder + "/" + name, file);
    FolderIs(name, file);
    SplitLast(folder, name);
    SplitOfOne(name, '/');
    assert [] + [name] == [name];
    FirstSegment(folder + "/" + file, name, reference);
    FirstSegment(folder + "/" + name + "/" + file, name, reference);
    FirstSegment(file, name, reference);
    FirstSegment(name + "/" + file, name, reference);
    ResolveFirst(Split(folder, '/'), name, Split(reference, '/'));
    ResolveFirst([], name, Split(reference, '/'));
  }

  /** A reference that ends without a name is the folder it has come to, if there is one. */
  lemma EndsAtFolder(folder: string, file: string)
    requires '/' !in file
    ensures KeyJoined(folder + "/" + file, "") == KeyJoined(folder + "/" + file, ".") == Some(folder)
    ensures KeyJoined(file, "") == KeyJoined(file, ".") == None
  {
    FolderIs(folder, file);
    SplitOfOne("", '/');
    SplitOfOne(".", '/');
    ResolveFirst(Split(folder, '/'), "", []);
    ResolveFirst(Split(folder, '/'), ".", []);
    ResolveFirst([], "", []);
    ResolveFirst([], ".", []);
    assert [""] + [] == [""] && ["."] + [] == ["."];
  }

  /** Two dots at the end are the same with a slash after them. */
  lemma EndsInDots(key: string)
    ensures KeyJoined(key, "..") == KeyJoined(key, ".." + "/" + "")
  {
    SplitOfOne("", '/');
    SplitOfOne("..", '/');
    FirstSegment(key, "..", "");
    assert [".."] + [] == [".."] && [""] + [] == [""];
    ResolveFirst(Folder(key), "..", []);
    ResolveFirst(Folder(key), "..", [""]);
    if Folder(key) != [] {
      ResolveFirst(Folder(key)[..|Folder(key)| - 1], "", []);
    }
  }

  /** Another key in the same store. */
  predicate SameStore(a: Source, b: Source) {
    match a
    case S3(bucket, _) => b.S3? && b.bucket == bucket
    case Gcs(bucket, _) => b.Gcs? && b.bucket == bucket
    case Azure(bucket, _) => b.Azure? && b.bucket == bucket
    case AppConfig(app, env, _) => b.AppConfig? && b.application == app && b.environment == env
    case AzureAppConfig(store, _, tag) => b.AzureAppConfig? && b.store == store && b.tag == tag
    case DynamoDb(table, _, k, v) => b.DynamoDb? && b.table == table && b.keyAttribute == k && b.valueAttribute == v
    case Firestore(project, _, d, f) => b.Firestore? && b.project == project && b.databaseId == d && b.field == f
    case Cosmos(account, d, c, _, _, f) =>
      b.Cosmos? && b.account == account && b.database == d && b.container == c && b.pk == None && b.field == f
    case _ => false
  }

  /** A relative entry stays in its store. A sibling item's partition key is its own. */
  lemma EntryStaysInStore(src: Source, reference: string)
    requires !src.File? && !src.Http? && JoinRelative(src, reference).Some?
    ensures SameStore(src, JoinRelative(src, reference).value)
    ensures src.AppConfig? || src.DynamoDb? || src.Cosmos? ==> KeyOf(JoinRelative(src, reference).value) == reference
  {
  }
}
