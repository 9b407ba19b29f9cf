/** The data filter on the wire: how the client prints it and how the server reads it back. */
module FilterQuery {
  import opened Sequences
  import opened PercentEncoding
  import opened DataProvider
  import opened ProviderBuilder

  // ---- The client

  datatype Pair = Pair(key: Text, value: Text)

  function PairsOf(key: Text, values: seq<Text>): seq<Pair> {
    seq(|values|, i requires 0 <= i < |values| => Pair(key, Encode(values[i], CLIENT_SET)))
  }

  function SchemaQuery(included: bool): seq<Pair> {
    if included then [Pair("include-schema", "true")] else []
  }

  /** What a list request is set to ask for. */
  datatype Criteria = Criteria(groups: seq<Text>, categories: seq<Text>, tags: seq<Text>, schema: bool)

  function QueryPairs(c: Criteria): seq<Pair> {
    PairsOf("groups", c.groups) + PairsOf("categories", c.categories) + PairsOf("tags", c.tags) + SchemaQuery(c.schema)
  }

  function PrintPair(p: Pair): Text {
    p.key + "=" + p.value
  }

  function PrintQuery(query: seq<Pair>): Text
    requires query != []
  {
    if |query| == 1 then PrintPair(query[0]) else PrintPair(query[0]) + "&" + PrintQuery(query[1..])
  }

  function BuildUriQueryString(base: Text, query: seq<Pair>): Text {
    if query == [] then base else base + "?" + PrintQuery(query)
  }

  /** One slash, not two, where the base meets the path. */
  function JoinPath(base: Text, path: Text): Text {
    if path != [] && path[0] == '/' && base != [] && base[|base| - 1] == '/'
    then base[..|base| - 1] + path
    else base + path
  }

  /** A trailing slash on the base makes no difference to a path that starts with one. */
  lemma TrailingSlashIrrelevant(base: Text, rest: Text)
    requires base == [] || base[|base| - 1] != '/'
    ensures JoinPath(base + "/", "/" + rest) == JoinPath(base, "/" + rest)
    ensures JoinPath(base, "/" + rest) == base + "/" + rest
  {
    assert (base + "/")[..|base|] == base;
    assert base + ("/" + rest) == base + "/" + rest;
  }

  function RequestUri(baseUri: Text, path: Text, c: Criteria): Text {
    BuildUriQueryString(JoinPath(baseUri, path), QueryPairs(c))
  }

  method BuildUriWithQuery(baseUri: Text, path: Text, query: seq<Pair>) returns (uri: Text)
    ensures uri == BuildUriQueryString(JoinPath(baseUri, path), query)
  {
    var base := baseUri;
    if path != [] && path[0] == '/' && base != [] && base[|base| - 1] == '/' {
      base := base[..|base| - 1];
    }
    base := base + path;
    uri := BuildUriQueryString(base, query);
  }

  class ListDataRequest {
    const baseUri: Text
    const path: Text
    var schema: bool
    var groups: seq<Text>
    var categories: seq<Text>
    var tags: seq<Text>

    constructor (baseUri: Text, path: Text)
      ensures this.baseUri == baseUri && this.path == path
      ensures !schema && groups == [] && categories == [] && tags == []
    {
      this.baseUri, this.path := baseUri, path;
      schema, groups, categories, tags := false, [], [], [];
    }

    method Schema(included: bool)
      modifies this`schema
      ensures schema == included
    {
      schema := included;
    }

    method Groups(groups: seq<Text>)
      modifies this`groups
      ensures this.groups == groups
    {
      this.groups := groups;
    }

    method Categories(categories: seq<Text>)
      modifies this`categories
      ensures this.categories == categories
    {
      this.categories := categories;
    }

    method Tags(tags: seq<Text>)
      modifies this`tags
      ensures this.tags == tags
    {
      this.tags := tags;
    }

    /** The URI the request goes to. */
    method Send() returns (uri: Text)
      ensures uri == RequestUri(baseUri, path, Criteria(groups, categories, tags, schema))
    {
      var query: seq<Pair> := [];
      for i := 0 to |groups|
        invariant query == PairsOf("groups", groups)[..i]
      {
        query := query + [Pair("groups", Encode(groups[i], CLIENT_SET))];
      }
      for i := 0 to |categories|
        invariant query == PairsOf("groups", groups) + PairsOf("categories", categories)[..i]
      {
        query := query + [Pair("categories", Encode(categories[i], CLIENT_SET))];
      }
      for i := 0 to |tags|
        invariant query
               == PairsOf("groups", groups) + PairsOf("categories", categories) + PairsOf("tags", tags)[..i]
      {
        query := query + [Pair("tags", Encode(tags[i], CLIENT_SET))];
      }
      ghost var filters := PairsOf("groups", groups) + PairsOf("categories", categories) + PairsOf("tags", tags);
      assert query == filters && filters + [] == filters;
      if schema {
        query := query + [Pair("include-schema", "true")];
      }
      uri := BuildUriWithQuery(baseUri, path, query);
    }
  }

  // ---- application/x-www-form-urlencoded parsing, section 5.1 of the URL Standard

  function Split(s: Text, sep: Octet): (parts: seq<Text>)
    ensures parts != []
  {
    if s == [] then [[]]
    else if s[0] == sep then [[]] + Split(s[1..], sep)
    else
      var rest := Split(s[1..], sep);
      [[s[0]] + rest[0]] + rest[1..]
  }

  /** The text before and after the first `sep`; all of it and nothing when there is none. */
  function SplitOnce(s: Text, sep: Octet): (Text, Text) {
    if s == [] then ([], [])
    else if s[0] == sep then ([], s[1..])
    else
      var rest := SplitOnce(s[1..], sep);
      ([s[0]] + rest.0, rest.1)
  }

  function PlusToSpace(s: Text): Text {
    seq(|s|, i requires 0 <= i < |s| => if s[i] == '+' then ' ' else s[i])
  }

  function FormDecode(s: Text): Text {
    Decode(PlusToSpace(s))
  }

  function ParsePair(s: Text): Pair {
    Pair(FormDecode(SplitOnce(s, '=').0), FormDecode(SplitOnce(s, '=').1))
  }

  function ParseParts(parts: seq<Text>): seq<Pair> {
    if parts == [] then []
    else (if parts[0] == [] then [] else [ParsePair(parts[0])]) + ParseParts(parts[1..])
  }

  function ParseForm(s: Text): seq<Pair> {
    ParseParts(Split(s, '&'))
  }

  /** Pairs are `key=value`, joined by ampersands. */
  lemma {:induction false} QueriesJoin(a: seq<Pair>, b: seq<Pair>)
    requires a != [] && b != []
    ensures PrintQuery(a + b) == PrintQuery(a) + "&" + PrintQuery(b)
    ensures forall p :: PrintQuery([p]) == p.key + "=" + p.value
  {
    assert (a + b)[1..] == a[1..] + b;
    if |a| > 1 {
      QueriesJoin(a[1..], b);
    } else {
      assert a[1..] + b == b;
    }
  }

  /** A request that asks for nothing has no query; any other puts it after one question mark. */
  lemma RequestUriIs(baseUri: Text, path: Text, c: Criteria)
    ensures QueryPairs(c) == [] <==> c == Criteria([], [], [], false)
    ensures QueryPairs(c) == [] ==> RequestUri(baseUri, path, c) == JoinPath(baseUri, path)
    ensures QueryPairs(c) != [] ==>
              RequestUri(baseUri, path, c) == JoinPath(baseUri, path) + "?" + PrintQuery(QueryPairs(c))
  {
    assert |QueryPairs(c)| == |c.groups| + |c.categories| + |c.tags| + if c.schema then 1 else 0;
  }

  // ---- The server

  datatype DataQuery = DataQuery(
    groups: Option<seq<Text>>, categories: Option<seq<Text>>, tags: Option<seq<Text>>, includeSchema: bool)

  /** The values of a repeated key, in order. */
  function ValuesOf(pairs: seq<Pair>, key: Text): seq<Text> {
    if pairs == [] then []
    else (if pairs[0].key == key then [pairs[0].value] else []) + ValuesOf(pairs[1..], key)
  }

  /**
   What the query deserializer, which is not part of this repository, makes of a
   key that is given once and without a value: a list with an empty value, or no
   list. Everything holds for either reading.
   */
  datatype EmptyReading = OneEmpty | Absent

  predicate Unseen(values: seq<Text>, reading: EmptyReading) {
    values == [] || (reading.Absent? && values == [[]])
  }

  function Field(pairs: seq<Pair>, key: Text, reading: EmptyReading): Option<seq<Text>> {
    if Unseen(ValuesOf(pairs, key), reading) then None else Some(ValuesOf(pairs, key))
  }

  function ReadQuery(pairs: seq<Pair>, reading: EmptyReading): DataQuery {
    DataQuery(Field(pairs, "groups", reading), Field(pairs, "categories", reading), Field(pairs, "tags", reading),
              ValuesOf(pairs, "include-schema") == ["true"])
  }

  function OrEmpty(o: Option<seq<Text>>): seq<Text> {
    if o.Some? then o.value else []
  }

  /** Groups win over categories. */
  function ResolveFilter(query: DataQuery): DataFilter {
    var groups, categories := OrEmpty(query.groups), OrEmpty(query.categories);
    DataFilter(
      if groups != [] then Some(DataScope.Groups(groups))
      else if categories != [] then Some(DataScope.Categories(categories))
      else None,
      OrEmpty(query.tags))
  }

  /** Form decoding reads a plus sign as a space. */
  lemma PlusIsSpace(a: Text, b: Text)
    requires '+' !in a + b && '%' !in a + b
    ensures FormDecode(a + "+" + b) == a + " " + b
  {
    var decoded := a + " " + b;
    assert forall i :: 0 <= i < |a| ==> a[i] in a + b;
    assert forall i :: 0 <= i < |b| ==> b[i] in a + b;
    assert PlusToSpace(a + "+" + b) == decoded;
    PlainDecode(decoded);
  }

  // ---- Printing and parsing are inverse

  lemma {:induction false} SplitAt(a: Text, sep: Octet, b: Text)
    requires sep !in a
    ensures Split(a + [sep] + b, sep) == [a] + Split(b, sep)
    ensures SplitOnce(a + [sep] + b, sep) == (a, b)
  {
    if a == [] {
      assert (a + [sep] + b)[1..] == b;
    } else {
      assert a[0] in a && a == [a[0]] + a[1..];
      assert (a + [sep] + b)[1..] == a[1..] + [sep] + b;
      SplitAt(a[1..], sep, b);
      assert ([a[1..]] + Split(b, sep))[1..] == Split(b, sep);
    }
  }

  lemma {:induction false} SplitNone(a: Text, sep: Octet)
    requires sep !in a
    ensures Split(a, sep) == [a]
  {
    if a != [] {
      assert a[0] in a && a == [a[0]] + a[1..];
      SplitNone(a[1..], sep);
      assert [a[1..]][1..] == [];
    }
  }

  lemma NoPlus(s: Text)
    requires '+' !in s
    ensures PlusToSpace(s) == s
  {
    assert forall i :: 0 <= i < |s| ==> s[i] in s;
  }

  lemma {:induction false} PlainDecode(s: Text)
    requires '%' !in s
    ensures Decode(s) == s
  {
    if s != [] {
      assert s[0] in s && s == [s[0]] + s[1..];
      PlainDecode(s[1..]);
    }
  }

  /** A key needs no encoding. */
  ghost predicate PlainKey(key: Text) {
    key != [] && forall c :: c in key ==> c !in {'&', '=', '+', '%', '#'}
  }

  /** A pair the client prints: a plain key and an encoded value. */
  ghost predicate Printed(p: Pair, original: Text) {
    PlainKey(p.key) && p.value == Encode(original, CLIENT_SET)
  }

  lemma ParsePrintedPair(p: Pair, original: Text)
    requires Printed(p, original)
    ensures ParsePair(PrintPair(p)) == Pair(p.key, original)
  {
    SegmentsRoundTrip(original);
    SplitAt(p.key, '=', p.value);
    NoPlus(p.key);
    PlainDecode(p.key);
    NoPlus(p.value);
  }

  lemma PrintedPairIsOnePart(p: Pair, original: Text)
    requires Printed(p, original)
    ensures '&' !in PrintPair(p) && PrintPair(p) != []
  {
    SegmentsRoundTrip(original);
  }

  /** Printed pairs parse back, in order. */
  lemma {:induction false} ParsePrintedQuery(query: seq<Pair>, originals: seq<Text>)
    requires query != [] && |originals| == |query|
    requires forall i :: 0 <= i < |query| ==> Printed(query[i], originals[i])
    ensures ParseForm(PrintQuery(query)) == seq(|query|, i requires 0 <= i < |query| => Pair(query[i].key, originals[i]))
  {
    var first := PrintPair(query[0]);
    ParsePrintedPair(query[0], originals[0]);
    PrintedPairIsOnePart(query[0], originals[0]);
    if |query| == 1 {
      SplitNone(first, '&');
      assert ParseParts([first][1..]) == [];
    } else {
      ParsePrintedQuery(query[1..], originals[1..]);
      SplitAt(first, '&', PrintQuery(query[1..]));
      var parts := Split(PrintQuery(query[1..]), '&');
      assert ([first] + parts)[1..] == parts;
    }
  }

  lemma {:induction false} ValuesOfConcat(a: seq<Pair>, b: seq<Pair>, key: Text)
    ensures ValuesOf(a + b, key) == ValuesOf(a, key) + ValuesOf(b, key)
  {
    if a == [] {
      assert a + b == b;
    } else {
      var head: seq<Text> := if a[0].key == key then [a[0].value] else [];
      ValuesOfConcat(a[1..], b, key);
      assert (a + b)[0] == a[0] && (a + b)[1..] == a[1..] + b;
      assert head + (ValuesOf(a[1..], key) + ValuesOf(b, key)) == head + ValuesOf(a[1..], key) + ValuesOf(b, key);
    }
  }

  /** The pairs of one key as the server sees them. */
  function Plain(key: Text, values: seq<Text>): seq<Pair> {
    seq(|values|, i requires 0 <= i < |values| => Pair(key, values[i]))
  }

  lemma {:induction false} ValuesOfPlain(key: Text, values: seq<Text>, other: Text)
    ensures ValuesOf(Plain(key, values), other) == if other == key then values else []
  {
    if values != [] {
      ValuesOfPlain(key, values[1..], other);
      assert Plain(key, values)[1..] == Plain(key, values[1..]);
    }
  }

  /** What the server parses from the client's query. */
  function Received(c: Criteria): seq<Pair> {
    Plain("groups", c.groups) + Plain("categories", c.categories) + Plain("tags", c.tags) + SchemaQuery(c.schema)
  }

  lemma ValuesReceived(c: Criteria, key: Text)
    ensures ValuesOf(Received(c), key)
         == (if key == "groups" then c.groups else []) + (if key == "categories" then c.categories else [])
            + (if key == "tags" then c.tags else []) + (if c.schema && key == "include-schema" then ["true"] else [])
  {
    var g, k, t, q := Plain("groups", c.groups), Plain("categories", c.categories), Plain("tags", c.tags),
                      SchemaQuery(c.schema);
    ValuesOfConcat(g + k + t, q, key);
    ValuesOfConcat(g + k, t, key);
    ValuesOfConcat(g, k, key);
    ValuesOfPlain("groups", c.groups, key);
    ValuesOfPlain("categories", c.categories, key);
    ValuesOfPlain("tags", c.tags, key);
    if c.schema {
      assert ValuesOf(q[1..], key) == [];
    }
  }

  /** The filter a request asks for. */
  function Asked(c: Criteria): DataFilter {
    DataFilter(
      if c.groups != [] then Some(DataScope.Groups(c.groups))
      else if c.categories != [] then Some(DataScope.Categories(c.categories))
      else None,
      c.tags)
  }

  function SeenValues(values: seq<Text>, reading: EmptyReading): seq<Text> {
    if Unseen(values, reading) then [] else values
  }

  /** The part of a request that survives the deserializer. */
  function Seen(c: Criteria, reading: EmptyReading): Criteria {
    c.(groups := SeenValues(c.groups, reading),
       categories := SeenValues(c.categories, reading),
       tags := SeenValues(c.tags, reading))
  }

  /** A list that decides the filter consists of one empty value. */
  predicate AsksForOneEmpty(c: Criteria) {
    c.groups == [[]] || (c.groups == [] && c.categories == [[]]) || c.tags == [[]]
  }

  /** Pair by pair, `printed` is the client's form of `plain`. */
  ghost predicate AllPrinted(printed: seq<Pair>, plain: seq<Pair>) {
    |printed| == |plain|
    && forall i :: 0 <= i < |printed| ==> Printed(printed[i], plain[i].value) && printed[i].key == plain[i].key
  }

  lemma AllPrintedConcat(a: seq<Pair>, a': seq<Pair>, b: seq<Pair>, b': seq<Pair>)
    requires AllPrinted(a, a') && AllPrinted(b, b')
    ensures AllPrinted(a + b, a' + b')
  {
  }

  lemma KeysArePlain()
    ensures PlainKey("groups") && PlainKey("categories") && PlainKey("tags") && PlainKey("include-schema")
  {
  }

  lemma TrueIsPlain()
    ensures Encode("true", CLIENT_SET) == "true"
  {
    PlainText("true", CLIENT_SET);
  }

  lemma PairsPrinted(key: Text, values: seq<Text>)
    requires PlainKey(key)
    ensures AllPrinted(PairsOf(key, values), Plain(key, values))
  {
  }

  lemma SchemaPrinted(schema: bool)
    ensures AllPrinted(SchemaQuery(schema), SchemaQuery(schema))
  {
    KeysArePlain();
    TrueIsPlain();
    assert Printed(Pair("include-schema", "true"), "true");
  }

  lemma {:induction false} PlainText(s: Text, encode: EncodeSet)
    requires forall c :: c in s ==> !encode(c)
    ensures Encode(s, encode) == s
  {
    if s != [] {
      assert s[0] in s && s == [s[0]] + s[1..];
      PlainText(s[1..], encode);
    }
  }

  lemma QueryPrinted(c: Criteria)
    ensures AllPrinted(QueryPairs(c), Received(c))
  {
    var g, k, t := PairsOf("groups", c.groups), PairsOf("categories", c.categories), PairsOf("tags", c.tags);
    var g', k', t' := Plain("groups", c.groups), Plain("categories", c.categories), Plain("tags", c.tags);
    KeysArePlain();
    PairsPrinted("groups", c.groups);
    PairsPrinted("categories", c.categories);
    PairsPrinted("tags", c.tags);
    SchemaPrinted(c.schema);
    AllPrintedConcat(g, g', k, k');
    AllPrintedConcat(g + k, g' + k', t, t');
    AllPrintedConcat(g + k + t, g' + k' + t', SchemaQuery(c.schema), SchemaQuery(c.schema));
  }

  /** Parsing what the client prints gives back keys and values, in order. */
  lemma QueryRoundTrip(c: Criteria)
    ensures QueryPairs(c) != [] ==> ParseForm(PrintQuery(QueryPairs(c))) == Received(c)
  {
    var printed, plain := QueryPairs(c), Received(c);
    QueryPrinted(c);
    if printed != [] {
      var originals := seq(|plain|, i requires 0 <= i < |plain| => plain[i].value);
      ParsePrintedQuery(printed, originals);
      assert forall i :: 0 <= i < |plain| ==> plain[i] == Pair(printed[i].key, originals[i]);
    }
  }

  lemma {:induction false} SplitOnceNone(a: Text, sep: Octet)
    requires sep !in a
    ensures SplitOnce(a, sep) == (a, [])
  {
    if a != [] {
      assert a[0] in a && a == [a[0]] + a[1..];
      SplitOnceNone(a[1..], sep);
    }
  }

  function WithoutFragment(uri: Text): Text {
    SplitOnce(uri, '#').0
  }

  /** The server's side of a URI: what lies between the first question mark and the fragment. */
  function QueryOf(uri: Text, reading: EmptyReading): DataQuery {
    ReadQuery(ParseForm(SplitOnce(WithoutFragment(uri), '?').1), reading)
  }

  lemma {:induction false} PrintedHasNoFragment(query: seq<Pair>, originals: seq<Text>)
    requires query != [] && |originals| == |query|
    requires forall i :: 0 <= i < |query| ==> Printed(query[i], originals[i])
    ensures '#' !in PrintQuery(query)
  {
    SegmentsRoundTrip(originals[0]);
    if |query| > 1 {
      PrintedHasNoFragment(query[1..], originals[1..]);
    }
  }

  lemma RequestHasNoFragment(baseUri: Text, path: Text, c: Criteria)
    requires '#' !in baseUri && '#' !in path
    ensures WithoutFragment(RequestUri(baseUri, path, c)) == RequestUri(baseUri, path, c)
  {
    var plain := Received(c);
    QueryPrinted(c);
    if QueryPairs(c) != [] {
      PrintedHasNoFragment(QueryPairs(c), seq(|plain|, i requires 0 <= i < |plain| => plain[i].value));
    }
    SplitOnceNone(RequestUri(baseUri, path, c), '#');
  }

  lemma ReceivedQuery(baseUri: Text, path: Text, c: Criteria, reading: EmptyReading)
    requires '?' !in baseUri + path && '#' !in baseUri + path
    ensures SplitOnce(RequestUri(baseUri, path, c), '?').0 == JoinPath(baseUri, path)
    ensures QueryOf(RequestUri(baseUri, path, c), reading) == ReadQuery(Received(c), reading)
  {
    var pairs := QueryPairs(c);
    RequestHasNoFragment(baseUri, path, c);
    QueryPrinted(c);
    QueryRoundTrip(c);
    if pairs == [] {
      SplitOnceNone(JoinPath(baseUri, path), '?');
      assert ParseParts([[]][1..]) == [];
    } else {
      SplitAt(JoinPath(baseUri, path), '?', PrintQuery(pairs));
    }
  }

  /** A fragment is no part of the query. */
  lemma FragmentIsIgnored(uri: Text, fragment: Text, reading: EmptyReading)
    requires '#' !in uri
    ensures QueryOf(uri + "#" + fragment, reading) == QueryOf(uri, reading)
  {
    SplitAt(uri, '#', fragment);
    SplitOnceNone(uri, '#');
  }

  /**
   The server resolves the client's URI to the filter that was asked for (groups
   if any, else categories if any, else everything, narrowed by the same tags),
   but for lists the deserializer does not see; so to exactly what was asked for
   if and only if a lone empty value is seen or none is asked for.
   */
  lemma FilterRoundTrip(baseUri: Text, path: Text, c: Criteria, reading: EmptyReading)
    requires '?' !in baseUri + path && '#' !in baseUri + path
    ensures SplitOnce(RequestUri(baseUri, path, c), '?').0 == JoinPath(baseUri, path)
    ensures ResolveFilter(QueryOf(RequestUri(baseUri, path, c), reading)) == Asked(Seen(c, reading))
    ensures ResolveFilter(QueryOf(RequestUri(baseUri, path, c), reading)) == Asked(c)
       <==> reading.OneEmpty? || !AsksForOneEmpty(c)
    ensures QueryOf(RequestUri(baseUri, path, c), reading).includeSchema == c.schema
  {
    ReceivedQuery(baseUri, path, c, reading);
    ReadReceived(c, reading);
    AskedSeenIff(c, reading);
  }

  /** Asking for an empty tag: under the second reading the server lists everything. */
  lemma LoneEmptyTagIsLost(baseUri: Text, path: Text)
    requires '?' !in baseUri + path && '#' !in baseUri + path
    ensures var c := Criteria([], [], [[]], false);
            && ResolveFilter(QueryOf(RequestUri(baseUri, path, c), Absent)) == NO_FILTER
            && Asked(c) != NO_FILTER
  {
    FilterRoundTrip(baseUri, path, Criteria([], [], [[]], false), Absent);
  }

  lemma AskedSeenIff(c: Criteria, reading: EmptyReading)
    ensures Asked(Seen(c, reading)) == Asked(c) <==> reading.OneEmpty? || !AsksForOneEmpty(c)
  {
  }

  lemma ReadReceived(c: Criteria, reading: EmptyReading)
    ensures var query, seen := ReadQuery(Received(c), reading), Seen(c, reading);
            && OrEmpty(query.groups) == seen.groups
            && OrEmpty(query.categories) == seen.categories
            && OrEmpty(query.tags) == seen.tags
            && query.includeSchema == c.schema
  {
    FieldsReceived(c);
  }

  lemma FieldsReceived(c: Criteria)
    ensures ValuesOf(Received(c), "groups") == c.groups
    ensures ValuesOf(Received(c), "categories") == c.categories
    ensures ValuesOf(Received(c), "tags") == c.tags
    ensures ValuesOf(Received(c), "include-schema") == if c.schema then ["true"] else []
  {
    ValuesReceived(c, "groups");
    ValuesReceived(c, "categories");
    ValuesReceived(c, "tags");
    ValuesReceived(c, "include-schema");
  }

  /** End to end: the provider lists, in registration order, exactly the resources the client asked for. */
  lemma ServerListsWhatWasAsked(p: BuiltDataProvider, baseUri: Text, path: Text, c: Criteria, reading: EmptyReading)
    requires '?' !in baseUri + path && '#' !in baseUri + path
    ensures var listed := p.List(ResolveFilter(QueryOf(RequestUri(baseUri, path, c), reading)));
            && listed == Filter(p.List(NO_FILTER), Matching(Asked(Seen(c, reading))))
            && (forall m :: m in listed <==> m in p.List(NO_FILTER) && Wanted(Seen(c, reading), m))
            && (reading.OneEmpty? || !AsksForOneEmpty(c) ==>
                  forall m :: m in listed <==> m in p.List(NO_FILTER) && Wanted(c, m))
  {
    var asked := Asked(Seen(c, reading));
    FilterRoundTrip(baseUri, path, c, reading);
    ListIsSublist(p, asked);
    ListAll(p);
    forall m ensures Matching(asked)(m) == Wanted(Seen(c, reading), m) && Matching(Asked(c))(m) == Wanted(c, m) {
      AskedIsWanted(Seen(c, reading), m);
      AskedIsWanted(c, m);
    }
  }

  /** In some asked group, else in an asked category; and with some asked tag. */
  ghost predicate Wanted(c: Criteria, m: Metadata) {
    && (c.groups != [] ==> exists g :: g in c.groups && g in m.groups)
    && (c.groups == [] && c.categories != [] ==> m.category in c.categories)
    && (c.tags != [] ==> exists t :: t in c.tags && t in m.tags)
  }

  lemma AskedIsWanted(c: Criteria, m: Metadata)
    ensures Matches(m, Asked(c)) == Wanted(c, m)
  {
  }
}
