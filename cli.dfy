/**
 * The request-building helpers of the command-line client: the repeatable
 * flag lists, `-H` header entries, `-q` query entries, `-f` form entries, the
 * `-d` body source, and how `makeRequest` puts them together.
 */
module Cli {
  import opened Wrappers
  import opened GoStrings
  import opened Http

  datatype CliError = InvalidFormData(entry: string) | RequestNotCreated

  // ------------------------------------------------------------ flag lists

  /** `HeaderList`, `QueryList` and `FormList`: the values of a repeatable flag, in order. */
  class FlagList {
    var items: seq<string>

    constructor ()
      ensures items == []
    {
      items := [];
    }

    /** `String`: the values joined by `", "`. */
    function String(): (s: string)
      reads this
      ensures items == [] ==> s == ""
      ensures |items| == 1 ==> s == items[0]
      ensures |items| > 0 ==> |s| >= |items[0]| && s[..|items[0]|] == items[0]
      ensures |items| > 1 ==> |s| >= |items[0]| + 2 && s[|items[0]|..|items[0]| + 2] == ", "
    {
      Join(items, ", ")
    }

    /** `Set`: the value goes at the end; it never fails. */
    method Set(value: string) returns (r: Outcome<CliError>)
      modifies this
      ensures r == Pass && items == old(items) + [value]
      ensures items[..|old(items)|] == old(items)
    {
      items := items + [value];
      return Pass;
    }
  }

  // --------------------------------------------------------------- entries

  /** A parsed `-H` or `-q` entry: its key and value, or `None` when it lacks the separator. */
  type Pair = Option<(string, string)>

  /** `f` applied to each element, in order. */
  function MapSeq<A, B>(f: A -> B, s: seq<A>): (r: seq<B>)
    ensures |r| == |s| && forall i :: 0 <= i < |s| ==> r[i] == f(s[i])
  {
    seq(|s|, i requires 0 <= i < |s| => f(s[i]))
  }

  lemma MapSeqStep<A, B>(f: A -> B, s: seq<A>, i: int)
    requires 0 <= i < |s|
    ensures MapSeq(f, s[..i + 1]) == MapSeq(f, s[..i]) + [f(s[i])]
  {
  }

  // --------------------------------------------------------------- headers

  /** A `Key: Value` entry as `addHeaders` reads it: split at the first `:`, both halves trimmed. */
  function ParseHeader(entry: string): (p: Pair)
    ensures p.None? <==> ':' !in entry
  {
    match SplitFirst(entry, ':')
    case None => None
    case Some((key, value)) => Some((TrimSpace(key), TrimSpace(value)))
  }

  function ParseHeaders(entries: seq<string>): seq<Pair>
  {
    MapSeq(ParseHeader, entries)
  }

  /** The key of a header entry; `None` without a `:`. */
  function HeaderKey(entry: string): (k: Option<string>)
    ensures k.None? <==> ':' !in entry
  {
    match ParseHeader(entry)
    case None => None
    case Some((key, _)) => Some(key)
  }

  /** The value of a header entry. */
  function HeaderValue(entry: string): string
    requires ':' in entry
  {
    ParseHeader(entry).value.1
  }

  /** `Header.Set` of one pair; a `None` changes nothing. */
  function SetPair(h: Header, p: Pair): Header
  {
    if p.None? then h else SetHeader(h, p.value.0, p.value.1)
  }

  /** The headers after setting each pair in order. */
  function SetPairs(h: Header, ps: seq<Pair>): Header
  {
    if ps == [] then h else SetPair(SetPairs(h, ps[..|ps| - 1]), ps[|ps| - 1])
  }

  /** The headers after the entries, in order. */
  function HeaderEntries(h: Header, entries: seq<string>): Header
  {
    SetPairs(h, ParseHeaders(entries))
  }

  /** Setting the pairs `f` gives one more element is setting one more pair. */
  lemma SetPairsMapStep<A>(h: Header, f: A -> Pair, s: seq<A>, i: int)
    requires 0 <= i < |s|
    ensures SetPairs(h, MapSeq(f, s[..i + 1])) == SetPair(SetPairs(h, MapSeq(f, s[..i])), f(s[i]))
  {
    MapSeqStep(f, s, i);
    var ps := MapSeq(f, s[..i]);
    assert (ps + [f(s[i])])[..i] == ps;
  }

  /** One more entry is one more pair set. */
  lemma HeaderEntriesStep(h: Header, entries: seq<string>, i: int)
    requires 0 <= i < |entries|
    ensures HeaderEntries(h, entries[..i + 1]) == SetPair(HeaderEntries(h, entries[..i]), ParseHeader(entries[i]))
  {
    SetPairsMapStep(h, ParseHeader, entries, i);
  }

  /** `addHeaders`. */
  method AddHeaders(req: Request, headers: seq<string>)
    modifies req`header
    ensures req.header == HeaderEntries(old(req.header), headers)
  {
    var i := 0;
    while i < |headers|
      invariant 0 <= i <= |headers|
      invariant req.header == HeaderEntries(old(req.header), headers[..i])
    {
      HeaderEntriesStep(old(req.header), headers, i);
      var entry := ParseHeader(headers[i]);
      if entry.Some? {
        var (key, value) := entry.value;
        req.header := SetHeader(req.header, key, value);
      }
      i := i + 1;
    }
    assert headers[..i] == headers;
  }

  /** An entry without `:` changes nothing. */
  lemma HeaderWithoutColonSkipped(h: Header, entries: seq<string>, entry: string)
    requires ':' !in entry
    ensures HeaderEntries(h, entries + [entry]) == HeaderEntries(h, entries)
  {
    var ps := ParseHeaders(entries + [entry]);
    assert ps[..|entries|] == ParseHeaders(entries);
    assert ps[|entries|] == None;
  }

  /**
   * An entry is split at its first `:` only: the key is the trimmed text
   * before it and the value the trimmed rest, which may hold more colons.
   */
  lemma HeaderSplitsAtFirstColon(key: string, value: string)
    requires ':' !in key
    ensures HeaderKey(key + ":" + value) == Some(TrimSpace(key))
    ensures HeaderValue(key + ":" + value) == TrimSpace(value)
  {
    SplitFirstUnique(key, ':', value);
  }

  /** Spaces around the key and around the value do not reach the header. */
  lemma HeaderEntryTrimmed(pad1: string, key: string, pad2: string, pad3: string, value: string, pad4: string)
    requires ':' !in key && ':' !in pad1 && ':' !in pad2
    requires AllSpace(pad1) && AllSpace(pad2) && AllSpace(pad3) && AllSpace(pad4)
    requires Trimmed(key) && Trimmed(value)
    ensures HeaderKey(pad1 + key + pad2 + ":" + pad3 + value + pad4) == Some(key)
    ensures HeaderValue(pad1 + key + pad2 + ":" + pad3 + value + pad4) == value
  {
    var k := pad1 + key + pad2;
    var v := pad3 + value + pad4;
    assert pad1 + key + pad2 + ":" + pad3 + value + pad4 == k + ":" + v;
    HeaderSplitsAtFirstColon(k, v);
    TrimSpaceSurrounded(pad1, key, pad2);
    TrimSpaceSurrounded(pad3, value, pad4);
  }

  /** The last pair with a key decides its value; earlier ones are replaced. */
  lemma {:induction false} LastPairWins(h: Header, ps: seq<Pair>, i: int)
    requires 0 <= i < |ps| && ps[i].Some?
    requires forall j :: i < j < |ps| ==> ps[j].None? || ps[j].value.0 != ps[i].value.0
    ensures ps[i].value.0 in SetPairs(h, ps) && SetPairs(h, ps)[ps[i].value.0] == ps[i].value.1
  {
    var prefix := ps[..|ps| - 1];
    if i < |ps| - 1 {
      assert prefix[i] == ps[i];
      forall j | i < j < |prefix|
        ensures prefix[j].None? || prefix[j].value.0 != prefix[i].value.0
      {
        assert prefix[j] == ps[j];
      }
      LastPairWins(h, prefix, i);
    }
  }

  /** A key that no pair names keeps whatever it had. */
  lemma {:induction false} UnnamedPairKept(h: Header, ps: seq<Pair>, key: string)
    requires forall j :: 0 <= j < |ps| ==> ps[j].None? || ps[j].value.0 != key
    ensures key in SetPairs(h, ps) <==> key in h
    ensures key in h ==> SetPairs(h, ps)[key] == h[key]
  {
    if ps != [] {
      var prefix := ps[..|ps| - 1];
      forall j | 0 <= j < |prefix|
        ensures prefix[j].None? || prefix[j].value.0 != key
      {
        assert prefix[j] == ps[j];
      }
      UnnamedPairKept(h, prefix, key);
    }
  }

  /** The last entry with a key decides its value; earlier ones are replaced. */
  lemma LastHeaderWins(h: Header, entries: seq<string>, i: int)
    requires 0 <= i < |entries| && HeaderKey(entries[i]).Some?
    requires forall j :: i < j < |entries| ==> HeaderKey(entries[j]) != HeaderKey(entries[i])
    ensures var key := HeaderKey(entries[i]).value;
      key in HeaderEntries(h, entries) && HeaderEntries(h, entries)[key] == HeaderValue(entries[i])
  {
    var ps := ParseHeaders(entries);
    forall j | i < j < |ps|
      ensures ps[j].None? || ps[j].value.0 != ps[i].value.0
    {
      assert HeaderKey(entries[j]) != HeaderKey(entries[i]);
    }
    LastPairWins(h, ps, i);
  }

  /** A key that no entry names keeps whatever it had. */
  lemma UnnamedHeaderKept(h: Header, entries: seq<string>, key: string)
    requires forall j :: 0 <= j < |entries| ==> HeaderKey(entries[j]) != Some(key)
    ensures key in HeaderEntries(h, entries) <==> key in h
    ensures key in h ==> HeaderEntries(h, entries)[key] == h[key]
  {
    var ps := ParseHeaders(entries);
    forall j | 0 <= j < |ps|
      ensures ps[j].None? || ps[j].value.0 != key
    {
      assert HeaderKey(entries[j]) != Some(key);
    }
    UnnamedPairKept(h, ps, key);
  }

  // ----------------------------------------------------------------- query

  /** A `key=value` entry as `addQueryParams` reads it: split at the first `=`, nothing trimmed. */
  function ParseQuery(entry: string): Pair
  {
    SplitFirst(entry, '=')
  }

  function ParseQueries(entries: seq<string>): seq<Pair>
  {
    MapSeq(ParseQuery, entries)
  }

  /** `Values.Add` of one pair; a `None` changes nothing. */
  function AddPair(q: Values, p: Pair): Values
  {
    if p.None? then q else AddValue(q, p.value.0, p.value.1)
  }

  /** The values after adding each pair in order. */
  function AddPairs(q: Values, ps: seq<Pair>): Values
  {
    if ps == [] then q else AddPair(AddPairs(q, ps[..|ps| - 1]), ps[|ps| - 1])
  }

  /** The query after the entries, in order. */
  function QueryEntries(q: Values, entries: seq<string>): Values
  {
    AddPairs(q, ParseQueries(entries))
  }

  /** Adding the pairs `f` gives one more element is adding one more pair. */
  lemma AddPairsMapStep<A>(q: Values, f: A -> Pair, s: seq<A>, i: int)
    requires 0 <= i < |s|
    ensures AddPairs(q, MapSeq(f, s[..i + 1])) == AddPair(AddPairs(q, MapSeq(f, s[..i])), f(s[i]))
  {
    MapSeqStep(f, s, i);
    var ps := MapSeq(f, s[..i]);
    assert (ps + [f(s[i])])[..i] == ps;
  }

  /** One more entry is one more pair added. */
  lemma QueryEntriesStep(q: Values, entries: seq<string>, i: int)
    requires 0 <= i < |entries|
    ensures QueryEntries(q, entries[..i + 1]) == AddPair(QueryEntries(q, entries[..i]), ParseQuery(entries[i]))
  {
    AddPairsMapStep(q, ParseQuery, entries, i);
  }

  /** `addQueryParams` (the re-encoding of the query string is not modelled). */
  method AddQueryParams(req: Request, queries: seq<string>)
    modifies req`query
    ensures req.query == QueryEntries(old(req.query), queries)
  {
    var q := req.query;
    var i := 0;
    while i < |queries|
      invariant 0 <= i <= |queries|
      invariant q == QueryEntries(old(req.query), queries[..i])
    {
      QueryEntriesStep(old(req.query), queries, i);
      var parts := ParseQuery(queries[i]);
      if parts.Some? {
        q := AddValue(q, parts.value.0, parts.value.1);
      }
      i := i + 1;
    }
    assert queries[..i] == queries;
    req.query := q;
  }

  /** The values pairs give `key`, read from the front: a reference for `AddPairs`. */
  function PairValuesFor(ps: seq<Pair>, key: string): seq<string>
  {
    if ps == [] then []
    else (if ps[0].Some? && ps[0].value.0 == key then [ps[0].value.1] else []) + PairValuesFor(ps[1..], key)
  }

  /** The values the entries give `key`, in entry order; entries without `=` give none. */
  function QueryValuesFor(entries: seq<string>, key: string): seq<string>
  {
    PairValuesFor(ParseQueries(entries), key)
  }

  function Get(q: Values, key: string): seq<string>
  {
    if key in q then q[key] else []
  }

  lemma {:induction false} PairValuesForAppend(ps: seq<Pair>, p: Pair, key: string)
    ensures PairValuesFor(ps + [p], key) == PairValuesFor(ps, key) + PairValuesFor([p], key)
  {
    if ps != [] {
      assert (ps + [p])[1..] == ps[1..] + [p];
      PairValuesForAppend(ps[1..], p, key);
    }
  }

  /** One pair adds its value, if it has one for `key`, after the key's values. */
  lemma AddPairGet(q: Values, p: Pair, key: string)
    ensures Get(AddPair(q, p), key) == Get(q, key) + PairValuesFor([p], key)
    ensures key in AddPair(q, p) <==> key in q || PairValuesFor([p], key) != []
  {
    assert PairValuesFor([p], key) == (if p.Some? && p.value.0 == key then [p.value.1] else []) + PairValuesFor([], key);
  }

  /** Pairs accumulate: a key ends with its old values, then the pairs' values for it in order. */
  lemma {:induction false} PairsAccumulate(q: Values, ps: seq<Pair>, key: string)
    ensures Get(AddPairs(q, ps), key) == Get(q, key) + PairValuesFor(ps, key)
    ensures key in AddPairs(q, ps) <==> key in q || PairValuesFor(ps, key) != []
  {
    if ps != [] {
      var prefix := ps[..|ps| - 1];
      var p := ps[|ps| - 1];
      var before := AddPairs(q, prefix);
      assert AddPairs(q, ps) == AddPair(before, p);
      assert prefix + [p] == ps;
      PairsAccumulate(q, prefix, key);
      PairValuesForAppend(prefix, p, key);
      AddPairGet(before, p, key);
      calc {
        Get(AddPairs(q, ps), key);
        Get(before, key) + PairValuesFor([p], key);
        Get(q, key) + (PairValuesFor(prefix, key) + PairValuesFor([p], key));
        Get(q, key) + PairValuesFor(ps, key);
      }
    }
  }

  /** Repeated keys accumulate: each key ends with its old values, then the entries' values in order. */
  lemma QueryAccumulates(q: Values, entries: seq<string>, key: string)
    ensures Get(QueryEntries(q, entries), key) == Get(q, key) + QueryValuesFor(entries, key)
    ensures key in QueryEntries(q, entries) <==> key in q || QueryValuesFor(entries, key) != []
  {
    PairsAccumulate(q, ParseQueries(entries), key);
  }

  // ------------------------------------------------------------------ form

  /** A multipart field: a file to attach (`key=@path`) or a literal value. */
  datatype FormPart = FileField(name: string, path: string) | TextField(name: string, value: string)

  /** The field of one `key=value` entry, split at the first `=`; `None` without one. */
  function FormPartOf(entry: string): (p: Option<FormPart>)
    ensures p.None? <==> '=' !in entry
    ensures p.Some? ==> '=' !in p.value.name
    ensures p.Some? && p.value.FileField? ==> entry == p.value.name + "=@" + p.value.path
    ensures p.Some? && p.value.TextField? ==>
      entry == p.value.name + "=" + p.value.value && !HasPrefix(p.value.value, '@')
  {
    match SplitFirst(entry, '=')
    case None => None
    case Some((key, value)) =>
      if HasPrefix(value, '@') then Some(FileField(key, value[1..])) else Some(TextField(key, value))
  }

  /** The content type of the multipart body, with the writer's boundary. */
  function MultipartContentType(boundary: string): string
  {
    "multipart/form-data; boundary=" + boundary
  }

  /**
   * `buildFormData`, the fields it writes in order: it fails on the first
   * entry without `=`, naming that entry.
   */
  method BuildFormData(forms: seq<string>) returns (r: Result<seq<FormPart>, CliError>)
    ensures r.Success? <==> forall i :: 0 <= i < |forms| ==> '=' in forms[i]
    ensures r.Success? ==> |r.value| == |forms|
    ensures r.Success? ==> forall i :: 0 <= i < |forms| ==> FormPartOf(forms[i]) == Some(r.value[i])
    ensures r.Failure? ==> exists i :: (0 <= i < |forms| && '=' !in forms[i]
      && r.error == InvalidFormData(forms[i]) && forall j :: 0 <= j < i ==> '=' in forms[j])
  {
    var parts: seq<FormPart> := [];
    var i := 0;
    while i < |forms|
      invariant 0 <= i <= |forms| && |parts| == i
      invariant forall j :: 0 <= j < i ==> '=' in forms[j] && FormPartOf(forms[j]) == Some(parts[j])
    {
      var split := SplitFirst(forms[i], '=');
      if split.None? {
        return Failure(InvalidFormData(forms[i]));
      }
      var key, value := split.value.0, split.value.1;
      if HasPrefix(value, '@') {
        parts := parts + [FileField(key, value[1..])];
      } else {
        parts := parts + [TextField(key, value)];
      }
      i := i + 1;
    }
    return Success(parts);
  }

  // ------------------------------------------------------------------ body

  /** Where a `-d` body comes from. */
  datatype BodySource = NoBody | Stdin | File(path: string) | Literal(text: string)

  /** `buildRequestBody`: `""` no body, `-` standard input, `@path` a file, anything else itself. */
  function BodySourceOf(data: string): (b: BodySource)
    ensures b == NoBody <==> data == ""
    ensures b == Stdin <==> data == "-"
    ensures b.File? <==> HasPrefix(data, '@')
    ensures b.File? ==> data == "@" + b.path
    ensures b.Literal? ==> b.text == data
  {
    if data == "" then NoBody
    else if data == "-" then Stdin
    else if HasPrefix(data, '@') then File(data[1..])
    else Literal(data)
  }

  /** The body of the request. */
  datatype Body = Empty | Multipart(parts: seq<FormPart>) | Data(source: BodySource)

  /** The settings of one run (`Config` in the source). */
  datatype Config = Config(verb: string, url: string, headers: seq<string>, query: seq<string>,
                           data: string, form: seq<string>)

  /** A request-method token character: a letter, a digit or one of ``!#$%&'*+-.^_`|~`` (section 3.2.6 of RFC 7230). */
  predicate IsTokenChar(c: char)
  {
    ('a' <= c <= 'z') || ('A' <= c <= 'Z') || ('0' <= c <= '9') || c in "!#$%&'*+-.^_`|~"
  }

  /** The methods `http.NewRequest` accepts: non-empty tokens. */
  predicate ValidMethod(m: string)
  {
    |m| > 0 && forall i :: 0 <= i < |m| ==> IsTokenChar(m[i])
  }

  /** `http.NewRequest` reads an empty method as `GET`. */
  function EffectiveMethod(verb: string): (m: string)
    ensures m != ""
    ensures verb != "" ==> m == verb
  {
    if verb == "" then "GET" else verb
  }

  /**
   * `makeRequest` up to sending: form entries take precedence over `-d` data
   * and are built first; then the request is created, which fails for a
   * method that is not a token; the multipart content type is set only for a
   * form body and before the `-H` entries (which may replace it); then the
   * query entries are added. `urlQuery` is the query of the parsed URL and
   * `boundary` the multipart writer's boundary.
   */
  method MakeRequest(config: Config, urlQuery: Values, boundary: string) returns (r: Result<(Request, Body), CliError>)
    ensures r.Success? <==>
      (forall i :: 0 <= i < |config.form| ==> '=' in config.form[i]) && ValidMethod(EffectiveMethod(config.verb))
    ensures r.Failure? ==>
      (r.error.InvalidFormData? <==> exists i :: 0 <= i < |config.form| && '=' !in config.form[i])
    ensures r.Success? ==> fresh(r.value.0)
    ensures r.Success? ==> r.value.0.verb == EffectiveMethod(config.verb) && r.value.0.url == config.url
    ensures r.Success? ==> r.value.0.query == QueryEntries(urlQuery, config.query)
    ensures r.Success? && |config.form| > 0 ==>
      && r.value.1.Multipart? && |r.value.1.parts| == |config.form|
      && (forall i :: 0 <= i < |config.form| ==> FormPartOf(config.form[i]) == Some(r.value.1.parts[i]))
      && r.value.0.header == HeaderEntries(SetHeader(map[], ContentType, MultipartContentType(boundary)), config.headers)
    ensures r.Success? && |config.form| == 0 ==>
      && r.value.1 == (if config.data == "" then Empty else Data(BodySourceOf(config.data)))
      && r.value.0.header == HeaderEntries(map[], config.headers)
  {
    var body: Body := Empty;
    var contentType := "";
    if |config.form| > 0 {
      var built := BuildFormData(config.form);
      if built.Failure? {
        return Failure(built.error);
      }
      body := Multipart(built.value);
      contentType := MultipartContentType(boundary);
    } else if config.data != "" {
      body := Data(BodySourceOf(config.data));
    }
    var verb := EffectiveMethod(config.verb);
    if !ValidMethod(verb) {
      return Failure(RequestNotCreated);
    }
    var req := new Request(verb, config.url, urlQuery);
    if contentType != "" {
      req.header := SetHeader(req.header, ContentType, contentType);
    }
    AddHeaders(req, config.headers);
    AddQueryParams(req, config.query);
    return Success((req, body));
  }

  /** Without form entries, a `Content-Type` header exists only if an `-H` entry names it. */
  lemma ContentTypeOnlyFromForm(headers: seq<string>)
    requires forall j :: 0 <= j < |headers| ==> HeaderKey(headers[j]) != Some(ContentType)
    ensures ContentType !in HeaderEntries(map[], headers)
  {
    UnnamedHeaderKept(map[], headers, ContentType);
  }
}
