/**
 * SparqlQueryProcessor: runs a SPARQL query over the RDF in the message body and
 * replaces the body with the formatted results. The model keeps how message headers
 * become initial variable bindings and how the query form and the results-format name
 * choose a writer; reading RDF, running the query and writing the output belong to
 * Jena and are parameters.
 */
module SparqlQuery {
  import opened Java
  import opened JavaStrings
  import opened Camel

  const LiteralBindingPrefix := "CamelSparqlQueryBinding-Literal-"
  const UriBindingPrefix := "CamelSparqlQueryBinding-URI-"

  /** `CSV_WITHOUT_HEADER` */
  const CsvWithoutHeader := "csvWithoutHeader"

  /** An RDF node a variable is bound to: a literal, or a resource named by a URI. */
  datatype RdfNode = Literal(lexical: string) | Resource(uri: string)

  // ---- which header keys are bindings ----

  /** The characters a regular-expression `.` does not match. */
  predicate IsLineTerminator(c: char)
  {
    c == '\n' || c == '\r' || c == '\U{0085}' || c == '\U{2028}' || c == '\U{2029}'
  }

  /** `key.matches("^" + prefix + ".+")`: the prefix, then at least one character, none of them a line terminator. */
  predicate MatchesBinding(key: string, prefix: string)
  {
    StartsWith(key, prefix) && |key| > |prefix|
    && forall i | |prefix| <= i < |key| :: !IsLineTerminator(key[i])
  }

  /** No key is both a literal and a URI binding, since the prefixes differ at position 24. */
  lemma BindingPrefixesExclusive(key: string)
    ensures !(MatchesBinding(key, LiteralBindingPrefix) && MatchesBinding(key, UriBindingPrefix))
  {
    if StartsWith(key, LiteralBindingPrefix) {
      assert key[24] == key[..|LiteralBindingPrefix|][24] == 'L';
      assert key[..|UriBindingPrefix|][24] == 'L';
    }
  }

  /** The variable a header key binds, by the prefix it carries: everything after the prefix. */
  function BindingName(key: string): Option<string>
  {
    if MatchesBinding(key, LiteralBindingPrefix) then Some(key[|LiteralBindingPrefix|..])
    else if MatchesBinding(key, UriBindingPrefix) then Some(key[|UriBindingPrefix|..])
    else None
  }

  /** The node a binding header with this value binds: a literal for the Literal prefix, a resource otherwise. */
  function BindingNode(key: string, text: string): RdfNode
  {
    if MatchesBinding(key, LiteralBindingPrefix) then Literal(text) else Resource(text)
  }

  /** extractBindingName: the third part of `key.split("-", 3)`; a key with fewer parts has no index 2. */
  function ExtractBindingName(key: string): (r: Result<string, Exception>)
    ensures r.Failure? ==> r.error == ArrayIndexOutOfBoundsException
    ensures r.Success? ==> |r.value| + 2 <= |key| && key[|key| - |r.value|..] == r.value
  {
    var parts := Split(key, '-', 3);
    if |parts| < 3 then Failure(ArrayIndexOutOfBoundsException)
    else
      SplitLastPart(key, '-', 3, parts);
      Success(parts[2])
  }

  /** For every binding key the split yields the rest of the key after the prefix, dashes and all. */
  lemma ExtractBindingNameOfBindingKey(key: string)
    requires BindingName(key).Some?
    ensures ExtractBindingName(key) == Success(BindingName(key).value)
  {
    var a := "CamelSparqlQueryBinding";
    var b := if MatchesBinding(key, LiteralBindingPrefix) then "Literal" else "URI";
    var prefix := if MatchesBinding(key, LiteralBindingPrefix) then LiteralBindingPrefix else UriBindingPrefix;
    assert prefix == a + ['-'] + b + ['-'];
    var rest := key[|prefix|..];
    assert key == a + ['-'] + b + ['-'] + rest by {
      assert key == key[..|prefix|] + rest;
    }
    SplitThree(a, b, rest, '-');
  }

  // ---- parseBindings ----

  /** A header as the iteration over `message.getHeaders().entrySet()` yields it. */
  type Entry = (string, HeaderValue)

  /** One iteration of parseBindings: a binding header puts its node under its name; a non-string value fails the cast. */
  function Bind(bindings: map<string, RdfNode>, entry: Entry): (r: Result<map<string, RdfNode>, Exception>)
    ensures r.Failure? ==> r.error == ClassCastException
    ensures r.Success? ==> bindings.Keys <= r.value.Keys
  {
    var (key, value) := entry;
    if MatchesBinding(key, LiteralBindingPrefix) || MatchesBinding(key, UriBindingPrefix) then
      ExtractBindingNameOfBindingKey(key);
      match ExtractBindingName(key)
      case Failure(e) => Failure(e)
      case Success(bindingName) =>
        if !value.Text? then Failure(ClassCastException)
        else if MatchesBinding(key, LiteralBindingPrefix) then Success(bindings[bindingName := Literal(value.text)])
        else Success(bindings[bindingName := Resource(value.text)])
    else Success(bindings)
  }

  /** The binding map parseBindings builds over the entries, in order, stopping at the first exception. */
  function Bindings(entries: seq<Entry>): (r: Result<map<string, RdfNode>, Exception>)
    ensures r.Failure? ==> r.error == ClassCastException
  {
    if |entries| == 0 then Success(map[])
    else
      match Bindings(entries[..|entries| - 1])
      case Failure(e) => Failure(e)
      case Success(bindings) => Bind(bindings, entries[|entries| - 1])
  }

  /** parseBindings(message, model), over the headers in iteration order. */
  method ParseBindings(entries: seq<Entry>) returns (r: Result<map<string, RdfNode>, Exception>)
    ensures r == Bindings(entries)
  {
    var bindings := map[];
    var i := 0;
    while i < |entries|
      invariant 0 <= i <= |entries|
      invariant Bindings(entries[..i]) == Success(bindings)
    {
      var (key, value) := entries[i];
      BindingsSnoc(entries, i);
      BindStep(bindings, entries[i]);
      BindingPrefixesExclusive(key);
      if MatchesBinding(key, LiteralBindingPrefix) {
        ExtractBindingNameOfBindingKey(key);
        var bindingName := ExtractBindingName(key).value;
        if !value.Text? {
          BindingsStopAtFailure(entries, i + 1);
          return Failure(ClassCastException);
        }
        bindings := bindings[bindingName := Literal(value.text)];
      }
      if MatchesBinding(key, UriBindingPrefix) {
        ExtractBindingNameOfBindingKey(key);
        var bindingName := ExtractBindingName(key).value;
        if !value.Text? {
          BindingsStopAtFailure(entries, i + 1);
          return Failure(ClassCastException);
        }
        bindings := bindings[bindingName := Resource(value.text)];
      }
      i := i + 1;
    }
    assert entries[..i] == entries;
    return Success(bindings);
  }

  /** parseBindings over one more header: the binding map so far, then one more step. */
  lemma BindingsSnoc(entries: seq<Entry>, i: nat)
    requires i < |entries|
    ensures Bindings(entries[..i + 1]) ==
            match Bindings(entries[..i])
            case Failure(e) => Failure(e)
            case Success(bindings) => Bind(bindings, entries[i])
  {
    assert entries[..i + 1][..i] == entries[..i];
  }

  /** Once a prefix of the entries fails, the whole does, with the same exception. */
  lemma {:induction false} BindingsStopAtFailure(entries: seq<Entry>, n: nat)
    requires n <= |entries|
    requires Bindings(entries[..n]).Failure?
    ensures Bindings(entries) == Bindings(entries[..n])
    decreases |entries| - n
  {
    if n < |entries| {
      BindingsSnoc(entries, n);
      BindingsStopAtFailure(entries, n + 1);
    } else {
      assert entries[..n] == entries;
    }
  }

  /** parseBindings fails exactly when some binding header carries a value that is not a string. */
  lemma {:induction false} BindingsFailure(entries: seq<Entry>)
    ensures Bindings(entries).Failure?
            <==> exists i | 0 <= i < |entries| :: BindingName(entries[i].0).Some? && !entries[i].1.Text?
    ensures Bindings(entries).Failure? ==> Bindings(entries).error == ClassCastException
  {
    if |entries| > 0 {
      var n := |entries| - 1;
      var prev := entries[..n];
      BindingsSnoc(entries, n);
      assert entries[..n + 1] == entries;
      BindingsFailure(prev);
      if Bindings(prev).Success? {
        BindStep(Bindings(prev).value, entries[n]);
      }
      BadBindingSnoc(entries);
    }
  }

  /** A bad binding header is among the entries iff it is among all but the last, or is the last. */
  lemma BadBindingSnoc(entries: seq<Entry>)
    requires |entries| > 0
    ensures var n := |entries| - 1;
            (exists i | 0 <= i < |entries| :: BindingName(entries[i].0).Some? && !entries[i].1.Text?)
            <==> (exists i | 0 <= i < n :: BindingName(entries[..n][i].0).Some? && !entries[..n][i].1.Text?)
                 || (BindingName(entries[n].0).Some? && !entries[n].1.Text?)
  {
    var n := |entries| - 1;
    var prev := entries[..n];
    if exists i | 0 <= i < |entries| :: BindingName(entries[i].0).Some? && !entries[i].1.Text? {
      var i :| 0 <= i < |entries| && BindingName(entries[i].0).Some? && !entries[i].1.Text?;
      if i < n {
        assert prev[i] == entries[i];
      }
    }
  }

  /**
   * One step of parseBindings by what the header is: a non-binding header changes
   * nothing, a binding header with a non-string value fails the cast, and any other
   * binding header puts its node under its name.
   */
  lemma BindStep(bindings: map<string, RdfNode>, entry: Entry)
    ensures Bind(bindings, entry) ==
            if BindingName(entry.0).None? then Success(bindings)
            else if !entry.1.Text? then Failure(ClassCastException)
            else Success(bindings[BindingName(entry.0).value := BindingNode(entry.0, entry.1.text)])
  {
    if BindingName(entry.0).Some? {
      ExtractBindingNameOfBindingKey(entry.0);
      BindingPrefixesExclusive(entry.0);
    }
  }

  /** When parseBindings succeeds, a variable is bound exactly when some binding header names it. */
  lemma {:induction false} BindingsDomain(entries: seq<Entry>, name: string)
    requires Bindings(entries).Success?
    ensures name in Bindings(entries).value
            <==> exists i | 0 <= i < |entries| :: BindingName(entries[i].0) == Some(name)
  {
    if |entries| > 0 {
      var prev := entries[..|entries| - 1];
      var last := entries[|entries| - 1];
      BindingsSnoc(entries, |entries| - 1);
      assert entries[..|entries|] == entries;
      BindingsDomain(prev, name);
      BindStep(Bindings(prev).value, last);
      if exists i | 0 <= i < |prev| :: BindingName(prev[i].0) == Some(name) {
        var i :| 0 <= i < |prev| && BindingName(prev[i].0) == Some(name);
        assert entries[i] == prev[i];
      }
      if exists i | 0 <= i < |entries| :: BindingName(entries[i].0) == Some(name) {
        var i :| 0 <= i < |entries| && BindingName(entries[i].0) == Some(name);
        if i < |prev| {
          assert prev[i] == entries[i];
        }
      }
    }
  }

  /**
   * When parseBindings succeeds, a binding header that no later header overrides has
   * a string value, and its name is bound to its node: the last header of a name wins.
   */
  lemma {:induction false} BindingsLastWins(entries: seq<Entry>, i: nat)
    requires Bindings(entries).Success?
    requires i < |entries| && BindingName(entries[i].0).Some?
    requires forall j | i < j < |entries| :: BindingName(entries[j].0) != BindingName(entries[i].0)
    ensures entries[i].1.Text?
    ensures BindingName(entries[i].0).value in Bindings(entries).value
    ensures Bindings(entries).value[BindingName(entries[i].0).value] == BindingNode(entries[i].0, entries[i].1.text)
  {
    var prev := entries[..|entries| - 1];
    var last := entries[|entries| - 1];
    BindingsSnoc(entries, |entries| - 1);
    assert entries[..|entries|] == entries;
    BindStep(Bindings(prev).value, last);
    if i < |entries| - 1 {
      assert prev[i] == entries[i];
      forall j | i < j < |prev| ensures BindingName(prev[j].0) != BindingName(prev[i].0) {
        assert prev[j] == entries[j];
      }
      BindingsLastWins(prev, i);
    }
  }

  /** Headers that are not bindings, appended after the others, do not change what parseBindings builds. */
  lemma {:induction false} NonBindingSuffixIgnored(entries: seq<Entry>, others: seq<Entry>)
    requires forall i | 0 <= i < |others| :: BindingName(others[i].0).None?
    ensures Bindings(entries + others) == Bindings(entries)
    decreases |others|
  {
    if |others| == 0 {
      assert entries + others == entries;
    } else {
      var front := others[..|others| - 1];
      assert (entries + others)[..|entries + others| - 1] == entries + front;
      NonBindingSuffixIgnored(entries, front);
      var all := entries + others;
      BindingsSnoc(all, |all| - 1);
      assert all[..|all|] == all;
      if Bindings(entries).Success? {
        BindStep(Bindings(entries).value, others[|others| - 1]);
      }
    }
  }

  /** Headers that are not bindings, wherever they stand among the others, do not change what parseBindings builds. */
  lemma {:induction false} NonBindingHeadersIgnored(entries: seq<Entry>, others: seq<Entry>, rest: seq<Entry>)
    requires forall i | 0 <= i < |others| :: BindingName(others[i].0).None?
    ensures Bindings(entries + others + rest) == Bindings(entries + rest)
    decreases |rest|
  {
    if |rest| == 0 {
      assert entries + others + rest == entries + others;
      assert entries + rest == entries;
      NonBindingSuffixIgnored(entries, others);
    } else {
      var front := rest[..|rest| - 1];
      var all, kept := entries + others + rest, entries + rest;
      assert all[..|all| - 1] == entries + others + front;
      assert kept[..|kept| - 1] == entries + front;
      assert all[|all| - 1] == kept[|kept| - 1];
      NonBindingHeadersIgnored(entries, others, front);
      BindingsSnoc(all, |all| - 1);
      BindingsSnoc(kept, |kept| - 1);
      assert all[..|all|] == all;
      assert kept[..|kept|] == kept;
    }
  }

  /** A key made of a binding prefix and a name without line terminators binds that name. */
  lemma BindingKeyName(prefix: string, name: string)
    requires prefix == LiteralBindingPrefix || prefix == UriBindingPrefix
    requires |name| > 0 && forall i | 0 <= i < |name| :: !IsLineTerminator(name[i])
    ensures BindingName(prefix + name) == Some(name)
    ensures BindingNode(prefix + name, "") == if prefix == LiteralBindingPrefix then Literal("") else Resource("")
  {
    var key := prefix + name;
    assert key[..|prefix|] == prefix;
    assert key[|prefix|..] == name;
    forall i | |prefix| <= i < |key| ensures !IsLineTerminator(key[i]) {
      assert key[i] == name[i - |prefix|];
    }
    BindingPrefixesExclusive(key);
  }

  /** A literal binding, a URI binding whose name has a dash, and an ordinary header. */
  lemma BindingsExample()
    ensures Bindings([(LiteralBindingPrefix + "title", Text("Hello")),
                      (UriBindingPrefix + "my-subject", Text("http://example.org/s")),
                      ("CamelFcrepoUri", Text("http://example.org/r"))])
            == Success(map["title" := Literal("Hello"), "my-subject" := Resource("http://example.org/s")])
  {
    var e0: Entry := (LiteralBindingPrefix + "title", Text("Hello"));
    var e1: Entry := (UriBindingPrefix + "my-subject", Text("http://example.org/s"));
    var e2: Entry := ("CamelFcrepoUri", Text("http://example.org/r"));
    BindingKeyName(LiteralBindingPrefix, "title");
    BindingKeyName(UriBindingPrefix, "my-subject");
    assert BindingName(e2.0).None?;
    var es := [e0, e1, e2];
    var m1 := map["title" := Literal("Hello")];
    var m2 := m1["my-subject" := Resource("http://example.org/s")];
    BindingsSnoc(es, 0);
    assert es[..0] == [];
    BindStep(map[], e0);
    assert Bindings(es[..1]) == Success(m1);
    BindingsSnoc(es, 1);
    BindStep(m1, e1);
    assert Bindings(es[..2]) == Success(m2);
    BindingsSnoc(es, 2);
    BindStep(m2, e2);
    assert es[..3] == es;
  }

  // ---- setInitialBindings ----

  /** The initial binding installed on the query execution: none for an empty binding map. */
  function InitialBinding(bindings: map<string, RdfNode>): (installed: Option<map<string, RdfNode>>)
    ensures installed.None? <==> |bindings| == 0
    ensures installed.Some? ==> installed.value == bindings
  {
    if |bindings| == 0 then None else Some(bindings)
  }

  /** setInitialBindings: copies every binding into a solution map, and installs it only if there is one. */
  method SetInitialBindings(bindings: map<string, RdfNode>) returns (installed: Option<map<string, RdfNode>>)
    ensures installed == InitialBinding(bindings)
  {
    if |bindings| == 0 {
      return None;
    }
    var solution: map<string, RdfNode> := map[];
    var remaining := bindings.Keys;
    while remaining != {}
      invariant remaining <= bindings.Keys
      invariant solution.Keys == bindings.Keys - remaining
      invariant forall k | k in solution :: solution[k] == bindings[k]
      decreases |remaining|
    {
      var k :| k in remaining;
      solution := solution[k := bindings[k]];
      remaining := remaining - {k};
    }
    assert solution.Keys == bindings.Keys;
    assert solution == bindings;
    return Some(solution);
  }

  // ---- executeQuery ----

  /** The form of a parsed SPARQL query. */
  datatype QueryForm = SelectQuery | ConstructQuery | AskQuery | DescribeQuery

  /** The writer the results go through. */
  datatype Writer =
    | FormattedResults(format: string)   // ResultSetFormatter with the format ResultsFormat.lookup found
    | CsvWithoutHeaderResults            // CsvWithoutHeaderOutput
    | ModelWriter(lang: Option<string>)  // Model.write with resultsFormatName as the language

  /** What the query execution writes: through which writer, with which initial binding. */
  datatype Output = Output(writer: Writer, initialBinding: Option<map<string, RdfNode>>)

  /** `QueryFactory.create(query)`: the query's form, or what the parser throws. */
  type QueryParser = Option<string> -> Result<QueryForm, Exception>

  /** `ResultsFormat.lookup(name)`: the results format of that name, or null. */
  type FormatLookup = Option<string> -> Option<string>

  /** Whether Jena has an RDF writer for the language (null meaning its default). */
  type WriterRegistry = Option<string> -> bool

  /** Java's string conversion of a possibly null string. */
  function NullableText(s: Option<string>): string
  {
    if s.Some? then s.value else "null"
  }

  function UnknownFormatMessage(resultsFormatName: Option<string>): string
  {
    "Unknown resultsFormatName: " + NullableText(resultsFormatName)
  }

  const OnlySelectAndConstructMessage := "Only SELECT and CONSTRUCT queries are allowed as values of query"

  lemma LowerCsvWithoutHeader()
    ensures ToLowerCase(CsvWithoutHeader) == "csvwithoutheader"
  {
    var lower := ToLowerCase(CsvWithoutHeader);
    forall i | 0 <= i < |lower| ensures lower[i] == "csvwithoutheader"[i] {
    }
  }

  /** The name is csvWithoutHeader once both are lower-cased. */
  predicate IsCsvWithoutHeader(name: string)
  {
    ToLowerCase(name) == ToLowerCase(CsvWithoutHeader)
  }

  /** The writer for a SELECT query's results, or the IllegalArgumentException for an unknown format. */
  function SelectWriter(resultsFormatName: Option<string>, lookup: FormatLookup): (r: Result<Writer, Exception>)
    ensures r.Success? ==> r.value.FormattedResults? || r.value.CsvWithoutHeaderResults?
    ensures r.Success? && r.value.CsvWithoutHeaderResults? ==> lookup(resultsFormatName).None?
    ensures r.Failure? ==> r.error == IllegalArgumentException(UnknownFormatMessage(resultsFormatName))
  {
    match lookup(resultsFormatName)
    case Some(format) => Success(FormattedResults(format))
    case None =>
      if resultsFormatName.Some? && IsCsvWithoutHeader(resultsFormatName.value) then Success(CsvWithoutHeaderResults)
      else Failure(IllegalArgumentException(UnknownFormatMessage(resultsFormatName)))
  }

  /** The writer for a query of the given form, or why there is none. */
  function WriterFor(form: QueryForm, resultsFormatName: Option<string>, lookup: FormatLookup,
                     hasWriter: WriterRegistry): (r: Result<Writer, Exception>)
    ensures r.Failure? ==> r.error.IllegalArgumentException?
    ensures r.Success? ==> (form == SelectQuery && !r.value.ModelWriter?) || (form == ConstructQuery && r.value.ModelWriter?)
  {
    match form
    case SelectQuery => SelectWriter(resultsFormatName, lookup)
    case ConstructQuery =>
      if hasWriter(resultsFormatName) then Success(ModelWriter(resultsFormatName))
      else Failure(IllegalArgumentException(UnknownFormatMessage(resultsFormatName)))
    case _ => Failure(IllegalArgumentException(OnlySelectAndConstructMessage))
  }

  /** An independent statement of which form and name combinations have a writer. */
  predicate Supported(form: QueryForm, resultsFormatName: Option<string>, lookup: FormatLookup, hasWriter: WriterRegistry)
  {
    (form == SelectQuery
     && (lookup(resultsFormatName).Some?
         || (resultsFormatName.Some? && SpelledInAnyCase(resultsFormatName.value, "csvwithoutheader"))))
    || (form == ConstructQuery && hasWriter(resultsFormatName))
  }

  /** The dispatch finds a writer exactly for the supported combinations, and otherwise raises IllegalArgumentException. */
  lemma WriterForSupported(form: QueryForm, resultsFormatName: Option<string>, lookup: FormatLookup,
                           hasWriter: WriterRegistry)
    ensures WriterFor(form, resultsFormatName, lookup, hasWriter).Success?
            <==> Supported(form, resultsFormatName, lookup, hasWriter)
    ensures WriterFor(form, resultsFormatName, lookup, hasWriter).Failure?
            ==> WriterFor(form, resultsFormatName, lookup, hasWriter).error.IllegalArgumentException?
  {
    LowerCsvWithoutHeader();
    if resultsFormatName.Some? {
      ToLowerCaseMatches(resultsFormatName.value, "csvwithoutheader");
    }
  }

  /** Only SELECT and CONSTRUCT queries have a writer. */
  lemma OtherFormsRejected(form: QueryForm, resultsFormatName: Option<string>, lookup: FormatLookup,
                           hasWriter: WriterRegistry)
    requires form != SelectQuery && form != ConstructQuery
    ensures WriterFor(form, resultsFormatName, lookup, hasWriter)
            == Failure(IllegalArgumentException(OnlySelectAndConstructMessage))
  {
  }

  /** Different spellings of csvWithoutHeader select the header-less CSV writer when no format has that name. */
  lemma CsvWithoutHeaderExamples(lookup: FormatLookup)
    requires lookup(Some("CSVWITHOUTHEADER")).None? && lookup(Some("csvWithoutHeader")).None?
    ensures SelectWriter(Some("CSVWITHOUTHEADER"), lookup) == Success(CsvWithoutHeaderResults)
    ensures SelectWriter(Some("csvWithoutHeader"), lookup) == Success(CsvWithoutHeaderResults)
  {
    var target := ToLowerCase(CsvWithoutHeader);
    var upper := ToLowerCase("CSVWITHOUTHEADER");
    assert upper == target by {
      forall i | 0 <= i < |upper| ensures upper[i] == target[i] {
      }
    }
  }

  /** An unknown format name, and a null one, are rejected with the name in the message. */
  lemma UnknownFormatExamples(lookup: FormatLookup)
    requires lookup(Some("csv-with-header")).None? && lookup(None).None?
    ensures SelectWriter(Some("csv-with-header"), lookup)
            == Failure(IllegalArgumentException("Unknown resultsFormatName: " + "csv-with-header"))
    ensures SelectWriter(None, lookup) == Failure(IllegalArgumentException("Unknown resultsFormatName: " + "null"))
  {
    assert |ToLowerCase("csv-with-header")| != |ToLowerCase(CsvWithoutHeader)|;
  }

  /**
   * executeQuery up to the output: the bindings are parsed first, then the query, then
   * the writer is chosen; the initial binding goes with it.
   */
  function QueryOutcome(entries: seq<Entry>, query: Option<string>, resultsFormatName: Option<string>,
                        parseQuery: QueryParser, lookup: FormatLookup, hasWriter: WriterRegistry)
    : (r: Result<Output, Exception>)
    ensures r.Success? ==> Bindings(entries).Success? && r.value.initialBinding == InitialBinding(Bindings(entries).value)
  {
    match Bindings(entries)
    case Failure(e) => Failure(e)
    case Success(bindings) =>
      match parseQuery(query)
      case Failure(e) => Failure(e)
      case Success(form) =>
        match WriterFor(form, resultsFormatName, lookup, hasWriter)
        case Failure(e) => Failure(e)
        case Success(writer) => Success(Output(writer, InitialBinding(bindings)))
  }

  /** The entries of a header map in an iteration order that lists every key once. */
  function Entries(headers: map<string, HeaderValue>, order: seq<string>): (entries: seq<Entry>)
    requires forall i | 0 <= i < |order| :: order[i] in headers
    ensures |entries| == |order|
    ensures forall i | 0 <= i < |order| :: entries[i] == (order[i], headers[order[i]])
  {
    if |order| == 0 then [] else [(order[0], headers[order[0]])] + Entries(headers, order[1..])
  }

  /** A listing of the keys of headers, each exactly once: the order the header map iterates in. */
  predicate IsIterationOrder(headers: map<string, HeaderValue>, order: seq<string>)
  {
    (forall i | 0 <= i < |order| :: order[i] in headers)
    && (forall k | k in headers :: k in order)
    && (forall i, j | 0 <= i < j < |order| :: order[i] != order[j])
  }

  /** The processor: its query and results-format name, both null until set. */
  class SparqlQueryProcessor {
    var query: Option<string>
    var resultsFormatName: Option<string>

    constructor ()
      ensures query == None && resultsFormatName == None
    {
      query := None;
      resultsFormatName := None;
    }

    method SetQuery(query: Option<string>)
      modifies this
      ensures this.query == query && resultsFormatName == old(resultsFormatName)
    {
      this.query := query;
    }

    method SetResultsFormatName(resultsFormatName: Option<string>)
      modifies this
      ensures this.resultsFormatName == resultsFormatName && query == old(query)
    {
      this.resultsFormatName := resultsFormatName;
    }

    /** executeQuery(in), up to the output written; `order` is the iteration order of the message's headers. */
    method ExecuteQuery(message: Message, order: seq<string>, parseQuery: QueryParser, lookup: FormatLookup,
                        hasWriter: WriterRegistry) returns (r: Result<Output, Exception>)
      requires IsIterationOrder(message.headers, order)
      ensures r == QueryOutcome(Entries(message.headers, order), query, resultsFormatName, parseQuery, lookup, hasWriter)
    {
      var bindings := ParseBindings(Entries(message.headers, order));
      if bindings.Failure? {
        return Failure(bindings.error);
      }
      var q := parseQuery(query);
      if q.Failure? {
        return Failure(q.error);
      }
      if q.value == SelectQuery {
        var installed := SetInitialBindings(bindings.value);
        var writer := SelectWriter(resultsFormatName, lookup);
        if writer.Failure? {
          return Failure(writer.error);
        }
        return Success(Output(writer.value, installed));
      } else if q.value == ConstructQuery {
        var installed := SetInitialBindings(bindings.value);
        if !hasWriter(resultsFormatName) {
          return Failure(IllegalArgumentException(UnknownFormatMessage(resultsFormatName)));
        }
        return Success(Output(ModelWriter(resultsFormatName), installed));
      } else {
        return Failure(IllegalArgumentException(OnlySelectAndConstructMessage));
      }
    }

    /**
     * process(exchange): the body becomes what the chosen writer produces (`render`
     * stands for running the query and writing); on an exception the message is unchanged.
     */
    method Process(exchange: Exchange, order: seq<string>, parseQuery: QueryParser, lookup: FormatLookup,
                   hasWriter: WriterRegistry, render: Output -> string) returns (completion: Completion)
      requires IsIterationOrder(exchange.message.headers, order)
      modifies exchange.message
      ensures var r := QueryOutcome(Entries(old(exchange.message.headers), order), query, resultsFormatName,
                                    parseQuery, lookup, hasWriter);
              (r.Success? ==> completion == Normal && exchange.message.body == render(r.value))
              && (r.Failure? ==> completion == Thrown(r.error) && exchange.message.body == old(exchange.message.body))
      ensures exchange.message.headers == old(exchange.message.headers)
    {
      var message := exchange.message;
      var r := ExecuteQuery(message, order, parseQuery, lookup, hasWriter);
      if r.Failure? {
        return Thrown(r.error);
      }
      message.body := render(r.value);
      return Normal;
    }
  }

  /** A header value that is not a string, under a binding key, fails executeQuery before the query is parsed. */
  lemma BadBindingValueFailsFirst(entries: seq<Entry>, query: Option<string>, resultsFormatName: Option<string>,
                                  parseQuery: QueryParser, lookup: FormatLookup, hasWriter: WriterRegistry, i: nat)
    requires i < |entries| && BindingName(entries[i].0).Some? && !entries[i].1.Text?
    ensures QueryOutcome(entries, query, resultsFormatName, parseQuery, lookup, hasWriter) == Failure(ClassCastException)
  {
    BindingsFailure(entries);
  }

  /**
   * A well-formed SELECT or CONSTRUCT query with a usable results format succeeds once
   * the bindings parse, and carries the bindings as initial binding only when there is one.
   */
  lemma SupportedQuerySucceeds(entries: seq<Entry>, query: Option<string>, resultsFormatName: Option<string>,
                               parseQuery: QueryParser, lookup: FormatLookup, hasWriter: WriterRegistry)
    requires Bindings(entries).Success? && parseQuery(query).Success?
    requires Supported(parseQuery(query).value, resultsFormatName, lookup, hasWriter)
    ensures var r := QueryOutcome(entries, query, resultsFormatName, parseQuery, lookup, hasWriter);
            r.Success?
            && (r.value.initialBinding.Some? <==> |Bindings(entries).value| > 0)
  {
    WriterForSupported(parseQuery(query).value, resultsFormatName, lookup, hasWriter);
  }
}
