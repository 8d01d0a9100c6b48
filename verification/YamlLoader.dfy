/**
 The loader (3rdparty/serde_yaml/src/loader.rs): parser events in, one document out, with a
 table from alias ids to positions of events.

 The id given to an anchor is the number of anchor names seen so far, so an anchor that is
 defined again gets an id that the next anchor gets too. `AliasResolves` says exactly when
 that hurts.
 */
module YamlLoader {
  import opened Wrappers
  import opened YamlScalars
  import opened YamlDocument

  datatype ParseEvent =
    | StreamStart
    | StreamEnd
    | DocumentStart
    | DocumentEnd
    | ParsedAlias(name: string)
    | ParsedScalar(anchor: Option<string>, tag: Option<string>, text: string, style: Style)
    | ParsedSequenceStart(anchor: Option<string>, tag: Option<string>)
    | ParsedSequenceEnd
    | ParsedMappingStart(anchor: Option<string>, tag: Option<string>)
    | ParsedMappingEnd

  /** The events that make up the content of a document. */
  predicate IsContent(e: ParseEvent) {
    !e.StreamStart? && !e.StreamEnd? && !e.DocumentStart? && !e.DocumentEnd?
  }

  function AnchorOf(e: ParseEvent): Option<string> {
    match e
    case ParsedScalar(anchor, _, _, _) => anchor
    case ParsedSequenceStart(anchor, _) => anchor
    case ParsedMappingStart(anchor, _) => anchor
    case _ => None
  }

  predicate Anchored(raw: seq<ParseEvent>, i: nat) {
    i < |raw| && AnchorOf(raw[i]).Some?
  }

  // ---------------------------------------------------------------------------------
  // What a document loads to
  // ---------------------------------------------------------------------------------

  /** The id each anchor name has after `raw`: how many names there were before it. */
  function Anchors(raw: seq<ParseEvent>): map<string, nat> {
    if raw == [] then map[]
    else
      var before := Anchors(raw[..|raw| - 1]);
      match AnchorOf(raw[|raw| - 1])
      case None => before
      case Some(name) => before[name := |before|]
  }

  /** The anchor names defined in `raw`. */
  function Names(raw: seq<ParseEvent>): set<string> {
    Anchors(raw).Keys
  }

  /** The id of an anchor defined at `i`. */
  function IdAt(raw: seq<ParseEvent>, i: nat): nat
    requires i <= |raw|
  {
    |Anchors(raw[..i])|
  }

  /** The most recent definition of `name` before `k`. */
  function LastDefinition(raw: seq<ParseEvent>, k: nat, name: string): (i: Option<nat>)
    requires k <= |raw|
    ensures i.Some? ==> i.value < k && AnchorOf(raw[i.value]) == Some(name)
    ensures forall j :: (if i.Some? then i.value + 1 else 0) <= j < k ==> AnchorOf(raw[j]) != Some(name)
  {
    if k == 0 then None
    else if AnchorOf(raw[k - 1]) == Some(name) then Some(k - 1)
    else LastDefinition(raw, k - 1, name)
  }

  function LoadedEvent(raw: seq<ParseEvent>, k: nat): Event
    requires k < |raw|
  {
    match raw[k]
    case ParsedAlias(name) =>
      var anchors := Anchors(raw[..k]);
      if name in anchors then Alias(anchors[name]) else Void
    case ParsedScalar(_, tag, text, style) => Scalar(tag, text, style)
    case ParsedSequenceStart(_, tag) => SequenceStart(tag)
    case ParsedSequenceEnd => SequenceEnd
    case ParsedMappingStart(_, tag) => MappingStart(tag)
    case ParsedMappingEnd => MappingEnd
    case _ => Void
  }

  function LoadedEvents(raw: seq<ParseEvent>): (es: seq<Event>)
    ensures |es| == |raw|
  {
    LoadedUpTo(raw, |raw|)
  }

  function LoadedUpTo(raw: seq<ParseEvent>, n: nat): (es: seq<Event>)
    requires n <= |raw|
    ensures |es| == n
  {
    if n == 0 then [] else LoadedUpTo(raw, n - 1) + [LoadedEvent(raw, n - 1)]
  }

  lemma {:induction false} LoadedAt(raw: seq<ParseEvent>, n: nat, k: nat)
    requires k < n <= |raw|
    ensures LoadedUpTo(raw, n)[k] == LoadedEvent(raw, k)
  {
    if k < n - 1 {
      LoadedAt(raw, n - 1, k);
    }
  }

  /** The alias table: later definitions with the same id replace earlier ones. */
  function Table(raw: seq<ParseEvent>): map<nat, nat> {
    if raw == [] then map[]
    else
      var last := |raw| - 1;
      var before := Table(raw[..last]);
      if AnchorOf(raw[last]).Some? then before[IdAt(raw, last) := last] else before
  }

  /** Aliases in `raw` name anchors that come before them. */
  predicate AliasesDefined(raw: seq<ParseEvent>) {
    forall k :: 0 <= k < |raw| && raw[k].ParsedAlias? ==> raw[k].name in Names(raw[..k])
  }

  datatype Stop = AtDocumentEnd | AtStreamEnd | AtParseError | AtUnknownAlias

  datatype Reading = Reading(raw: seq<ParseEvent>, stop: Stop, next: nat)

  /** The content of the document that starts at `at`, after `raw`, and why it stops. */
  function ReadDocument(input: seq<ParseEvent>, at: nat, raw: seq<ParseEvent>): Reading
    decreases |input| - at
  {
    if at >= |input| then Reading(raw, AtParseError, at)
    else
      var e := input[at];
      match e
      case StreamStart => ReadDocument(input, at + 1, raw)
      case DocumentStart => ReadDocument(input, at + 1, raw)
      case StreamEnd => Reading(raw, AtStreamEnd, at + 1)
      case DocumentEnd => Reading(raw, AtDocumentEnd, at + 1)
      case ParsedAlias(name) =>
        if name in Names(raw) then ReadDocument(input, at + 1, raw + [e]) else Reading(raw, AtUnknownAlias, at + 1)
      case _ => ReadDocument(input, at + 1, raw + [e])
  }

  function StopError(stop: Stop): Option<Error> {
    match stop
    case AtParseError => Some(ParseError)
    case AtUnknownAlias => Some(UnknownAnchor)
    case _ => None
  }

  function LoadedDocument(r: Reading): Document {
    Document(if r.raw == [] && r.stop.AtStreamEnd? then [Void] else LoadedEvents(r.raw),
             StopError(r.stop), Table(r.raw))
  }

  class Loader {
    const input: seq<ParseEvent>
    var at: nat
    var parserGone: bool
    var documentCount: nat

    constructor (input: seq<ParseEvent>)
      ensures this.input == input && at == 0 && !parserGone && documentCount == 0
    {
      this.input := input;
      at, parserGone, documentCount := 0, false, 0;
    }

    /** The next document, `None` when the stream has none left. */
    method NextDocument() returns (document: Option<Document>)
      modifies this
      ensures old(parserGone) ==> document.None? && parserGone && at == old(at)
      ensures var r := ReadDocument(input, old(at), []);
              !old(parserGone) ==>
                at == r.next && parserGone == r.stop.AtStreamEnd?
                && documentCount == old(documentCount) + 1
                && document == if r.stop.AtStreamEnd? && old(documentCount) > 0 then None else Some(LoadedDocument(r))
    {
      if parserGone { return None; }
      var first := documentCount == 0;
      documentCount := documentCount + 1;
      var anchors: map<string, nat> := map[];
      var events: seq<Event> := [];
      var aliases: map<nat, nat> := map[];
      ghost var raw: seq<ParseEvent> := [];
      ghost var count := documentCount;
      while true
        invariant ReadDocument(input, old(at), []) == ReadDocument(input, at, raw)
        invariant !parserGone && documentCount == count
        invariant events == LoadedEvents(raw) && aliases == Table(raw) && anchors == Anchors(raw)
        decreases |input| - at
      {
        if at >= |input| {
          return Some(Document(events, Some(ParseError), aliases));
        }
        var e := input[at];
        at := at + 1;
        if e.StreamStart? || e.DocumentStart? { continue; }
        if e.StreamEnd? {
          parserGone := true;
          if !first { return None; }
          if events == [] { events := [Void]; }
          return Some(Document(events, None, aliases));
        }
        if e.DocumentEnd? {
          return Some(Document(events, None, aliases));
        }
        if e.ParsedAlias? && e.name !in anchors {
          return Some(Document(events, Some(UnknownAnchor), aliases));
        }
        LoadStep(raw, e);
        var anchor := AnchorOf(e);
        var event := Translate(e, anchors);
        if anchor.Some? {
          var id := |anchors|;
          anchors := anchors[anchor.value := id];
          aliases := aliases[id := |events|];
        }
        events := events + [event];
        raw := raw + [e];
      }
    }
  }

  /** The loaded form of an event; its anchor goes to the table instead. */
  function Translate(e: ParseEvent, anchors: map<string, nat>): Event
    requires e.ParsedAlias? ==> e.name in anchors
  {
    match e
    case ParsedAlias(name) => Alias(anchors[name])
    case ParsedScalar(_, tag, text, style) => Scalar(tag, text, style)
    case ParsedSequenceStart(_, tag) => SequenceStart(tag)
    case ParsedSequenceEnd => SequenceEnd
    case ParsedMappingStart(_, tag) => MappingStart(tag)
    case ParsedMappingEnd => MappingEnd
    case _ => Void
  }

  /** One more event read. */
  lemma {:induction false} LoadStep(raw: seq<ParseEvent>, e: ParseEvent)
    requires IsContent(e) && (e.ParsedAlias? ==> e.name in Anchors(raw))
    ensures LoadedEvents(raw + [e]) == LoadedEvents(raw) + [Translate(e, Anchors(raw))]
    ensures AnchorOf(e).None? ==> Anchors(raw + [e]) == Anchors(raw) && Table(raw + [e]) == Table(raw)
    ensures AnchorOf(e).Some? ==>
              Anchors(raw + [e]) == Anchors(raw)[AnchorOf(e).value := |Anchors(raw)|]
              && Table(raw + [e]) == Table(raw)[|Anchors(raw)| := |raw|]
  {
    assert (raw + [e])[..|raw|] == raw;
    GrowUpTo(raw, e, |raw|);
  }

  /** What was loaded does not change when more is read. */
  lemma {:induction false} GrowUpTo(raw: seq<ParseEvent>, e: ParseEvent, n: nat)
    requires n <= |raw|
    ensures LoadedUpTo(raw + [e], n) == LoadedUpTo(raw, n)
  {
    if n > 0 {
      GrowUpTo(raw, e, n - 1);
      assert (raw + [e])[..n - 1] == raw[..n - 1];
    }
  }

  // ---------------------------------------------------------------------------------
  // Aliases
  // ---------------------------------------------------------------------------------

  /** Every id given out is in the table, at the event that got it or a later one. */
  lemma {:induction false} TableKeeps(raw: seq<ParseEvent>, i: nat)
    requires Anchored(raw, i)
    ensures IdAt(raw, i) in Table(raw) && Table(raw)[IdAt(raw, i)] >= i
  {
    var last := |raw| - 1;
    if i < last {
      assert raw[..i] == raw[..last][..i];
      TableKeeps(raw[..last], i);
    }
  }

  /** An entry of the table is an event that got that id. */
  lemma {:induction false} TableEntry(raw: seq<ParseEvent>, id: nat)
    requires id in Table(raw)
    ensures Anchored(raw, Table(raw)[id]) && IdAt(raw, Table(raw)[id]) == id
  {
    var last := |raw| - 1;
    if !(AnchorOf(raw[last]).Some? && id == IdAt(raw, last)) {
      TableEntry(raw[..last], id);
      var i := Table(raw)[id];
      assert raw[..i] == raw[..last][..i];
    }
  }

  /** Reading keeps to content, and takes no alias before its anchor. */
  lemma {:induction false} ReadingIsDefined(input: seq<ParseEvent>, at: nat, raw: seq<ParseEvent>)
    requires AliasesDefined(raw) && forall k :: 0 <= k < |raw| ==> IsContent(raw[k])
    ensures var r := ReadDocument(input, at, raw);
            AliasesDefined(r.raw) && forall k :: 0 <= k < |r.raw| ==> IsContent(r.raw[k])
    decreases |input| - at
  {
    if at < |input| {
      var e := input[at];
      if e.StreamStart? || e.DocumentStart? {
        ReadingIsDefined(input, at + 1, raw);
      } else if IsContent(e) && (e.ParsedAlias? ==> e.name in Names(raw)) {
        var next := raw + [e];
        forall k | 0 <= k < |next| && next[k].ParsedAlias? ensures next[k].name in Names(next[..k]) {
          assert next[..k] == raw[..k];
          assert raw[..|raw|] == raw;
        }
        ReadingIsDefined(input, at + 1, next);
      }
    }
  }

  lemma {:induction false} DefinedNames(raw: seq<ParseEvent>, k: nat, name: string)
    requires k <= |raw|
    ensures var i := LastDefinition(raw, k, name);
            (name in Names(raw[..k]) <==> i.Some?)
            && (i.Some? ==> Anchors(raw[..k])[name] == IdAt(raw, i.value))
  {
    if k > 0 {
      assert raw[..k][..k - 1] == raw[..k - 1];
      DefinedNames(raw, k - 1, name);
    }
  }

  predicate IsNodeStart(e: Event) {
    e.Scalar? || e.SequenceStart? || e.MappingStart?
  }

  /** Over every stream, an alias in a document leads to the start of a node inside it. */
  lemma {:induction false} AliasesLead(r: Reading, input: seq<ParseEvent>, at: nat, k: nat)
    requires r == ReadDocument(input, at, [])
    requires var d := LoadedDocument(r); k < |d.events| && d.events[k].Alias?
    ensures var d := LoadedDocument(r);
            d.events[k].id in d.aliases
            && d.aliases[d.events[k].id] < |d.events|
            && IsNodeStart(d.events[d.aliases[d.events[k].id]])
  {
    ReadingIsDefined(input, at, []);
    LoadedAt(r.raw, |r.raw|, k);
    DefinedNames(r.raw, k, r.raw[k].name);
    TableKeeps(r.raw, LastDefinition(r.raw, k, r.raw[k].name).value);
    TableLeads(r, LoadedDocument(r).events[k].id);
  }

  /** Every table entry is a node start, whether or not an alias uses it. */
  lemma {:induction false} TableLeads(r: Reading, id: nat)
    requires id in LoadedDocument(r).aliases
    ensures var d := LoadedDocument(r);
            d.aliases[id] < |d.events| && IsNodeStart(d.events[d.aliases[id]])
  {
    TableEntry(r.raw, id);
    LoadedAt(r.raw, |r.raw|, Table(r.raw)[id]);
  }

  lemma {:induction false} NamesGrow(raw: seq<ParseEvent>, i: nat, j: nat)
    requires i <= j <= |raw|
    ensures Names(raw[..i]) <= Names(raw[..j])
    ensures (forall k :: i <= k < j ==> AnchorOf(raw[k]).None?) ==> Names(raw[..i]) == Names(raw[..j])
    decreases j - i
  {
    if i < j {
      NamesGrow(raw, i, j - 1);
      assert raw[..j][..j - 1] == raw[..j - 1];
    }
  }

  lemma {:induction false} NamesAfter(raw: seq<ParseEvent>, i: nat)
    requires Anchored(raw, i)
    ensures Names(raw[..i + 1]) == Names(raw[..i]) + {AnchorOf(raw[i]).value}
  {
    assert raw[..i + 1][..i] == raw[..i];
  }

  lemma {:induction false} SubsetSize<T>(a: set<T>, b: set<T>)
    requires a <= b
    ensures |a| <= |b| && (|a| == |b| ==> a == b)
  {
    assert |b| == |a| + |b - a| by { assert b == a + (b - a); }
    if |a| == |b| { assert b - a == {}; }
  }

  /** The definition at `i` is the first of its name. */
  predicate FirstDefinition(raw: seq<ParseEvent>, i: nat)
    requires Anchored(raw, i)
  {
    AnchorOf(raw[i]).value !in Names(raw[..i])
  }

  /** No anchor is defined after `i`. */
  predicate LastAnchor(raw: seq<ParseEvent>, i: nat) {
    forall j :: i < j < |raw| ==> AnchorOf(raw[j]).None?
  }

  /** A definition keeps its id to itself exactly when it is the first of its name or the last anchor. */
  lemma {:induction false} IdIsKept(raw: seq<ParseEvent>, i: nat)
    requires Anchored(raw, i)
    ensures IdAt(raw, i) in Table(raw)
    ensures Table(raw)[IdAt(raw, i)] == i <==> FirstDefinition(raw, i) || LastAnchor(raw, i)
  {
    TableKeeps(raw, i);
    TableEntry(raw, IdAt(raw, i));
    NamesAfter(raw, i);
    var t := Table(raw)[IdAt(raw, i)];
    if FirstDefinition(raw, i) {
      if t > i {
        NamesGrow(raw, i + 1, t);
        SubsetSize(Names(raw[..i + 1]), Names(raw[..t]));
      }
    } else if !LastAnchor(raw, i) {
      var j := NextAnchor(raw, i + 1);
      NamesGrow(raw, i + 1, j);
      assert Names(raw[..j]) == Names(raw[..i + 1]) == Names(raw[..i]);
      TableKeeps(raw, j);
      assert t >= j;
    } else {
      assert AnchorOf(raw[t]).Some?;
    }
  }

  lemma {:induction false} NextAnchor(raw: seq<ParseEvent>, from: nat) returns (j: nat)
    requires exists k :: from <= k < |raw| && AnchorOf(raw[k]).Some?
    ensures from <= j && Anchored(raw, j) && forall k :: from <= k < j ==> AnchorOf(raw[k]).None?
    decreases |raw| - from
  {
    j := from;
    if AnchorOf(raw[from]).None? {
      j := NextAnchor(raw, from + 1);
    }
  }

  /**
   An alias leads to the most recent node with its anchor, as section 3.2.2.2 of YAML 1.2.2
   has it, exactly when that anchor was new there or no anchor follows in the document.
   */
  lemma {:induction false} AliasResolves(raw: seq<ParseEvent>, k: nat)
    requires AliasesDefined(raw) && k < |raw| && raw[k].ParsedAlias?
    ensures LoadedEvent(raw, k).Alias? && LoadedEvent(raw, k).id in Table(raw)
    ensures var i := LastDefinition(raw, k, raw[k].name);
            i.Some?
            && (Table(raw)[LoadedEvent(raw, k).id] == i.value
                <==> FirstDefinition(raw, i.value) || LastAnchor(raw, i.value))
  {
    DefinedNames(raw, k, raw[k].name);
    IdIsKept(raw, LastDefinition(raw, k, raw[k].name).value);
  }

  predicate DistinctAnchors(raw: seq<ParseEvent>) {
    forall i, j :: 0 <= i < j < |raw| && AnchorOf(raw[i]).Some? ==> AnchorOf(raw[i]) != AnchorOf(raw[j])
  }

  /** With distinct anchors every alias leads to the node that has its anchor. */
  lemma {:induction false} DistinctAnchorsResolve(raw: seq<ParseEvent>, k: nat)
    requires AliasesDefined(raw) && DistinctAnchors(raw) && k < |raw| && raw[k].ParsedAlias?
    ensures LoadedEvent(raw, k).Alias? && LoadedEvent(raw, k).id in Table(raw)
    ensures var i := Table(raw)[LoadedEvent(raw, k).id];
            i < k && AnchorOf(raw[i]) == Some(raw[k].name)
  {
    DefinedNames(raw, k, raw[k].name);
    var i := LastDefinition(raw, k, raw[k].name).value;
    DefinedNames(raw, i, raw[k].name);
    AliasResolves(raw, k);
  }

  /** The shape that fails: an anchor defined twice, then another, then an alias to the first. */
  lemma {:induction false} ReusedAnchorMisleads(x: ParseEvent, y: ParseEvent, z: ParseEvent)
    requires AnchorOf(x) == AnchorOf(y) == Some("a") && AnchorOf(z) == Some("b")
    ensures var raw := [x, y, z, ParsedAlias("a")];
            LoadedEvent(raw, 3) == Alias(1) && 1 in Table(raw) && Table(raw)[1] == 2
  {
    var raw := [x, y, z, ParsedAlias("a")];
    assert raw[..0] == [] && raw[..1] == [x] && raw[..2] == [x, y] && raw[..3] == [x, y, z];
    assert [x][..0] == [] && [x, y][..1] == [x] && [x, y, z][..2] == [x, y];
    assert Anchors([x]) == map["a" := 0] && Anchors([x, y]) == map["a" := 1];
    assert Anchors([x, y, z]) == map["a" := 1, "b" := 1];
    assert Table([x, y, z]) == Table([x, y])[1 := 2];
    assert Table(raw) == Table([x, y, z]);
  }
}
