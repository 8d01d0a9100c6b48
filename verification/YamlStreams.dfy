/**
 Whole streams (3rdparty/serde_yaml/src/loader.rs and de.rs): anchors that no alias names do
 not matter; a second document, an unknown alias and a failing parser are errors.
 */
module YamlStreams {
  import opened Wrappers
  import opened YamlValues
  import opened YamlScalars
  import opened YamlSerializer
  import opened YamlDocument
  import opened YamlLoader
  import opened YamlDeserializer
  import opened YamlAliases
  import opened YamlReader
  import opened YamlRoundTrip

  // ---------------------------------------------------------------------------------
  // Anchors without aliases
  // ---------------------------------------------------------------------------------

  /** The event without its anchor. */
  function Bare(e: ParseEvent): ParseEvent {
    match e
    case ParsedScalar(_, tag, text, style) => ParsedScalar(None, tag, text, style)
    case ParsedSequenceStart(_, tag) => ParsedSequenceStart(None, tag)
    case ParsedMappingStart(_, tag) => ParsedMappingStart(None, tag)
    case _ => e
  }

  function AllBare(input: seq<ParseEvent>): (bare: seq<ParseEvent>)
    ensures |bare| == |input| && forall i :: 0 <= i < |input| ==> bare[i] == Bare(input[i])
  {
    seq(|input|, i requires 0 <= i < |input| => Bare(input[i]))
  }

  predicate NoAliases(input: seq<ParseEvent>) {
    forall i :: 0 <= i < |input| ==> !input[i].ParsedAlias?
  }

  lemma {:induction false} BareMore(raw: seq<ParseEvent>, e: ParseEvent)
    ensures AllBare(raw + [e]) == AllBare(raw) + [Bare(e)]
  {
  }

  /** The same document is read, but for the anchors. */
  lemma {:induction false} BareReading(input: seq<ParseEvent>, at: nat, raw: seq<ParseEvent>)
    requires NoAliases(input) && NoAliases(raw)
    ensures var r := ReadDocument(input, at, raw);
            ReadDocument(AllBare(input), at, AllBare(raw)) == Reading(AllBare(r.raw), r.stop, r.next) && NoAliases(r.raw)
    decreases |input| - at
  {
    if at < |input| {
      var e := input[at];
      if e.StreamStart? || e.DocumentStart? {
        BareReading(input, at + 1, raw);
      } else if IsContent(e) {
        BareMore(raw, e);
        BareReading(input, at + 1, raw + [e]);
      }
    }
  }

  lemma {:induction false} BareLoads(raw: seq<ParseEvent>, n: nat)
    requires NoAliases(raw) && n <= |raw|
    ensures LoadedUpTo(AllBare(raw), n) == LoadedUpTo(raw, n)
    ensures forall k :: 0 <= k < n ==> !LoadedUpTo(raw, n)[k].Alias?
  {
    if n > 0 { BareLoads(raw, n - 1); }
  }

  /** A tree without aliases expands to itself. */
  lemma {:induction false} PlainExpands(env: map<nat, Node>, n: Node)
    requires forall k :: 0 <= k < |Flat(n)| ==> !Flat(n)[k].Alias?
    ensures Expands(env, n, n) && Visits(env, n, n) == 0
    decreases n, 1
  {
    match n {
      case Coll(kind, tag, children, closed) =>
        var inside := FlatAll(children);
        forall k | 0 <= k < |inside| ensures !inside[k].Alias? { assert inside[k] == Flat(n)[k + 1]; }
        PlainAllExpand(env, children);
      case Leaf(_, _, _) =>
      case Ref(id) => assert Flat(n)[0].Alias?;
    }
  }

  lemma {:induction false} PlainAllExpand(env: map<nat, Node>, ns: seq<Node>)
    requires forall k :: 0 <= k < |FlatAll(ns)| ==> !FlatAll(ns)[k].Alias?
    ensures ExpandsAll(env, ns, ns) && VisitsAll(env, ns, ns) == 0
    decreases ns, 0
  {
    if ns != [] {
      var first, rest := Flat(ns[0]), FlatAll(ns[1..]);
      forall k | 0 <= k < |first| ensures !first[k].Alias? { assert first[k] == FlatAll(ns)[k]; }
      forall k | 0 <= k < |rest| ensures !rest[k].Alias? { assert rest[k] == FlatAll(ns)[|first| + k]; }
      PlainExpands(env, ns[0]);
      PlainAllExpand(env, ns[1..]);
      forall i | 0 <= i < |ns| ensures Expands(env, ns[i], ns[i]) {
        if i > 0 { assert ns[i] == ns[1..][i - 1]; }
      }
    }
  }

  /**
   In a stream without aliases, anchors make no difference: neither to the events loaded, nor
   to what is read.
   */
  lemma {:induction false} AnchorsMakeNoDifference(input: seq<ParseEvent>, fp: FloatParser, root: Node)
    requires NoAliases(input) && Flat(root) == LoadedDocument(ReadDocument(input, 0, [])).events
    ensures var r, bare := ReadDocument(input, 0, []), ReadDocument(AllBare(input), 0, []);
            && LoadedDocument(bare).events == LoadedDocument(r).events && LoadedDocument(bare).error == LoadedDocument(r).error
            && Meaning(AllBare(input), Resolver(fp), bare, root) == Meaning(input, Resolver(fp), r, root)
  {
    var r, bare := ReadDocument(input, 0, []), ReadDocument(AllBare(input), 0, []);
    BareReading(input, 0, []);
    assert AllBare([]) == [];
    BareLoads(r.raw, |r.raw|);
    BareReading(input, r.next, []);
    var c, d := ReadContext(Resolver(fp), r, root), ReadContext(Resolver(fp), bare, root);
    PlainExpands(c.env, root);
    assert forall tag, text, style, tagged :: c.resolve(tag, text, style, tagged) == VisitScalar(fp, tag, text, style, tagged);
    assert forall tag, text, style, tagged :: d.resolve(tag, text, style, tagged) == VisitScalar(fp, tag, text, style, tagged);
    AliasTransparency(c, d, root, root, 0, MAX_DEPTH, false);
  }

  // ---------------------------------------------------------------------------------
  // A second document
  // ---------------------------------------------------------------------------------

  function OneDocument(body: seq<ParseEvent>): seq<ParseEvent> {
    [ParseEvent.StreamStart, ParseEvent.DocumentStart] + body + [ParseEvent.DocumentEnd, StreamEnd]
  }

  function TwoDocuments(first: seq<ParseEvent>, second: seq<ParseEvent>): seq<ParseEvent> {
    [ParseEvent.StreamStart, ParseEvent.DocumentStart] + first + [ParseEvent.DocumentEnd, ParseEvent.DocumentStart] + second + [ParseEvent.DocumentEnd, StreamEnd]
  }

  lemma {:induction false} FirstIsRead(input: seq<ParseEvent>, body: seq<ParseEvent>, tail: seq<ParseEvent>)
    requires PlainContent(body) && input == [ParseEvent.StreamStart, ParseEvent.DocumentStart] + body + [ParseEvent.DocumentEnd] + tail
    ensures ReadDocument(input, 0, []) == Reading(body, AtDocumentEnd, |body| + 3)
    ensures LoadedEvents(body) == Loads(body)
  {
    BodyIsRead(input, body);
  }

  /** A stream with two documents is the error for that, unless the first one is an error by itself. */
  lemma {:induction false} SecondDocumentFails(first: seq<ParseEvent>, second: seq<ParseEvent>, resolve: ScalarResolver, root: Node)
    requires PlainContent(first) && PlainContent(second) && Flat(root) == Loads(first)
    ensures var one, two := OneDocument(first), TwoDocuments(first, second);
            var r, q := ReadDocument(one, 0, []), ReadDocument(two, 0, []);
            && LoadedDocument(r).events == LoadedDocument(q).events == Flat(root)
            && Meaning(two, resolve, q, root)
               == if Meaning(one, resolve, r, root).Ok? then Err(MoreThanOneDocument) else Meaning(one, resolve, r, root)
  {
    var one, two := OneDocument(first), TwoDocuments(first, second);
    FirstIsRead(one, first, [StreamEnd]);
    FirstIsRead(two, first, [ParseEvent.DocumentStart] + second + [ParseEvent.DocumentEnd, StreamEnd]);
    var at := |first| + 3;
    assert two[at] == ParseEvent.DocumentStart && two[at + 1..at + 1 + |second|] == second;
    ReadBody(two, at + 1, [], second);
    assert two[at + 1 + |second|] == ParseEvent.DocumentEnd;
  }

  // ---------------------------------------------------------------------------------
  // Streams that break off
  // ---------------------------------------------------------------------------------

  predicate Unnamed(body: seq<ParseEvent>, name: string) {
    forall i :: 0 <= i < |body| ==> AnchorOf(body[i]) != Some(name)
  }

  /** An alias of a name that no node before it carries is an error, whatever follows. */
  lemma {:induction false} UnknownAliasFails(body: seq<ParseEvent>, name: string, tail: seq<ParseEvent>, resolve: ScalarResolver, root: Node)
    requires PlainContent(body) && Unnamed(body, name) && Flat(root) == Loads(body)
    ensures var input := [ParseEvent.StreamStart, ParseEvent.DocumentStart] + body + [ParsedAlias(name)] + tail;
            var r := ReadDocument(input, 0, []);
            && LoadedDocument(r).error == Some(UnknownAnchor) && LoadedDocument(r).events == Flat(root)
            && Meaning(input, resolve, r, root).Err?
  {
    var input := [ParseEvent.StreamStart, ParseEvent.DocumentStart] + body + [ParsedAlias(name)] + tail;
    BodyIsRead(input, body);
    DefinedNames(body, |body|, name);
    assert body[..|body|] == body;
    assert input[|body| + 2] == ParsedAlias(name);
  }

  /** Where the parser fails, so does reading. */
  lemma {:induction false} CutOffFails(body: seq<ParseEvent>, resolve: ScalarResolver, root: Node)
    requires PlainContent(body) && Flat(root) == Loads(body)
    ensures var input := [ParseEvent.StreamStart, ParseEvent.DocumentStart] + body;
            var r := ReadDocument(input, 0, []);
            && LoadedDocument(r).error == Some(ParseError) && LoadedDocument(r).events == Flat(root)
            && Meaning(input, resolve, r, root).Err?
  {
    var input := [ParseEvent.StreamStart, ParseEvent.DocumentStart] + body;
    BodyIsRead(input, body);
  }

  lemma {:induction false} BodyIsRead(input: seq<ParseEvent>, body: seq<ParseEvent>)
    requires PlainContent(body) && [ParseEvent.StreamStart, ParseEvent.DocumentStart] + body <= input
    ensures ReadDocument(input, 0, []) == ReadDocument(input, |body| + 2, body)
    ensures LoadedEvents(body) == Loads(body)
  {
    assert ReadDocument(input, 0, []) == ReadDocument(input, 2, []);
    assert input[2..2 + |body|] == body;
    ReadBody(input, 2, [], body);
    assert [] + body == body;
    PlainLoads(body, |body|);
    assert body[..|body|] == body;
  }

  /** A stream without documents is null. */
  method NoDocument(fp: FloatParser) returns (r: Result<Value>)
    ensures r == Ok(Null)
  {
    var input := [ParseEvent.StreamStart, StreamEnd];
    assert ReadDocument(input, 0, []) == ReadDocument(input, 1, []);
    var result, _ := FromEvents(input, Resolver(fp), None);
    r := result;
  }

  // ---------------------------------------------------------------------------------
  // A document event by event
  // ---------------------------------------------------------------------------------

  /** `{true: !x [null, false]}` */
  function Small(): Value {
    Mapping([Entry(Bool(true), Tagged("x", Sequence([Null, Bool(false)])))])
  }

  function SmallWritten(): seq<EmitEvent> {
    [EmitMappingStart(None), EmitScalar(None, "true", PlainStyle),
     EmitSequenceStart(Some("!x")), EmitScalar(None, "null", PlainStyle), EmitScalar(None, "false", PlainStyle), EmitSequenceEnd,
     EmitMappingEnd]
  }

  /** The same as the parser reports it. */
  function SmallParsed(): seq<ParseEvent> {
    [ParsedMappingStart(None, None), ParsedScalar(None, None, "true", Plain),
     ParsedSequenceStart(None, Some("!x")), ParsedScalar(None, None, "null", Plain), ParsedScalar(None, None, "false", Plain), ParsedSequenceEnd,
     ParsedMappingEnd]
  }

  lemma {:induction false} SmallEvents(fp: FloatParser, format: real -> string)
    ensures NodeEvents(Printer(fp, format), None, Small()) == SmallWritten()
  {
    var printer := Printer(fp, format);
    var items, entries := [Null, Bool(false)], Small().entries;
    assert items[..1] == [Null] && [Null][..0] == [] && entries[..0] == [];
    assert ItemsEvents(printer, []) == [] && EntriesEvents(printer, []) == [];
    assert ItemsEvents(printer, [Null]) == [] + NodeEvents(printer, None, Null);
    assert ItemsEvents(printer, items) == ItemsEvents(printer, [Null]) + NodeEvents(printer, None, Bool(false));
    assert EntriesEvents(printer, entries) == EntriesEvents(printer, []) + EntryEvents(printer, entries[0]);
    TagOfX();
  }

  lemma {:induction false} TagOfX()
    ensures WithBang(NoBang("x")) == "!x"
  {
    var x := "x";
    assert |x| == 1 && NoBang(x) == x && x[0] == 'x';
    assert "!" + x == "!x";
  }

  lemma {:induction false} SmallIsSound(fp: FloatParser, format: real -> string)
    ensures Valid(Small()) && TagsNamed(Small()) && NoNestedTag(Small()) && Printable(fp, format, Small())
    ensures TagsReadable(Small()) && Canon(Small()) == Small()
  {
    var items, e := [Null, Bool(false)], Small().entries[0];
    assert TagsNamedEntry(e) && NoNestedTagEntry(e) && TagsReadableEntry(e);
    assert Retag(NoBang, Sequence(items)).items == items;
    assert Retag(NoBang, e.val) == Tagged("x", Sequence(items)) && RetagEntry(NoBang, e) == e;
    assert Retag(NoBang, Small()).entries == Small().entries;
  }

  lemma {:induction false} SmallIsShallow()
    ensures Defects(Small(), false) == 0 && Depth(Small()) <= 128
  {
    var items, e := [Null, Bool(false)], Small().entries[0];
    OneEntryDefects(e, false);
    assert items[..1] == [Null] && [Null][..0] == [];
    assert ItemsDefects(items) == 0;
    assert items[1..] == [Bool(false)] && [Bool(false)][1..] == [] && Small().entries[1..] == [];
    assert ItemsDepth(items) == 0 && EntryDepth(e) == 1;
  }

  lemma {:induction false} SmallArrives(fp: FloatParser, format: real -> string, ps: seq<ParseEvent>)
    requires ps == [ParseEvent.StreamStart, ParseEvent.DocumentStart] + SmallParsed() + [ParseEvent.DocumentEnd]
    ensures ArriveAll([EmitEvent.StreamStart] + [EmitEvent.DocumentStart] + NodeEvents(Printer(fp, format), None, Small()) + [EmitEvent.DocumentEnd], ps)
  {
    SmallEvents(fp, format);
    var es, qs := SmallWritten(), SmallParsed();
    assert |es| == |qs| == 7;
    forall i | 0 <= i < 7 ensures Arrives(es[i], qs[i]) { }
    var all := [EmitEvent.StreamStart] + [EmitEvent.DocumentStart] + es + [EmitEvent.DocumentEnd];
    forall i | 0 <= i < |all| ensures Arrives(all[i], ps[i]) {
      if 2 <= i < 9 { assert all[i] == es[i - 2] && ps[i] == qs[i - 2]; }
    }
  }

  /** What reading these events gives. */
  method ReadSmall(fp: FloatParser, format: real -> string) returns (r: Result<Value>)
    ensures r == Ok(Small())
  {
    SmallIsSound(fp, format);
    SmallIsShallow();
    ValidIsFit(fp, format, Small());
    var ps := [ParseEvent.StreamStart, ParseEvent.DocumentStart] + SmallParsed() + [ParseEvent.DocumentEnd];
    SmallArrives(fp, format, ps);
    ghost var n := StreamReadsBack(Printer(fp, format), Resolver(fp), Small(), ps);
    var result, _ := FromEvents(ps + [StreamEnd], Resolver(fp), Some(n));
    r := result;
  }

  /** One document, written and read, with all its events. */
  method SmallDocument(fp: FloatParser, format: real -> string) returns (written: seq<EmitEvent>, r: Result<Value>)
    ensures written == [EmitEvent.StreamStart, EmitEvent.DocumentStart] + SmallWritten() + [EmitEvent.DocumentEnd]
    ensures r == Ok(Small())
  {
    SmallIsSound(fp, format);
    SmallIsShallow();
    SmallEvents(fp, format);
    var serializer := new Serializer(Printer(fp, format));
    var outcome := serializer.SerializeDocument(Small());
    written := serializer.events;
    r := ReadSmall(fp, format);
  }
}
