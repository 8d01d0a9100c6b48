/**
 Writing a value and reading it back.

 The emitter and the parser of libyaml lie between the two; all that is asked of them is that
 the events arrive in order, each with its tag and text and in a style that honours the one
 requested. Nodes may arrive with anchors.
 */
module YamlRoundTrip {
  import opened Wrappers
  import opened YamlValues
  import opened YamlScalars
  import opened YamlSerializer
  import opened YamlDocument
  import opened YamlLoader
  import opened YamlDeserializer
  import opened YamlReader

  // ---------------------------------------------------------------------------------
  // The text layer
  // ---------------------------------------------------------------------------------

  /** `p` is the parser's account of the emitted event `e`, perhaps with an anchor. */
  predicate Arrives(e: EmitEvent, p: ParseEvent) {
    match e
    case StreamStart => p.StreamStart?
    case DocumentStart => p.DocumentStart?
    case DocumentEnd => p.DocumentEnd?
    case EmitScalar(tag, text, style) =>
      p.ParsedScalar? && p.tag == tag && p.text == text && Honours(style, p.style)
    case EmitSequenceStart(tag) => p.ParsedSequenceStart? && p.tag == tag
    case EmitSequenceEnd => p.ParsedSequenceEnd?
    case EmitMappingStart(tag) => p.ParsedMappingStart? && p.tag == tag
    case EmitMappingEnd => p.ParsedMappingEnd?
  }

  predicate ArriveAll(es: seq<EmitEvent>, ps: seq<ParseEvent>) {
    |es| == |ps| && forall i :: 0 <= i < |es| ==> Arrives(es[i], ps[i])
  }

  lemma {:induction false} ArriveParts(a: seq<EmitEvent>, b: seq<EmitEvent>, ps: seq<ParseEvent>)
    requires ArriveAll(a + b, ps)
    ensures ArriveAll(a, ps[..|a|]) && ArriveAll(b, ps[|a|..])
  {
    assert forall i :: 0 <= i < |a| ==> (a + b)[i] == a[i];
    assert forall i :: 0 <= i < |b| ==> (a + b)[|a| + i] == b[i];
  }

  /** What events without aliases load to. */
  function Loads(ps: seq<ParseEvent>): seq<Event> {
    if ps == [] then []
    else Loads(ps[..|ps| - 1]) + [if ps[|ps| - 1].ParsedAlias? then Void else Translate(ps[|ps| - 1], map[])]
  }

  lemma {:induction false} LoadsConcat(a: seq<ParseEvent>, b: seq<ParseEvent>)
    ensures Loads(a + b) == Loads(a) + Loads(b)
  {
    if b == [] {
      assert a + b == a;
    } else {
      var init := b[..|b| - 1];
      assert (a + b)[..|a + b| - 1] == a + init;
      LoadsConcat(a, init);
    }
  }

  lemma {:induction false} LoadsSplit(ps: seq<ParseEvent>, k: nat)
    requires k <= |ps|
    ensures Loads(ps) == Loads(ps[..k]) + Loads(ps[k..])
  {
    LoadsConcat(ps[..k], ps[k..]);
    assert ps[..k] + ps[k..] == ps;
  }

  // ---------------------------------------------------------------------------------
  // Trees that render a value
  // ---------------------------------------------------------------------------------

  /** `n` is the tree of `v` under `tag`, in some choice of styles. */
  predicate Renders(printer: ScalarPrinter, tag: Option<string>, v: Value, n: Node)
    decreases v
  {
    match v
    case Sequence(items) =>
      n.Coll? && n.kind.Seq? && n.tag == tag && n.closed && |n.children| == |items|
      && forall i :: 0 <= i < |items| ==> Renders(printer, None, items[i], n.children[i])
    case Mapping(entries) =>
      n.Coll? && n.kind.Map? && n.tag == tag && n.closed && |n.children| == 2 * |entries|
      && forall i :: 0 <= i < |entries| ==>
           Renders(printer, None, entries[i].key, n.children[2 * i])
           && Renders(printer, None, entries[i].val, n.children[2 * i + 1])
    case Tagged(t, inner) => Renders(printer, Some(WithBang(NoBang(t))), inner, n)
    case _ =>
      n.Leaf? && n.tag == tag && n.text == printer(v).text && Honours(printer(v).style, n.style)
  }

  predicate RendersItems(printer: ScalarPrinter, items: seq<Value>, ns: seq<Node>) {
    |ns| == |items| && forall i :: 0 <= i < |items| ==> Renders(printer, None, items[i], ns[i])
  }

  predicate RendersEntries(printer: ScalarPrinter, entries: seq<Entry>, ns: seq<Node>) {
    |ns| == 2 * |entries|
    && forall i :: 0 <= i < |entries| ==>
         Renders(printer, None, entries[i].key, ns[2 * i]) && Renders(printer, None, entries[i].val, ns[2 * i + 1])
  }

  lemma {:induction false} FlatAllAppend(ns: seq<Node>, n: Node)
    ensures FlatAll(ns + [n]) == FlatAll(ns) + Flat(n)
    decreases |ns|
  {
    if ns == [] {
      assert ns + [n] == [n];
      assert [n][1..] == [];
    } else {
      assert (ns + [n])[1..] == ns[1..] + [n];
      FlatAllAppend(ns[1..], n);
    }
  }

  lemma {:induction false} FlatAllAppendTwo(ns: seq<Node>, k: Node, x: Node)
    ensures FlatAll(ns + [k] + [x]) == FlatAll(ns) + (Flat(k) + Flat(x))
  {
    FlatAllAppend(ns, k);
    FlatAllAppend(ns + [k], x);
  }

  /** The events of a value, however they arrive, spell a tree that renders it. */
  lemma {:induction false} ArrivalSpellsTree(printer: ScalarPrinter, tag: Option<string>, v: Value, ps: seq<ParseEvent>) returns (n: Node)
    requires ArriveAll(NodeEvents(printer, tag, v), ps)
    ensures Renders(printer, tag, v, n) && Flat(n) == Loads(ps)
    decreases v, 1
  {
    match v {
      case Sequence(items) =>
        var start, inside, end := [EmitSequenceStart(tag)], ItemsEvents(printer, items), [EmitSequenceEnd];
        ArriveAround(start, inside, end, ps);
        var ns := ArrivalSpellsItems(printer, items, ps[1..|ps| - 1]);
        n := Coll(Seq, tag, ns, true);
      case Mapping(entries) =>
        var start, inside, end := [EmitMappingStart(tag)], EntriesEvents(printer, entries), [EmitMappingEnd];
        ArriveAround(start, inside, end, ps);
        var ns := ArrivalSpellsEntries(printer, entries, ps[1..|ps| - 1]);
        n := Coll(Map, tag, ns, true);
      case Tagged(t, inner) =>
        n := ArrivalSpellsTree(printer, Some(WithBang(NoBang(t))), inner, ps);
      case _ =>
        assert Arrives(NodeEvents(printer, tag, v)[0], ps[0]);
        n := Leaf(tag, ps[0].text, ps[0].style);
        assert ps[..0] == [];
        assert Loads(ps) == Loads(ps[..0]) + [Translate(ps[0], map[])];
    }
  }

  lemma {:induction false} ArriveAround(start: seq<EmitEvent>, inside: seq<EmitEvent>, end: seq<EmitEvent>, ps: seq<ParseEvent>)
    requires |start| == |end| == 1 && ArriveAll(start + inside + end, ps)
    ensures |ps| >= 2 && ArriveAll(inside, ps[1..|ps| - 1])
    ensures Arrives(start[0], ps[0]) && Arrives(end[0], ps[|ps| - 1])
    ensures !ps[0].ParsedAlias? && !ps[|ps| - 1].ParsedAlias? ==>
              Loads(ps) == [Translate(ps[0], map[])] + Loads(ps[1..|ps| - 1]) + [Translate(ps[|ps| - 1], map[])]
  {
    ArriveParts(start + inside, end, ps);
    var init := ps[..|ps| - 1];
    ArriveParts(start, inside, init);
    assert init[1..] == ps[1..|ps| - 1];
    assert init[..1] == [ps[0]];
    assert init == [ps[0]] + ps[1..|ps| - 1];
    LoadsConcat([ps[0]], ps[1..|ps| - 1]);
    assert [ps[0]][..0] == [];
  }

  lemma {:induction false} ArrivalSpellsItems(printer: ScalarPrinter, items: seq<Value>, ps: seq<ParseEvent>) returns (ns: seq<Node>)
    requires ArriveAll(ItemsEvents(printer, items), ps)
    ensures RendersItems(printer, items, ns) && FlatAll(ns) == Loads(ps)
    decreases items, 0
  {
    ns := [];
    if items != [] {
      var last := |items| - 1;
      var before := ItemsEvents(printer, items[..last]);
      ArriveParts(before, NodeEvents(printer, None, items[last]), ps);
      var init := ArrivalSpellsItems(printer, items[..last], ps[..|before|]);
      var n := ArrivalSpellsTree(printer, None, items[last], ps[|before|..]);
      ns := init + [n];
      FlatAllAppend(init, n);
      LoadsSplit(ps, |before|);
    }
  }

  lemma {:induction false} ArrivalSpellsEntries(printer: ScalarPrinter, entries: seq<Entry>, ps: seq<ParseEvent>) returns (ns: seq<Node>)
    requires ArriveAll(EntriesEvents(printer, entries), ps)
    ensures RendersEntries(printer, entries, ns) && FlatAll(ns) == Loads(ps)
    decreases entries, 0
  {
    ns := [];
    if entries != [] {
      var last := |entries| - 1;
      var before := EntriesEvents(printer, entries[..last]);
      ArriveParts(before, EntryEvents(printer, entries[last]), ps);
      var init := ArrivalSpellsEntries(printer, entries[..last], ps[..|before|]);
      var k, x := ArrivalSpellsEntry(printer, entries[last], ps[|before|..]);
      ns := init + [k] + [x];
      FlatAllAppendTwo(init, k, x);
      LoadsSplit(ps, |before|);
      RendersOneMore(printer, entries, init, k, x);
    }
  }

  lemma {:induction false} RendersOneMore(printer: ScalarPrinter, entries: seq<Entry>, ns: seq<Node>, k: Node, x: Node)
    requires entries != [] && RendersEntries(printer, entries[..|entries| - 1], ns)
    requires var e := entries[|entries| - 1]; Renders(printer, None, e.key, k) && Renders(printer, None, e.val, x)
    ensures RendersEntries(printer, entries, ns + [k] + [x])
  {
    var init, all := entries[..|entries| - 1], ns + [k] + [x];
    forall i | 0 <= i < |entries|
      ensures Renders(printer, None, entries[i].key, all[2 * i]) && Renders(printer, None, entries[i].val, all[2 * i + 1])
    {
      if i < |init| {
        assert init[i] == entries[i];
      }
    }
  }

  lemma {:induction false} ArrivalSpellsEntry(printer: ScalarPrinter, e: Entry, ps: seq<ParseEvent>) returns (k: Node, x: Node)
    requires ArriveAll(EntryEvents(printer, e), ps)
    ensures Renders(printer, None, e.key, k) && Renders(printer, None, e.val, x)
    ensures Flat(k) + Flat(x) == Loads(ps)
    decreases e, 2
  {
    var split := |NodeEvents(printer, None, e.key)|;
    ArriveParts(NodeEvents(printer, None, e.key), NodeEvents(printer, None, e.val), ps);
    k := ArrivalSpellsTree(printer, None, e.key, ps[..split]);
    x := ArrivalSpellsTree(printer, None, e.val, ps[split..]);
    LoadsSplit(ps, split);
  }

  // ---------------------------------------------------------------------------------
  // Reading a rendered tree
  // ---------------------------------------------------------------------------------

  /** The tag that is read when `tag` was written. */
  function ReadTag(tag: string): string {
    var read := ParseTag(Some(WithBang(NoBang(tag))));
    if read.Some? then read.value else ""
  }

  /** Without its leading `!`, the tag does not start with `!` again. */
  predicate TagReadable(tag: string) {
    NoBang(tag) == "!" || !("!" <= NoBang(tag))
  }

  predicate TagsReadable(v: Value)
    decreases v, 0
  {
    match v
    case Sequence(items) => forall i :: 0 <= i < |items| ==> TagsReadable(items[i])
    case Mapping(entries) => forall i :: 0 <= i < |entries| ==> TagsReadableEntry(entries[i])
    case Tagged(tag, inner) => TagReadable(tag) && TagsReadable(inner)
    case _ => true
  }

  predicate TagsReadableEntry(e: Entry)
    decreases e, 1
  {
    TagsReadable(e.key) && TagsReadable(e.val)
  }

  lemma {:induction false} WrittenTagIsRead(tag: string)
    requires tag != ""
    ensures ParseTag(Some(WithBang(NoBang(tag)))) == Some(ReadTag(tag))
    ensures ReadTag(tag) == NoBang(tag) <==> TagReadable(tag)
  {
    var n := NoBang(tag);
    if "!" <= n {
      if |n| > 1 { assert |n[1..]| != |n|; }
    } else {
      assert ("!" + n)[1..] == n;
    }
  }

  /**
   `v` is a value a program can build, with no tag under a tag, and its scalars survive the
   printer and the resolver in every style that may be chosen.
   */
  ghost predicate Fit(resolve: ScalarResolver, printer: ScalarPrinter, v: Value)
    decreases v, 0
  {
    match v
    case Sequence(items) => forall i :: 0 <= i < |items| ==> Fit(resolve, printer, items[i])
    case Mapping(entries) =>
      DistinctKeys(entries) && forall i :: 0 <= i < |entries| ==> FitEntry(resolve, printer, entries[i])
    case Tagged(tag, inner) => tag != "" && !inner.Tagged? && Fit(resolve, printer, inner)
    case _ => ScalarReadsBack(resolve, printer, v)
  }

  ghost predicate FitEntry(resolve: ScalarResolver, printer: ScalarPrinter, e: Entry)
    decreases e, 1
  {
    Fit(resolve, printer, e.key) && Fit(resolve, printer, e.val)
  }

  ghost predicate ScalarReadsBack(resolve: ScalarResolver, printer: ScalarPrinter, v: Value) {
    forall style :: Honours(printer(v).style, style) ==>
      resolve(None, printer(v).text, style, false) == Ok(v)
      && forall tag :: resolve(tag, printer(v).text, style, true) == Ok(v)
  }

  /** What a run over a tree that renders `v` may give. */
  predicate ReadsAs<T(==)>(run: Run<T>, jumps: nat, value: T, fits: bool, readable: bool) {
    && (run.result.Ok? ==> run.result.value == value && run.jumps == jumps && fits)
    && (run.result.Err? ==> !fits || !readable)
  }

  /** The value of a rendered tree; `tagged` if its tag has been taken off. */
  lemma {:induction false} ReadRendered(c: Context, printer: ScalarPrinter, tag: Option<string>, v: Value, n: Node,
                                        jumps: nat, depth: nat, tagged: bool)
    requires Renders(printer, tag, v, n) && Fit(c.resolve, printer, v)
    requires if v.Tagged? then !tagged && tag.None? else tagged || tag.None?
    ensures ReadsAs(Eval(c, n, jumps, depth, tagged), jumps, Retag(ReadTag, v), Depth(v) <= depth, TagsReadable(v))
    decreases v, 2
  {
    match v {
      case Tagged(t, inner) => ReadTaggedRendered(c, printer, v, n, jumps, depth);
      case Sequence(items) =>
        if depth > 0 {
          ReadItemsRendered(c, printer, items, n.children, jumps, depth - 1);
          RetagItemsIsRetag(items);
        }
      case Mapping(entries) =>
        if depth > 0 {
          ReadEntriesRendered(c, printer, entries, n.children, 0, jumps, depth - 1);
          RetagEntriesIsRetag(entries);
          assert n.children[2 * 0..] == n.children && entries[0..] == entries && entries[..0] == [];
          assert RetagEntries([]) == [];
        }
      case _ =>
    }
  }

  lemma {:induction false} ReadTaggedRendered(c: Context, printer: ScalarPrinter, v: Value, n: Node, jumps: nat, depth: nat)
    requires v.Tagged? && Renders(printer, None, v, n) && Fit(c.resolve, printer, v)
    ensures ReadsAs(Eval(c, n, jumps, depth, false), jumps, Retag(ReadTag, v), Depth(v) <= depth, TagsReadable(v))
    decreases v, 1
  {
    var tag := Some(WithBang(NoBang(v.tag)));
    WrittenTagIsRead(v.tag);
    RenderedTag(printer, tag, v.inner, n);
    ReadRendered(c, printer, tag, v.inner, n, jumps, depth, true);
  }

  lemma {:induction false} RenderedTag(printer: ScalarPrinter, tag: Option<string>, v: Value, n: Node)
    requires !v.Tagged? && Renders(printer, tag, v, n)
    ensures NodeTag(n) == tag
  {
  }

  function RetagItems(items: seq<Value>): seq<Value> {
    seq(|items|, i requires 0 <= i < |items| => Retag(ReadTag, items[i]))
  }

  function RetagEntries(entries: seq<Entry>): seq<Entry> {
    seq(|entries|, i requires 0 <= i < |entries| => RetagEntry(ReadTag, entries[i]))
  }

  lemma {:induction false} RetagItemsIsRetag(items: seq<Value>)
    ensures Retag(ReadTag, Sequence(items)) == Sequence(RetagItems(items))
  {
  }

  lemma {:induction false} RetagEntriesIsRetag(entries: seq<Entry>)
    ensures Retag(ReadTag, Mapping(entries)) == Mapping(RetagEntries(entries))
  {
  }

  lemma {:induction false} RetagItemsStep(items: seq<Value>)
    requires items != []
    ensures RetagItems(items) == [Retag(ReadTag, items[0])] + RetagItems(items[1..])
  {
  }

  predicate ItemsReadable(items: seq<Value>) {
    forall i :: 0 <= i < |items| ==> TagsReadable(items[i])
  }

  predicate EntriesReadable(entries: seq<Entry>) {
    forall i :: 0 <= i < |entries| ==> TagsReadableEntry(entries[i])
  }

  ghost predicate FitItems(c: Context, printer: ScalarPrinter, items: seq<Value>) {
    forall i :: 0 <= i < |items| ==> Fit(c.resolve, printer, items[i])
  }

  lemma {:induction false} ItemsTail(c: Context, printer: ScalarPrinter, items: seq<Value>, ns: seq<Node>)
    requires items != [] && RendersItems(printer, items, ns) && FitItems(c, printer, items)
    ensures Renders(printer, None, items[0], ns[0]) && Fit(c.resolve, printer, items[0])
    ensures RendersItems(printer, items[1..], ns[1..]) && FitItems(c, printer, items[1..])
    ensures ItemsReadable(items) ==> TagsReadable(items[0]) && ItemsReadable(items[1..])
  {
  }

  lemma {:induction false} ReadItemsRendered(c: Context, printer: ScalarPrinter, items: seq<Value>, ns: seq<Node>, jumps: nat, depth: nat)
    requires RendersItems(printer, items, ns) && FitItems(c, printer, items)
    ensures ReadsAs(EvalItems(c, ns, true, jumps, depth), jumps, RetagItems(items), ItemsDepth(items) <= depth, ItemsReadable(items))
    decreases items, 1
  {
    if items != [] {
      ItemsTail(c, printer, items, ns);
      ReadRendered(c, printer, None, items[0], ns[0], jumps, depth, false);
      ReadItemsRendered(c, printer, items[1..], ns[1..], jumps, depth);
      RetagItemsStep(items);
    }
  }

  /** From entry `at` on, with those before it read. */
  lemma {:induction false} ReadEntriesRendered(c: Context, printer: ScalarPrinter, entries: seq<Entry>, ns: seq<Node>, at: nat, jumps: nat, depth: nat)
    requires at <= |entries| && RendersEntries(printer, entries, ns) && DistinctKeys(entries)
    requires forall i :: 0 <= i < |entries| ==> FitEntry(c.resolve, printer, entries[i])
    ensures ReadsAs(EvalEntries(c, ns[2 * at..], true, RetagEntries(entries[..at]), jumps, depth), jumps,
                    RetagEntries(entries), EntriesDepth(entries[at..]) <= depth, EntriesReadable(entries))
    decreases entries, |entries| - at
  {
    if at == |entries| {
      assert entries[..at] == entries;
    } else {
      var e, rest, done := entries[at], ns[2 * at..], RetagEntries(entries[..at]);
      ReadEntryRendered(c, printer, e, ns[2 * at], ns[2 * at + 1], jumps, depth);
      ReadEntriesRendered(c, printer, entries, ns, at + 1, jumps, depth);
      EntriesStepFrom(entries, at);
      if EntriesReadable(entries) {
        KeyIsNew(c, printer, entries, at);
      }
      EvalEntriesStep(c, ns, at, done, jumps, depth);
    }
  }

  lemma {:induction false} EntriesStepFrom(entries: seq<Entry>, at: nat)
    requires at < |entries|
    ensures RetagEntries(entries[..at + 1]) == RetagEntries(entries[..at]) + [RetagEntry(ReadTag, entries[at])]
    ensures EntriesDepth(entries[at..]) == Max(EntryDepth(entries[at]), EntriesDepth(entries[at + 1..]))
  {
    assert entries[at..][1..] == entries[at + 1..];
  }

  /** One entry of a mapping, spelled out. */
  lemma {:induction false} EvalEntriesStep(c: Context, ns: seq<Node>, at: nat, done: seq<Entry>, jumps: nat, depth: nat)
    requires 2 * at + 1 < |ns|
    ensures var key := Eval(c, ns[2 * at], jumps, depth, false);
            var val := Eval(c, ns[2 * at + 1], key.jumps, depth, false);
            EvalEntries(c, ns[2 * at..], true, done, jumps, depth) ==
            if key.result.Err? then Run(Err(key.result.error), key.jumps)
            else if KeyIn(key.result.value, done) then Run(Err(DuplicateKey), key.jumps)
            else if val.result.Err? then Run(Err(val.result.error), val.jumps)
            else EvalEntries(c, ns[2 * (at + 1)..], true, done + [Entry(key.result.value, val.result.value)], val.jumps, depth)
  {
    var rest := ns[2 * at..];
    assert rest[0] == ns[2 * at] && rest[1] == ns[2 * at + 1] && rest[2..] == ns[2 * (at + 1)..];
  }

  lemma {:induction false} ReadEntryRendered(c: Context, printer: ScalarPrinter, e: Entry, k: Node, x: Node, jumps: nat, depth: nat)
    requires Renders(printer, None, e.key, k) && Renders(printer, None, e.val, x) && FitEntry(c.resolve, printer, e)
    ensures ReadsAs(Eval(c, k, jumps, depth, false), jumps, Retag(ReadTag, e.key), Depth(e.key) <= depth, TagsReadable(e.key))
    ensures ReadsAs(Eval(c, x, jumps, depth, false), jumps, Retag(ReadTag, e.val), Depth(e.val) <= depth, TagsReadable(e.val))
    decreases e, 3
  {
    ReadRendered(c, printer, None, e.key, k, jumps, depth, false);
    ReadRendered(c, printer, None, e.val, x, jumps, depth, false);
  }

  // ---------------------------------------------------------------------------------
  // Tags and equality
  // ---------------------------------------------------------------------------------

  /** Reading gives the normal form exactly when every tag can be read. */
  lemma {:induction false} ReadableIsCanon(c: Context, printer: ScalarPrinter, v: Value)
    requires Fit(c.resolve, printer, v)
    ensures Retag(ReadTag, v) == Canon(v) <==> TagsReadable(v)
    decreases v, 0
  {
    match v {
      case Sequence(items) =>
        var a, b := Retag(ReadTag, v).items, Canon(v).items;
        forall i | 0 <= i < |items| ensures a[i] == b[i] <==> TagsReadable(items[i]) {
          ReadableIsCanon(c, printer, items[i]);
        }
        assert a == b <==> forall i :: 0 <= i < |items| ==> a[i] == b[i];
      case Mapping(entries) =>
        var a, b := Retag(ReadTag, v).entries, Canon(v).entries;
        forall i | 0 <= i < |entries| ensures a[i] == b[i] <==> TagsReadableEntry(entries[i]) {
          ReadableEntryIsCanon(c, printer, entries[i]);
        }
        assert a == b <==> forall i :: 0 <= i < |entries| ==> a[i] == b[i];
      case Tagged(tag, inner) =>
        WrittenTagIsRead(tag);
        ReadableIsCanon(c, printer, inner);
      case _ =>
    }
  }

  lemma {:induction false} ReadableEntryIsCanon(c: Context, printer: ScalarPrinter, e: Entry)
    requires FitEntry(c.resolve, printer, e)
    ensures RetagEntry(ReadTag, e) == Entry(Canon(e.key), Canon(e.val)) <==> TagsReadableEntry(e)
    decreases e, 1
  {
    ReadableIsCanon(c, printer, e.key);
    ReadableIsCanon(c, printer, e.val);
  }

  lemma {:induction false} NoBangTwice(tag: string)
    requires TagReadable(tag)
    ensures NoBang(NoBang(tag)) == NoBang(tag)
  {
  }

  /** Normal forms are equal only for equal values. */
  lemma {:induction false} SameCanon(a: Value, b: Value)
    requires TagsReadable(a) && TagsReadable(b) && Same(Canon(a), Canon(b))
    ensures Same(a, b)
    decreases a
  {
    match a {
      case Sequence(xs) =>
        var ys := b.items;
        forall i | 0 <= i < |xs| ensures Same(xs[i], ys[i]) {
          assert Canon(a).items[i] == Canon(xs[i]) && Canon(b).items[i] == Canon(ys[i]);
          SameCanon(xs[i], ys[i]);
        }
      case Mapping(xs) =>
        var ys := b.entries;
        var ca, cb := Canon(a).entries, Canon(b).entries;
        forall i | 0 <= i < |xs| ensures EntryAmong(xs[i], ys) {
          assert EntryAmong(ca[i], cb);
          var j :| 0 <= j < |cb| && Same(ca[i].key, cb[j].key) && Same(ca[i].val, cb[j].val);
          assert TagsReadableEntry(xs[i]) && TagsReadableEntry(ys[j]);
          SameCanon(xs[i].key, ys[j].key);
          SameCanon(xs[i].val, ys[j].val);
        }
      case Tagged(t, x) =>
        NoBangTwice(t);
        NoBangTwice(b.tag);
        SameCanon(x, b.inner);
      case _ =>
    }
  }

  /** A key that was new when written is new when read. */
  lemma {:induction false} KeyIsNew(c: Context, printer: ScalarPrinter, entries: seq<Entry>, at: nat)
    requires at < |entries| && DistinctKeys(entries) && EntriesReadable(entries)
    requires forall i :: 0 <= i < |entries| ==> FitEntry(c.resolve, printer, entries[i])
    ensures !KeyIn(Retag(ReadTag, entries[at].key), RetagEntries(entries[..at]))
  {
    forall i | 0 <= i < at
      ensures !Same(RetagEntries(entries[..at])[i].key, Retag(ReadTag, entries[at].key))
    {
      assert RetagEntries(entries[..at])[i].key == Retag(ReadTag, entries[i].key);
      assert TagsReadableEntry(entries[i]) && TagsReadableEntry(entries[at]);
      assert FitEntry(c.resolve, printer, entries[i]) && FitEntry(c.resolve, printer, entries[at]);
      ReadableIsCanon(c, printer, entries[i].key);
      ReadableIsCanon(c, printer, entries[at].key);
      if Same(Canon(entries[i].key), Canon(entries[at].key)) {
        SameCanon(entries[i].key, entries[at].key);
      }
    }
  }

  // ---------------------------------------------------------------------------------
  // Whole documents
  // ---------------------------------------------------------------------------------

  lemma {:induction false} RenderedIsWhole(printer: ScalarPrinter, tag: Option<string>, v: Value, n: Node)
    requires Renders(printer, tag, v, n)
    ensures Whole(n)
    decreases v
  {
    match v {
      case Sequence(items) =>
        forall i | 0 <= i < |items| ensures Whole(n.children[i]) {
          RenderedIsWhole(printer, None, items[i], n.children[i]);
        }
      case Mapping(entries) =>
        forall i | 0 <= i < |n.children| ensures Whole(n.children[i]) {
          var e := entries[i / 2];
          RenderedIsWhole(printer, None, if i % 2 == 0 then e.key else e.val, n.children[i]);
        }
      case Tagged(t, inner) => RenderedIsWhole(printer, Some(WithBang(NoBang(t))), inner, n);
      case _ =>
    }
  }

  predicate IsNodeEvent(e: EmitEvent) {
    !e.StreamStart? && !e.DocumentStart? && !e.DocumentEnd?
  }

  predicate AllNodeEvents(es: seq<EmitEvent>) {
    forall i :: 0 <= i < |es| ==> IsNodeEvent(es[i])
  }

  lemma {:induction false} NodeEventsOnly(printer: ScalarPrinter, tag: Option<string>, v: Value)
    ensures AllNodeEvents(NodeEvents(printer, tag, v))
    decreases v, 1
  {
    match v {
      case Sequence(items) => ItemsEventsOnly(printer, items);
      case Mapping(entries) => EntriesEventsOnly(printer, entries);
      case Tagged(t, inner) => NodeEventsOnly(printer, Some(WithBang(NoBang(t))), inner);
      case _ =>
    }
  }

  lemma {:induction false} ItemsEventsOnly(printer: ScalarPrinter, items: seq<Value>)
    ensures AllNodeEvents(ItemsEvents(printer, items))
    decreases items, 0
  {
    if items != [] {
      ItemsEventsOnly(printer, items[..|items| - 1]);
      NodeEventsOnly(printer, None, items[|items| - 1]);
    }
  }

  lemma {:induction false} EntriesEventsOnly(printer: ScalarPrinter, entries: seq<Entry>)
    ensures AllNodeEvents(EntriesEvents(printer, entries))
    decreases entries, 0
  {
    if entries != [] {
      EntriesEventsOnly(printer, entries[..|entries| - 1]);
      EntryEventsOnly(printer, entries[|entries| - 1]);
    }
  }

  lemma {:induction false} EntryEventsOnly(printer: ScalarPrinter, e: Entry)
    ensures AllNodeEvents(EntryEvents(printer, e))
    decreases e, 2
  {
    NodeEventsOnly(printer, None, e.key);
    NodeEventsOnly(printer, None, e.val);
  }

  predicate PlainContent(body: seq<ParseEvent>) {
    forall i :: 0 <= i < |body| ==> IsContent(body[i]) && !body[i].ParsedAlias?
  }

  /** Content without aliases is read as it stands. */
  lemma {:induction false} ReadBody(input: seq<ParseEvent>, at: nat, raw: seq<ParseEvent>, body: seq<ParseEvent>)
    requires at + |body| <= |input| && input[at..at + |body|] == body && PlainContent(body)
    ensures ReadDocument(input, at, raw) == ReadDocument(input, at + |body|, raw + body)
    decreases |body|
  {
    if body == [] {
      assert raw + body == raw;
    } else {
      var e, rest := body[0], body[1..];
      assert input[at] == input[at..at + |body|][0] == e;
      assert input[at + 1..at + 1 + |rest|] == rest;
      ReadBody(input, at + 1, raw + [e], rest);
      assert raw + [e] + rest == raw + body;
    }
  }

  lemma {:induction false} PlainLoads(raw: seq<ParseEvent>, k: nat)
    requires PlainContent(raw) && k <= |raw|
    ensures LoadedUpTo(raw, k) == Loads(raw[..k])
  {
    if k > 0 {
      PlainLoads(raw, k - 1);
      assert raw[..k][..k - 1] == raw[..k - 1];
    }
  }

  /** A stream with one document and nothing but `body` in it. */
  lemma {:induction false} ReadStream(input: seq<ParseEvent>, body: seq<ParseEvent>)
    requires PlainContent(body) && input == [ParseEvent.StreamStart, ParseEvent.DocumentStart] + body + [ParseEvent.DocumentEnd, StreamEnd]
    ensures var r := ReadDocument(input, 0, []);
            r == Reading(body, AtDocumentEnd, |body| + 3) && NoMoreDocuments(input, r)
            && LoadedDocument(r).events == Loads(body)
  {
    assert ReadDocument(input, 0, []) == ReadDocument(input, 2, []);
    assert input[2..2 + |body|] == body;
    ReadBody(input, 2, [], body);
    assert [] + body == body;
    PlainLoads(body, |body|);
    assert body[..|body|] == body;
  }

  /** What the serializer wrote, as the parser reports it, reads as the value that was written. */
  lemma {:induction false} StreamReadsBack(printer: ScalarPrinter, resolve: ScalarResolver, v: Value, ps: seq<ParseEvent>)
    returns (n: Node)
    requires Fit(resolve, printer, v)
    requires ArriveAll([EmitEvent.StreamStart] + [EmitEvent.DocumentStart] + NodeEvents(printer, None, v) + [EmitEvent.DocumentEnd], ps)
    ensures var input := ps + [StreamEnd];
            var r := ReadDocument(input, 0, []);
            Proper(n) && Flat(n) == LoadedDocument(r).events
            && (Meaning(input, resolve, r, n) == Ok(Canon(v)) <==> Depth(v) <= MAX_DEPTH && TagsReadable(v))
  {
    var es := NodeEvents(printer, None, v);
    var input := ps + [StreamEnd];
    var body := Framed(es, ps);
    n := ArrivalSpellsTree(printer, None, v, body);
    NodeEventsOnly(printer, None, v);
    assert PlainContent(body) by {
      assert forall i :: 0 <= i < |body| ==> Arrives(es[i], body[i]) && IsNodeEvent(es[i]);
    }
    ReadStream(input, body);
    RenderedIsWhole(printer, None, v, n);
    var r := ReadDocument(input, 0, []);
    var c := ReadContext(resolve, r, n);
    ReadRendered(c, printer, None, v, n, 0, MAX_DEPTH, false);
    ReadableIsCanon(c, printer, v);
  }

  lemma {:induction false} Framed(es: seq<EmitEvent>, ps: seq<ParseEvent>) returns (body: seq<ParseEvent>)
    requires ArriveAll([EmitEvent.StreamStart] + [EmitEvent.DocumentStart] + es + [EmitEvent.DocumentEnd], ps)
    ensures ArriveAll(es, body)
    ensures ps == [ParseEvent.StreamStart, ParseEvent.DocumentStart] + body + [ParseEvent.DocumentEnd]
  {
    var head := [EmitEvent.StreamStart] + [EmitEvent.DocumentStart];
    ArriveParts(head + es, [EmitEvent.DocumentEnd], ps);
    var front := ps[..|ps| - 1];
    ArriveParts(head, es, front);
    body := front[2..];
    assert Arrives(head[0], front[..2][0]) && Arrives(head[1], front[..2][1]);
    assert Arrives(EmitEvent.DocumentEnd, ps[|ps| - 1..][0]);
    assert ps == front[..2] + body + ps[|ps| - 1..];
  }

  /** The printer of the source. */
  function Printer(fp: FloatParser, format: real -> string): ScalarPrinter {
    v => PrintScalar(fp, format, v)
  }

  /** The values a program can build are fit, if the library prints their floats well. */
  lemma {:induction false} ValidIsFit(fp: FloatParser, format: real -> string, v: Value)
    requires Valid(v) && TagsNamed(v) && NoNestedTag(v) && Printable(fp, format, v)
    ensures Fit(Resolver(fp), Printer(fp, format), v)
    decreases v, 0
  {
    match v {
      case Sequence(items) =>
        forall i | 0 <= i < |items| ensures Fit(Resolver(fp), Printer(fp, format), items[i]) {
          ValidIsFit(fp, format, items[i]);
        }
      case Mapping(entries) =>
        forall i | 0 <= i < |entries| ensures FitEntry(Resolver(fp), Printer(fp, format), entries[i]) {
          assert TagsNamedEntry(entries[i]) && NoNestedTagEntry(entries[i]);
          ValidIsFit(fp, format, entries[i].key);
          ValidIsFit(fp, format, entries[i].val);
        }
      case Tagged(_, inner) => ValidIsFit(fp, format, inner);
      case _ =>
        forall style | Honours(PrintScalar(fp, format, v).style, style)
          ensures Resolver(fp)(None, PrintScalar(fp, format, v).text, style, false) == Ok(v)
                  && forall tag :: Resolver(fp)(tag, PrintScalar(fp, format, v).text, style, true) == Ok(v)
        {
          ScalarRoundTrip(fp, format, v, style);
        }
    }
  }

  /** A text layer that keeps to its part of the bargain. */
  ghost predicate Faithful(layer: seq<EmitEvent> -> seq<ParseEvent>) {
    forall es :: ArriveAll(es, layer(es))
  }

  /** The smallest values that fall to each of the conditions below but the depth limit. */
  lemma {:induction false} LostValues(inner: Value)
    ensures !NoNestedTag(Tagged("x", Tagged("y", inner)))
    ensures Defects(Mapping([Entry(Mapping([Entry(Str("a"), Null)]), Null)]), false) == 1
    ensures Defects(Mapping([Entry(Tagged("x", Str("a")), Null)]), false) == 1
    ensures Defects(Tagged("x", Mapping([Entry(Tagged("x", Str("a")), Null)])), false) == 0
    ensures !TagsReadable(Tagged("!!x", Null)) && ReadTag("!!x") == "x"
  {
    OneEntryDefects(Entry(Str("a"), Null), false);
    OneEntryDefects(Entry(Mapping([Entry(Str("a"), Null)]), Null), false);
    OneEntryDefects(Entry(Tagged("x", Str("a")), Null), false);
    OneEntryDefects(Entry(Tagged("x", Str("a")), Null), true);
    assert NoBang("!!x") == "!x" && NoBang("!x") == "x";
  }

  lemma {:induction false} OneEntryDefects(e: Entry, underTag: bool)
    ensures Defects(Mapping([e]), underTag) == EntryDefects(e) + if !underTag && StartsPending(e.key) then 1 else 0
  {
    assert [e][..0] == [];
    assert EntriesDefects([]) == 0;
    assert EntriesDefects([e]) == EntriesDefects([e][..0]) + EntryDefects([e][0]);
  }

  /**
   Write a value and read the result, through any faithful text layer. The value comes back,
   entries in order and tags in normal form, exactly when no tag is directly under a tag, no
   untagged one-entry mapping has a key that is a tagged value or a one-entry mapping, no more
   than 128 collections are nested, and no tag starts with a `!` besides the leading one.
   */
  method WriteAndRead(v: Value, fp: FloatParser, format: real -> string, layer: seq<EmitEvent> -> seq<ParseEvent>)
    returns (r: Option<Value>)
    requires Valid(v) && TagsNamed(v) && Printable(fp, format, v) && Faithful(layer)
    ensures r == Some(Canon(v))
            <==> NoNestedTag(v) && Defects(v, false) == 0 && Depth(v) <= 128 && TagsReadable(v)
  {
    var serializer := new Serializer(Printer(fp, format));
    var outcome := serializer.SerializeDocument(v);
    if !outcome.Done? { return None; }
    ValidIsFit(fp, format, v);
    var ps := layer(serializer.events);
    ghost var n := StreamReadsBack(Printer(fp, format), Resolver(fp), v, ps);
    var result, _ := FromEvents(ps + [StreamEnd], Resolver(fp), Some(n));
    r := if result.Ok? then Some(result.value) else None;
  }
}
