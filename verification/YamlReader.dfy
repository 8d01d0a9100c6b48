/**
 From parser events to a value: the loader, the deserializer, and the checks around them
 (3rdparty/serde_yaml/src/de.rs, `Deserializer::de`).
 */
module YamlReader {
  import opened Wrappers
  import opened YamlValues
  import opened YamlScalars
  import opened YamlDocument
  import opened YamlLoader
  import opened YamlDeserializer
  import opened YamlAliases

  /** The node that starts `k` events into `n`. */
  ghost function NodeAt(n: Node, k: nat): Node
    requires k < |Flat(n)| && IsNodeStart(Flat(n)[k])
    decreases n, 1
  {
    if k == 0 then n else NodeAtAll(n.children, k - 1)
  }

  ghost function NodeAtAll(ns: seq<Node>, k: nat): Node
    requires k < |FlatAll(ns)| && IsNodeStart(FlatAll(ns)[k])
    decreases ns, 0
  {
    if k < |Flat(ns[0])| then NodeAt(ns[0], k) else NodeAtAll(ns[1..], k - |Flat(ns[0])|)
  }

  /** A node inside a node starts where its first event is, and its aliases are resolved too. */
  lemma {:induction false} NodeAtStarts(es: seq<Event>, pos: nat, n: Node, k: nat, env: map<nat, Node>)
    requires StartsAt(es, pos, n) && k < |Flat(n)| && IsNodeStart(Flat(n)[k])
    ensures StartsAt(es, pos + k, NodeAt(n, k))
    ensures !NodeAt(n, k).Ref?
    ensures Resolved(n, env) ==> Resolved(NodeAt(n, k), env)
    decreases n, 1
  {
    if k > 0 {
      CollectionParts(es, pos, n);
      NodeAtAllStarts(es, pos + 1, n.kind, n.children, n.closed, k - 1, env);
    }
  }

  lemma {:induction false} NodeAtAllStarts(es: seq<Event>, pos: nat, kind: Kind, ns: seq<Node>, closed: bool, k: nat, env: map<nat, Node>)
    requires RestAt(es, pos, kind, ns, closed) && k < |FlatAll(ns)| && IsNodeStart(FlatAll(ns)[k])
    ensures StartsAt(es, pos + k, NodeAtAll(ns, k))
    ensures !NodeAtAll(ns, k).Ref?
    ensures (forall i :: 0 <= i < |ns| ==> Resolved(ns[i], env)) ==> Resolved(NodeAtAll(ns, k), env)
    decreases ns, 0
  {
    ChildParts(es, pos, kind, ns, closed);
    if k < |Flat(ns[0])| {
      NodeAtStarts(es, pos, ns[0], k, env);
    } else {
      NextParts(es, pos, kind, ns, closed);
      NodeAtAllStarts(es, pos + |Flat(ns[0])|, kind, ns[1..], closed, k - |Flat(ns[0])|, env);
    }
  }

  /** If every alias event of the array is in the table, every alias of the tree is. */
  lemma {:induction false} TreeIsResolved(es: seq<Event>, pos: nat, n: Node, env: map<nat, Node>)
    requires StartsAt(es, pos, n)
    requires forall k :: 0 <= k < |es| && es[k].Alias? ==> es[k].id in env
    ensures Resolved(n, env)
    decreases n, 1
  {
    NodeHead(es, pos, n);
    if n.Coll? {
      ChildrenAreResolved(es, pos + 1, n.kind, n.children, n.closed, env);
    }
  }

  lemma {:induction false} ChildrenAreResolved(es: seq<Event>, pos: nat, kind: Kind, ns: seq<Node>, closed: bool, env: map<nat, Node>)
    requires RestAt(es, pos, kind, ns, closed)
    requires forall k :: 0 <= k < |es| && es[k].Alias? ==> es[k].id in env
    ensures forall i :: 0 <= i < |ns| ==> Resolved(ns[i], env)
    decreases ns, 0
  {
    if ns != [] {
      ChildParts(es, pos, kind, ns, closed);
      TreeIsResolved(es, pos, ns[0], env);
      if |ns| > 1 {
        NextParts(es, pos, kind, ns, closed);
        ChildrenAreResolved(es, pos + |Flat(ns[0])|, kind, ns[1..], closed, env);
        forall i | 1 <= i < |ns| ensures Resolved(ns[i], env) {
          assert ns[i] == ns[1..][i - 1];
        }
      }
    }
  }

  /** Where the aliases of a document that spells `root` lead. */
  ghost function EnvOf(r: Reading, root: Node): (env: map<nat, Node>)
    requires Flat(root) == LoadedDocument(r).events
  {
    var aliases := LoadedDocument(r).aliases;
    map id | id in aliases :: TableLeads(r, id); NodeAt(root, aliases[id])
  }

  /** A document read from a stream is closed under its aliases, and they lead to nodes. */
  lemma {:induction false} EnvIsClosed(input: seq<ParseEvent>, r: Reading, root: Node)
    requires r == ReadDocument(input, 0, []) && Flat(root) == LoadedDocument(r).events && Proper(root)
    ensures var env := EnvOf(r, root);
            var d := LoadedDocument(r);
            env.Keys == d.aliases.Keys
            && (forall id :: id in env ==> StartsAt(d.events, d.aliases[id], env[id]))
            && (forall id :: id in env ==> Resolved(env[id], env))
            && LeadsToNodes(env) && Resolved(root, env)
  {
    var env, d := EnvOf(r, root), LoadedDocument(r);
    assert StartsAt(d.events, 0, root) by { assert d.events[0..|d.events|] == d.events; }
    forall k | 0 <= k < |d.events| && d.events[k].Alias? ensures d.events[k].id in env {
      AliasesLead(r, input, 0, k);
    }
    TreeIsResolved(d.events, 0, root, env);
    forall id | id in env
      ensures StartsAt(d.events, d.aliases[id], env[id]) && Resolved(env[id], env) && !env[id].Ref?
    {
      TableLeads(r, id);
      NodeAtStarts(d.events, 0, root, d.aliases[id], env);
    }
  }

  /** The stream has no second document. */
  predicate NoMoreDocuments(input: seq<ParseEvent>, r: Reading) {
    r.stop.AtStreamEnd? || ReadDocument(input, r.next, []).stop.AtStreamEnd?
  }

  ghost function ReadContext(resolve: ScalarResolver, r: Reading, root: Node): Context
    requires Flat(root) == LoadedDocument(r).events
  {
    var d := LoadedDocument(r);
    Context(resolve, EnvOf(r, root), d.JumpLimit(), d.EndError())
  }

  /** What reading a stream gives, in terms of the tree its first document spells. */
  ghost function Meaning(input: seq<ParseEvent>, resolve: ScalarResolver, r: Reading, root: Node): Result<Value>
    requires Flat(root) == LoadedDocument(r).events
  {
    var result := Eval(ReadContext(resolve, r, root), root, 0, MAX_DEPTH, false).result;
    if result.Err? then result
    else if StopError(r.stop).Some? then Err(StopError(r.stop).value)
    else if NoMoreDocuments(input, r) then result
    else Err(MoreThanOneDocument)
  }

  /**
   Read the only document of a stream. `root` is the tree it spells, if it spells one;
   `steps` is the number of times an event was looked at.
   */
  method FromEvents(input: seq<ParseEvent>, resolve: ScalarResolver, ghost root: Option<Node>)
    returns (r: Result<Value>, ghost steps: nat)
    requires root.Some? ==>
               Proper(root.value) && Flat(root.value) == LoadedDocument(ReadDocument(input, 0, [])).events
    ensures root.Some? ==> r == Meaning(input, resolve, ReadDocument(input, 0, []), root.value)
    ensures ReadDocument(input, 0, []).raw == [] && ReadDocument(input, 0, []).stop.AtStreamEnd? ==> r == Ok(Null)
    ensures var n := |LoadedDocument(ReadDocument(input, 0, [])).events|;
            steps <= 8 * (n * (100 * n + 1)) + 2
  {
    var loader := new Loader(input);
    ghost var reading := ReadDocument(input, 0, []);
    var document := loader.NextDocument();
    assert document == Some(LoadedDocument(reading));
    var doc := document.value;
    ghost var env := map[];
    if root.Some? {
      EnvIsClosed(input, reading, root.value);
      env := EnvOf(reading, root.value);
    }
    forall id | id in doc.aliases ensures doc.aliases[id] <= |doc.events| {
      TableLeads(reading, id);
    }
    var de := new Deserializer(doc, resolve, env);
    assert root.Some? ==> StartsAt(doc.events, 0, root.value) by {
      assert doc.events[0..|doc.events|] == doc.events;
    }
    r := de.DeserializeAny(root);
    steps := de.steps;
    StepBound(|doc.events|, de.pos, de.jumpcount);
    if r.Err? { return; }
    if doc.error.Some? {
      r := Err(doc.error.value);
      return;
    }
    var next := loader.NextDocument();
    if next.Some? {
      r := Err(MoreThanOneDocument);
    }
  }

  lemma {:induction false} StepBound(n: nat, pos: nat, jumps: nat)
    requires pos <= n && jumps <= 100 * n + 1
    ensures 3 * pos + jumps * (3 * n + 1) + 1 <= 8 * (n * (100 * n + 1)) + 2
  {
    var k, most := 3 * n + 1, 100 * n + 1;
    Widen(jumps, most, k);
    var square := n * n;
    assert n * most == 100 * square + n;
    assert most * k == 300 * square + 103 * n + 1;
    if n > 0 { Widen(1, n, n); }
  }

  lemma {:induction false} Widen(a: nat, b: nat, k: nat)
    requires a <= b
    ensures a * k <= b * k
  {
    assert b * k == a * k + (b - a) * k;
  }

  /** No well-nested document makes the deserializer panic. */
  lemma {:induction false} WellNestedNeverPanics(input: seq<ParseEvent>, fp: FloatParser, root: Node)
    requires Proper(root) && Flat(root) == LoadedDocument(ReadDocument(input, 0, [])).events
    ensures Meaning(input, Resolver(fp), ReadDocument(input, 0, []), root) != Err(Panic)
  {
    var r := ReadDocument(input, 0, []);
    var c := ReadContext(Resolver(fp), r, root);
    EnvIsClosed(input, r, root);
    assert forall tag, text, style, tagged ::
        c.resolve(tag, text, style, tagged) == VisitScalar(fp, tag, text, style, tagged);
    EvalNeverPanics(c, root, 0, MAX_DEPTH, false);
  }

  /** Scalars become values the way the source has it. */
  function Resolver(fp: FloatParser): ScalarResolver {
    (tag, text, style, tagged) => VisitScalar(fp, tag, text, style, tagged)
  }

  // ---------------------------------------------------------------------------------
  // Aliases in whole documents
  // ---------------------------------------------------------------------------------

  /** With distinct anchors, an alias leads to the node that carries the anchor it names. */
  lemma {:induction false} AliasNamesItsNode(input: seq<ParseEvent>, r: Reading, root: Node, k: nat) returns (i: nat)
    requires r == ReadDocument(input, 0, []) && Flat(root) == LoadedDocument(r).events && Proper(root)
    requires DistinctAnchors(r.raw) && k < |r.raw| && r.raw[k].ParsedAlias?
    ensures i < k && AnchorOf(r.raw[i]) == Some(r.raw[k].name) && IsNodeStart(Flat(root)[i])
    ensures LoadedDocument(r).events[k].Alias? && LoadedDocument(r).events[k].id in EnvOf(r, root)
    ensures EnvOf(r, root)[LoadedDocument(r).events[k].id] == NodeAt(root, i)
  {
    ReadingIsDefined(input, 0, []);
    DistinctAnchorsResolve(r.raw, k);
    LoadedAt(r.raw, |r.raw|, k);
    i := Table(r.raw)[LoadedEvent(r.raw, k).id];
    LoadedAt(r.raw, |r.raw|, i);
  }

  /** The surroundings of a document of its own, without aliases, that spells `x`. */
  function PlainContext(fp: FloatParser, x: Node): Context {
    Context(Resolver(fp), map[], |Flat(x)| * 100, EndOfStream)
  }

  /**
   A complete document reads as `v` exactly when the document it expands to, a finite one,
   reads as `v`, and the aliases met are at most a hundred for each event.
   */
  lemma {:induction false} DocumentIsItsExpansion(input: seq<ParseEvent>, fp: FloatParser, root: Node, v: Value)
    requires var r := ReadDocument(input, 0, []);
             Proper(root) && Flat(root) == LoadedDocument(r).events
             && StopError(r.stop).None? && NoMoreDocuments(input, r)
    ensures var r := ReadDocument(input, 0, []);
            Meaning(input, Resolver(fp), r, root) == Ok(v)
            <==> exists x :: Expands(EnvOf(r, root), root, x)
                             && Eval(PlainContext(fp, x), x, 0, MAX_DEPTH, false).result == Ok(v)
                             && Visits(EnvOf(r, root), root, x) <= 100 * |Flat(root)|
  {
    var r := ReadDocument(input, 0, []);
    var c := ReadContext(Resolver(fp), r, root);
    EnvIsClosed(input, r, root);
    assert NoRepetitionError(c) by {
      assert forall tag, text, style, tagged ::
          c.resolve(tag, text, style, tagged) == VisitScalar(fp, tag, text, style, tagged);
    }
    if Meaning(input, Resolver(fp), r, root) == Ok(v) {
      var x := ReadableExpands(c, root, 0, MAX_DEPTH, false);
      AliasTransparency(c, PlainContext(fp, x), root, x, 0, MAX_DEPTH, false);
    }
    forall x | Expands(c.env, root, x)
               && Eval(PlainContext(fp, x), x, 0, MAX_DEPTH, false).result == Ok(v)
               && Visits(c.env, root, x) <= 100 * |Flat(root)|
      ensures Meaning(input, Resolver(fp), r, root) == Ok(v)
    {
      AliasTransparency(c, PlainContext(fp, x), root, x, 0, MAX_DEPTH, false);
    }
  }
}
