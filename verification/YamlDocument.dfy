/**
 Loaded documents (3rdparty/serde_yaml/src/loader.rs, de.rs) and the meaning of their events.

 A document is a flat array of events. `Node` is the tree such an array spells, `Flat` spells
 it, and `Eval` gives its value by recursion on the tree: the reference the cursor of
 `YamlDeserializer` is measured against. A collection that is not `closed` is one the array
 ends inside of, which happens when the parser failed half way.
 */
module YamlDocument {
  import opened Wrappers
  import opened YamlValues
  import opened YamlScalars

  datatype Event =
    | Alias(id: nat)
    | Scalar(tag: Option<string>, text: string, style: Style)
    | SequenceStart(tag: Option<string>)
    | SequenceEnd
    | MappingStart(tag: Option<string>)
    | MappingEnd
    | Void

  datatype Document = Document(events: seq<Event>, error: Option<Error>, aliases: map<nat, nat>) {
    /** The error met by reading past the last event. */
    function EndError(): Error {
      if error.Some? then error.value else EndOfStream
    }

    /** How many jumps to aliases are allowed. */
    function JumpLimit(): nat { |events| * 100 }
  }

  datatype Kind = Seq | Map

  datatype Node =
    | Leaf(tag: Option<string>, text: string, style: Style)
    | Coll(kind: Kind, tag: Option<string>, children: seq<Node>, closed: bool)
    | Ref(id: nat)

  function StartEvent(kind: Kind, tag: Option<string>): Event {
    if kind.Seq? then SequenceStart(tag) else MappingStart(tag)
  }

  function EndEvent(kind: Kind): Event {
    if kind.Seq? then SequenceEnd else MappingEnd
  }

  function Flat(n: Node): (es: seq<Event>)
    ensures |es| > 0
    decreases n, 1
  {
    match n
    case Leaf(tag, text, style) => [Scalar(tag, text, style)]
    case Coll(kind, tag, children, closed) =>
      [StartEvent(kind, tag)] + FlatAll(children) + (if closed then [EndEvent(kind)] else [])
    case Ref(id) => [Alias(id)]
  }

  function FlatAll(ns: seq<Node>): seq<Event>
    decreases ns, 0
  {
    if ns == [] then [] else Flat(ns[0]) + FlatAll(ns[1..])
  }

  /** A complete node: every collection ends, and every mapping pairs its keys with values. */
  predicate Whole(n: Node) {
    match n
    case Coll(kind, _, children, closed) =>
      closed && (kind.Map? ==> |children| % 2 == 0) && forall i :: 0 <= i < |children| ==> Whole(children[i])
    case _ => true
  }

  /** A node the array may end inside of: only its last descendants can be incomplete. */
  predicate Proper(n: Node) {
    Whole(n)
    || (n.Coll? && !n.closed
        && (forall i :: 0 <= i < |n.children| - 1 ==> Whole(n.children[i]))
        && (n.children != [] ==> Proper(n.children[|n.children| - 1])))
  }

  // ---------------------------------------------------------------------------------
  // The meaning of a tree
  // ---------------------------------------------------------------------------------

  /** How a scalar becomes a value; `YamlScalars.VisitScalar` is the way the source has. */
  type ScalarResolver = (Option<string>, string, Style, bool) -> Result<Value>

  /** What evaluation depends on besides the tree: where aliases lead, and the limits. */
  datatype Context = Context(resolve: ScalarResolver, env: map<nat, Node>, limit: nat, endError: Error)

  /** A result together with the jumps made so far. */
  datatype Run<+T> = Run(result: Result<T>, jumps: nat)

  function Budget(c: Context, jumps: nat): nat {
    if jumps <= c.limit then c.limit + 1 - jumps else 0
  }

  function NodeTag(n: Node): Option<string> {
    if n.Leaf? || n.Coll? then n.tag else None
  }

  /** The value of a node, `tagged` when its tag has been taken as an enum variant already. */
  function Eval(c: Context, n: Node, jumps: nat, depth: nat, tagged: bool): (r: Run<Value>)
    ensures r.jumps >= jumps
    decreases Budget(c, jumps), n, if tagged then 1 else 2
  {
    var variant := if tagged then None else ParseTag(NodeTag(n));
    if variant.Some? then
      var inner := Eval(c, n, jumps, depth, true);
      if inner.result.Ok? then Run(Ok(Tagged(variant.value, inner.result.value)), inner.jumps) else inner
    else
      match n
      case Leaf(tag, text, style) => Run(c.resolve(tag, text, style, tagged), jumps)
      case Coll(Seq, _, children, closed) =>
        if depth == 0 then Run(Err(RecursionLimitExceeded), jumps)
        else
          var items := EvalItems(c, children, closed, jumps, depth - 1);
          if items.result.Ok? then Run(Ok(Sequence(items.result.value)), items.jumps)
          else Run(Err(items.result.error), items.jumps)
      case Coll(Map, _, children, closed) =>
        if depth == 0 then Run(Err(RecursionLimitExceeded), jumps)
        else
          var entries := EvalEntries(c, children, closed, [], jumps, depth - 1);
          if entries.result.Ok? then Run(Ok(Mapping(entries.result.value)), entries.jumps)
          else Run(Err(entries.result.error), entries.jumps)
      case Ref(id) =>
        if jumps + 1 > c.limit then Run(Err(RepetitionLimitExceeded), jumps + 1)
        else if id !in c.env then Run(Err(Panic), jumps + 1)
        else Eval(c, c.env[id], jumps + 1, depth, false)
  }

  /** The elements of a sequence, in order. */
  function EvalItems(c: Context, ns: seq<Node>, closed: bool, jumps: nat, depth: nat): (r: Run<seq<Value>>)
    ensures r.jumps >= jumps
    decreases Budget(c, jumps), ns, 0
  {
    if ns == [] then Run(if closed then Ok([]) else Err(c.endError), jumps)
    else
      var first := Eval(c, ns[0], jumps, depth, false);
      if first.result.Err? then Run(Err(first.result.error), first.jumps)
      else
        var rest := EvalItems(c, ns[1..], closed, first.jumps, depth);
        if rest.result.Err? then rest
        else Run(Ok([first.result.value] + rest.result.value), rest.jumps)
  }

  /** The entries of a mapping, after those in `done`; a key seen before is an error. */
  function EvalEntries(c: Context, ns: seq<Node>, closed: bool, done: seq<Entry>, jumps: nat, depth: nat):
    (r: Run<seq<Entry>>)
    ensures r.jumps >= jumps
    decreases Budget(c, jumps), ns, 0
  {
    if ns == [] then Run(if closed then Ok(done) else Err(c.endError), jumps)
    else
      var key := Eval(c, ns[0], jumps, depth, false);
      if key.result.Err? then Run(Err(key.result.error), key.jumps)
      else if KeyIn(key.result.value, done) then Run(Err(DuplicateKey), key.jumps)
      else if |ns| == 1 then Run(Err(if closed then Panic else c.endError), key.jumps)
      else
        var val := Eval(c, ns[1], key.jumps, depth, false);
        if val.result.Err? then Run(Err(val.result.error), val.jumps)
        else
          EvalEntries(c, ns[2..], closed, done + [Entry(key.result.value, val.result.value)], val.jumps, depth)
  }

  // ---------------------------------------------------------------------------------
  // Trees inside arrays
  // ---------------------------------------------------------------------------------

  /** The array spells `part` from `pos` on. */
  predicate SpellsAt(es: seq<Event>, pos: nat, part: seq<Event>) {
    pos + |part| <= |es| && es[pos..pos + |part|] == part
  }

  /** A node starts at `pos`; if it is incomplete, the array ends with it. */
  predicate StartsAt(es: seq<Event>, pos: nat, n: Node) {
    Proper(n) && SpellsAt(es, pos, Flat(n)) && (Whole(n) || pos + |Flat(n)| == |es|)
  }

  /** Only the last child of a collection that does not end may be incomplete. */
  predicate ChildrenFit(ns: seq<Node>, closed: bool) {
    && (forall i :: 0 <= i < |ns| - 1 ==> Whole(ns[i]))
    && (ns != [] ==> if closed then Whole(ns[|ns| - 1]) else Proper(ns[|ns| - 1]))
  }

  lemma {:induction false} RestFits(ns: seq<Node>, closed: bool)
    requires ns != [] && ChildrenFit(ns, closed)
    ensures ChildrenFit(ns[1..], closed)
  {
    var rest := ns[1..];
    assert forall i :: 0 <= i < |rest| ==> rest[i] == ns[i + 1];
  }

  /** The rest of a collection starts at `pos`, down to and without its end event. */
  predicate RestAt(es: seq<Event>, pos: nat, kind: Kind, ns: seq<Node>, closed: bool) {
    && SpellsAt(es, pos, FlatAll(ns))
    && ChildrenFit(ns, closed)
    && (if closed then pos + |FlatAll(ns)| < |es| && es[pos + |FlatAll(ns)|] == EndEvent(kind)
        else pos + |FlatAll(ns)| == |es|)
  }

  lemma {:induction false} SpellsParts(es: seq<Event>, pos: nat, a: seq<Event>, b: seq<Event>)
    requires SpellsAt(es, pos, a + b)
    ensures SpellsAt(es, pos, a) && SpellsAt(es, pos + |a|, b)
  {
    var whole := es[pos..pos + |a + b|];
    assert whole[..|a|] == a && whole[|a|..] == b;
    assert es[pos..pos + |a|] == whole[..|a|];
    assert es[pos + |a|..pos + |a| + |b|] == whole[|a|..];
  }

  lemma {:induction false} ProperClosed(n: Node)
    requires n.Coll? && Proper(n)
    ensures n.closed ==> Whole(n)
  {
  }

  /** Entering a collection. */
  lemma {:induction false} CollectionParts(es: seq<Event>, pos: nat, n: Node)
    requires n.Coll? && StartsAt(es, pos, n)
    ensures es[pos] == StartEvent(n.kind, n.tag)
    ensures RestAt(es, pos + 1, n.kind, n.children, n.closed)
    ensures |Flat(n)| == 1 + |FlatAll(n.children)| + if n.closed then 1 else 0
  {
    var start := [StartEvent(n.kind, n.tag)];
    var inside := FlatAll(n.children);
    var end := if n.closed then [EndEvent(n.kind)] else [];
    assert Flat(n) == start + (inside + end);
    SpellsParts(es, pos, start, inside + end);
    SpellsParts(es, pos + 1, inside, end);
    assert es[pos] == es[pos..pos + 1][0];
    if n.closed {
      var at := pos + 1 + |inside|;
      assert es[at] == es[at..at + 1][0];
    }
  }

  /** Meeting one child of a collection. */
  lemma {:induction false} ChildParts(es: seq<Event>, pos: nat, kind: Kind, ns: seq<Node>, closed: bool)
    requires ns != [] && RestAt(es, pos, kind, ns, closed)
    ensures StartsAt(es, pos, ns[0])
    ensures es[pos] == Flat(ns[0])[0]
    ensures !Whole(ns[0]) ==> |ns| == 1 && !closed
  {
    var first, rest := Flat(ns[0]), FlatAll(ns[1..]);
    SpellsParts(es, pos, first, rest);
    assert es[pos] == es[pos..pos + |first|][0];
    if |ns| == 1 {
      assert rest == [];
    }
  }

  /** Passing one child of a collection. */
  lemma {:induction false} NextParts(es: seq<Event>, pos: nat, kind: Kind, ns: seq<Node>, closed: bool)
    requires ns != [] && RestAt(es, pos, kind, ns, closed) && Whole(ns[0])
    ensures RestAt(es, pos + |Flat(ns[0])|, kind, ns[1..], closed)
    ensures |FlatAll(ns)| == |Flat(ns[0])| + |FlatAll(ns[1..])|
  {
    SpellsParts(es, pos, Flat(ns[0]), FlatAll(ns[1..]));
    RestFits(ns, closed);
  }

  /** A node never begins with an event that ends a collection. */
  lemma {:induction false} NodeBegins(n: Node)
    ensures Flat(n)[0].Alias? || Flat(n)[0].Scalar? || Flat(n)[0].SequenceStart? || Flat(n)[0].MappingStart?
  {
  }

  // ---------------------------------------------------------------------------------
  // Nesting
  // ---------------------------------------------------------------------------------

  /** The collections open after reading `es` with those in `open` open before, if all ends match. */
  function Nest(open: seq<Kind>, es: seq<Event>): Option<seq<Kind>> {
    if es == [] then Some(open)
    else
      match Nest(open, es[..|es| - 1])
      case None => None
      case Some(stack) => NestStep(stack, es[|es| - 1])
  }

  function NestStep(stack: seq<Kind>, e: Event): Option<seq<Kind>> {
    match e
    case SequenceStart(_) => Some(stack + [Seq])
    case MappingStart(_) => Some(stack + [Map])
    case SequenceEnd => if stack != [] && stack[|stack| - 1] == Seq then Some(stack[..|stack| - 1]) else None
    case MappingEnd => if stack != [] && stack[|stack| - 1] == Map then Some(stack[..|stack| - 1]) else None
    case _ => Some(stack)
  }

  lemma {:induction false} NestConcat(open: seq<Kind>, a: seq<Event>, b: seq<Event>)
    requires Nest(open, a).Some?
    ensures Nest(open, a + b) == Nest(Nest(open, a).value, b)
  {
    if b == [] {
      assert a + b == a;
    } else {
      var init := b[..|b| - 1];
      assert (a + b)[..|a + b| - 1] == a + init;
      NestConcat(open, a, init);
    }
  }

  lemma {:induction false} NestOne(open: seq<Kind>, e: Event)
    ensures Nest(open, [e]) == NestStep(open, e)
  {
    assert [e][..0] == [];
  }

  /** A complete node leaves the nesting as it found it. */
  lemma {:induction false} NestWhole(open: seq<Kind>, n: Node)
    requires Whole(n)
    ensures Nest(open, Flat(n)) == Some(open)
    decreases n, 1
  {
    match n {
      case Coll(kind, tag, children, _) =>
        var start, inside, end := [StartEvent(kind, tag)], FlatAll(children), [EndEvent(kind)];
        NestOne(open, start[0]);
        NestAll(open + [kind], children);
        NestConcat(open, start, inside);
        NestOne(open + [kind], end[0]);
        NestConcat(open, start + inside, end);
        assert (open + [kind])[..|open|] == open;
      case _ => NestOne(open, Flat(n)[0]);
    }
  }

  lemma {:induction false} NestAll(open: seq<Kind>, ns: seq<Node>)
    requires forall i :: 0 <= i < |ns| ==> Whole(ns[i])
    ensures Nest(open, FlatAll(ns)) == Some(open)
    decreases ns, 0
  {
    if ns != [] {
      NestWhole(open, ns[0]);
      NestAll(open, ns[1..]);
      NestConcat(open, Flat(ns[0]), FlatAll(ns[1..]));
    }
  }

  /** Inside a node, and at the end of an incomplete one, something more is open than before. */
  lemma {:induction false} NestInside(open: seq<Kind>, n: Node, k: nat)
    requires Proper(n) && 0 < k <= |Flat(n)| && (k == |Flat(n)| ==> !Whole(n))
    ensures Nest(open, Flat(n)[..k]).Some?
    ensures open < Nest(open, Flat(n)[..k]).value
    decreases n, 1
  {
    if n.Coll? {
      var start, inside := [StartEvent(n.kind, n.tag)], FlatAll(n.children);
      FlatPrefix(n, k);
      NestOne(open, start[0]);
      NestAllInside(open + [n.kind], n.children, k - 1);
      NestConcat(open, start, inside[..k - 1]);
    }
  }

  lemma {:induction false} FlatPrefix(n: Node, k: nat)
    requires n.Coll? && Proper(n) && 0 < k <= |Flat(n)| && (k == |Flat(n)| ==> !Whole(n))
    ensures k <= 1 + |FlatAll(n.children)|
    ensures Flat(n)[..k] == [StartEvent(n.kind, n.tag)] + FlatAll(n.children)[..k - 1]
  {
    if n.closed { ProperClosed(n); }
  }

  lemma {:induction false} NestAllInside(open: seq<Kind>, ns: seq<Node>, k: nat)
    requires forall i :: 0 <= i < |ns| - 1 ==> Whole(ns[i])
    requires ns != [] ==> Proper(ns[|ns| - 1])
    requires k <= |FlatAll(ns)|
    ensures Nest(open, FlatAll(ns)[..k]).Some?
    ensures open <= Nest(open, FlatAll(ns)[..k]).value
    decreases ns, 0
  {
    if k > 0 {
      var first, rest := Flat(ns[0]), FlatAll(ns[1..]);
      assert |ns| > 1 ==> ns[1..][|ns| - 2] == ns[|ns| - 1];
      if k < |first| || (k == |first| && !Whole(ns[0])) {
        assert FlatAll(ns)[..k] == first[..k];
        NestInside(open, ns[0], k);
      } else {
        assert |ns| == 1 ==> rest == [];
        assert FlatAll(ns)[..k] == first + rest[..k - |first|];
        NestWhole(open, ns[0]);
        NestAllInside(open, ns[1..], k - |first|);
        NestConcat(open, first, rest[..k - |first|]);
      }
    }
  }

  // ---------------------------------------------------------------------------------
  // No panics on well-nested documents
  // ---------------------------------------------------------------------------------

  predicate Resolved(n: Node, env: map<nat, Node>) {
    match n
    case Ref(id) => id in env
    case Coll(_, _, children, _) => forall i :: 0 <= i < |children| ==> Resolved(children[i], env)
    case _ => true
  }

  /** Every alias leads to a node, of which every alias leads to a node. */
  ghost predicate Closed(c: Context) {
    && c.endError != Panic
    && (forall tag, text, style, tagged :: c.resolve(tag, text, style, tagged) != Err(Panic))
    && forall id :: id in c.env ==> Proper(c.env[id]) && Resolved(c.env[id], c.env)
  }

  lemma {:induction false} EvalNeverPanics(c: Context, n: Node, jumps: nat, depth: nat, tagged: bool)
    requires Closed(c) && Proper(n) && Resolved(n, c.env)
    ensures Eval(c, n, jumps, depth, tagged).result != Err(Panic)
    decreases Budget(c, jumps), n, if tagged then 1 else 2
  {
    var variant := if tagged then None else ParseTag(NodeTag(n));
    if variant.Some? {
      EvalNeverPanics(c, n, jumps, depth, true);
    } else {
      match n {
        case Leaf(_, _, _) =>
        case Coll(kind, _, children, closed) =>
          if depth > 0 {
            if kind.Seq? { ItemsNeverPanic(c, children, closed, jumps, depth - 1); }
            else { EntriesNeverPanic(c, children, closed, [], jumps, depth - 1); }
          }
        case Ref(id) =>
          if jumps + 1 <= c.limit {
            EvalNeverPanics(c, c.env[id], jumps + 1, depth, false);
          }
      }
    }
  }

  predicate ProperChildren(ns: seq<Node>, env: map<nat, Node>) {
    forall i :: 0 <= i < |ns| ==> Proper(ns[i]) && Resolved(ns[i], env)
  }

  lemma {:induction false} ItemsNeverPanic(c: Context, ns: seq<Node>, closed: bool, jumps: nat, depth: nat)
    requires Closed(c) && ProperChildren(ns, c.env)
    ensures EvalItems(c, ns, closed, jumps, depth).result != Err(Panic)
    decreases Budget(c, jumps), ns, 0
  {
    if ns != [] {
      EvalNeverPanics(c, ns[0], jumps, depth, false);
      var first := Eval(c, ns[0], jumps, depth, false);
      if first.result.Ok? {
        ItemsNeverPanic(c, ns[1..], closed, first.jumps, depth);
      }
    }
  }

  lemma {:induction false} EntriesNeverPanic(c: Context, ns: seq<Node>, closed: bool, done: seq<Entry>, jumps: nat, depth: nat)
    requires Closed(c) && ProperChildren(ns, c.env) && (closed ==> |ns| % 2 == 0)
    ensures EvalEntries(c, ns, closed, done, jumps, depth).result != Err(Panic)
    decreases Budget(c, jumps), ns, 0
  {
    if ns != [] {
      EvalNeverPanics(c, ns[0], jumps, depth, false);
      var key := Eval(c, ns[0], jumps, depth, false);
      if key.result.Ok? && |ns| > 1 {
        EvalNeverPanics(c, ns[1], key.jumps, depth, false);
        var val := Eval(c, ns[1], key.jumps, depth, false);
        if val.result.Ok? {
          EntriesNeverPanic(c, ns[2..], closed, done + [Entry(key.result.value, val.result.value)], val.jumps, depth);
        }
      }
    }
  }

  // ---------------------------------------------------------------------------------
  // Incomplete nodes
  // ---------------------------------------------------------------------------------

  lemma {:induction false} OpenItemsFail(c: Context, ns: seq<Node>, jumps: nat, depth: nat)
    ensures EvalItems(c, ns, false, jumps, depth).result.Err?
    decreases |ns|
  {
    if ns != [] {
      OpenItemsFail(c, ns[1..], Eval(c, ns[0], jumps, depth, false).jumps, depth);
    }
  }

  lemma {:induction false} OpenEntriesFail(c: Context, ns: seq<Node>, done: seq<Entry>, jumps: nat, depth: nat)
    ensures EvalEntries(c, ns, false, done, jumps, depth).result.Err?
    decreases |ns|
  {
    if |ns| > 1 {
      var key := Eval(c, ns[0], jumps, depth, false);
      var val := Eval(c, ns[1], key.jumps, depth, false);
      if key.result.Ok? && val.result.Ok? {
        OpenEntriesFail(c, ns[2..], done + [Entry(key.result.value, val.result.value)], val.jumps, depth);
      }
    }
  }

  /** A node the array ends inside of has no value. */
  lemma {:induction false} IncompleteFails(c: Context, n: Node, jumps: nat, depth: nat, tagged: bool)
    requires Proper(n) && !Whole(n)
    ensures Eval(c, n, jumps, depth, tagged).result.Err?
  {
    if depth > 0 {
      OpenItemsFail(c, n.children, jumps, depth - 1);
      OpenEntriesFail(c, n.children, [], jumps, depth - 1);
    }
    assert Eval(c, n, jumps, depth, true).result.Err?;
  }
}
