/**
 Aliases stand for the nodes they lead to (section 7.1 of YAML 1.2.2).

 `Expands` relates a tree with aliases to the finite tree without them. Reading the first
 gives the value of the second, or the repetition limit; which of the two is decided by the
 number of aliases met on the way.
 */
module YamlAliases {
  import opened Wrappers
  import opened YamlValues
  import opened YamlScalars
  import opened YamlDocument

  /** `x` is `n` with every alias replaced by what it leads to, all the way down. */
  predicate Expands(env: map<nat, Node>, n: Node, x: Node)
    decreases x, if n.Ref? then 1 else 0
  {
    match n
    case Ref(id) => id in env && !env[id].Ref? && Expands(env, env[id], x)
    case Leaf(_, _, _) => x == n
    case Coll(kind, tag, children, closed) =>
      x.Coll? && x.kind == kind && x.tag == tag && x.closed == closed
      && |x.children| == |children|
      && forall i :: 0 <= i < |children| ==> Expands(env, children[i], x.children[i])
  }

  predicate ExpandsAll(env: map<nat, Node>, ns: seq<Node>, xs: seq<Node>) {
    |xs| == |ns| && forall i :: 0 <= i < |ns| ==> Expands(env, ns[i], xs[i])
  }

  /** How many aliases are met when `n` is read to its end. */
  function Visits(env: map<nat, Node>, n: Node, x: Node): nat
    requires Expands(env, n, x)
    decreases x, if n.Ref? then 2 else 1
  {
    match n
    case Ref(id) => 1 + Visits(env, env[id], x)
    case Leaf(_, _, _) => 0
    case Coll(_, _, children, _) => VisitsAll(env, children, x.children)
  }

  function VisitsAll(env: map<nat, Node>, ns: seq<Node>, xs: seq<Node>): nat
    requires ExpandsAll(env, ns, xs)
    decreases xs, 0
  {
    if ns == [] then 0 else Visits(env, ns[0], xs[0]) + VisitsAll(env, ns[1..], xs[1..])
  }

  /** No alias leads to an alias: anchors sit on nodes. */
  predicate LeadsToNodes(env: map<nat, Node>) {
    forall id :: id in env ==> !env[id].Ref?
  }

  /** The same surroundings, as far as a tree without aliases can tell. */
  ghost predicate Alike(c: Context, plain: Context) {
    c.resolve == plain.resolve && c.endError == plain.endError && c.endError != RepetitionLimitExceeded
  }

  ghost predicate NoRepetitionError(c: Context) {
    forall tag, text, style, tagged :: c.resolve(tag, text, style, tagged) != Err(RepetitionLimitExceeded)
  }

  /** How a run over a tree with aliases compares to the run `plain` over its expansion. */
  predicate Matches<T(==)>(c: Context, run: Run<T>, plain: Run<T>, jumps: nat, visits: nat) {
    && plain.jumps == 0
    && plain.result != Err(RepetitionLimitExceeded)
    && (run.result == plain.result || run.result == Err(RepetitionLimitExceeded))
    && (run.result.Ok? ==> run.jumps == jumps + visits && (visits > 0 ==> run.jumps <= c.limit))
    && (jumps + visits <= c.limit ==> run.result == plain.result)
  }

  /** Reading an alias is reading what it leads to, until the repetition limit is reached. */
  lemma {:induction false} AliasTransparency(c: Context, plain: Context, n: Node, x: Node, jumps: nat, depth: nat, tagged: bool)
    requires Alike(c, plain) && NoRepetitionError(c) && Expands(c.env, n, x)
    ensures Matches(c, Eval(c, n, jumps, depth, tagged), Eval(plain, x, 0, depth, tagged && !n.Ref?),
                    jumps, Visits(c.env, n, x))
    decreases x, if n.Ref? then 4 else if tagged then 1 else 2
  {
    var variant := if tagged then None else ParseTag(NodeTag(n));
    if variant.Some? {
      AliasTransparency(c, plain, n, x, jumps, depth, true);
    } else {
      match n {
        case Ref(id) =>
          if jumps + 1 <= c.limit {
            AliasTransparency(c, plain, c.env[id], x, jumps + 1, depth, false);
          } else {
            AliasTransparency(c, plain, c.env[id], x, jumps, depth, false);
          }
        case Leaf(_, _, _) =>
        case Coll(_, _, _, _) => CollectionTransparency(c, plain, n, x, jumps, depth, tagged);
      }
    }
  }

  lemma {:induction false} CollectionTransparency(c: Context, plain: Context, n: Node, x: Node, jumps: nat, depth: nat, tagged: bool)
    requires Alike(c, plain) && NoRepetitionError(c) && Expands(c.env, n, x)
    requires n.Coll? && (tagged || ParseTag(NodeTag(n)).None?)
    ensures Matches(c, Eval(c, n, jumps, depth, tagged), Eval(plain, x, 0, depth, tagged),
                    jumps, Visits(c.env, n, x))
    decreases x, 0
  {
    if depth > 0 {
      if n.kind.Seq? { ItemsTransparency(c, plain, n.children, x.children, n.closed, jumps, depth - 1); }
      else { EntriesTransparency(c, plain, n.children, x.children, n.closed, [], jumps, depth - 1); }
    }
  }

  lemma {:induction false} ItemsTransparency(c: Context, plain: Context, ns: seq<Node>, xs: seq<Node>, closed: bool, jumps: nat, depth: nat)
    requires Alike(c, plain) && NoRepetitionError(c) && ExpandsAll(c.env, ns, xs)
    ensures Matches(c, EvalItems(c, ns, closed, jumps, depth), EvalItems(plain, xs, closed, 0, depth),
                    jumps, VisitsAll(c.env, ns, xs))
    decreases xs, 0
  {
    if ns != [] {
      AliasTransparency(c, plain, ns[0], xs[0], jumps, depth, false);
      var first := Eval(c, ns[0], jumps, depth, false);
      ItemsTransparency(c, plain, ns[1..], xs[1..], closed, first.jumps, depth);
    }
  }

  lemma {:induction false} EntriesTransparency(c: Context, plain: Context, ns: seq<Node>, xs: seq<Node>, closed: bool, done: seq<Entry>,
                                               jumps: nat, depth: nat)
    requires Alike(c, plain) && NoRepetitionError(c) && ExpandsAll(c.env, ns, xs)
    ensures Matches(c, EvalEntries(c, ns, closed, done, jumps, depth), EvalEntries(plain, xs, closed, done, 0, depth),
                    jumps, VisitsAll(c.env, ns, xs))
    decreases xs, 0
  {
    if ns != [] {
      AliasTransparency(c, plain, ns[0], xs[0], jumps, depth, false);
      if |ns| > 1 {
        var key := Eval(c, ns[0], jumps, depth, false);
        AliasTransparency(c, plain, ns[1], xs[1], key.jumps, depth, false);
        var val := Eval(c, ns[1], key.jumps, depth, false);
        var plainKey := Eval(plain, xs[0], 0, depth, false).result;
        var plainVal := Eval(plain, xs[1], 0, depth, false).result;
        if plainKey.Ok? && plainVal.Ok? {
          assert ns[1..][1..] == ns[2..] && xs[1..][1..] == xs[2..];
          EntriesTransparency(c, plain, ns[2..], xs[2..], closed, done + [Entry(plainKey.value, plainVal.value)], val.jumps, depth);
        }
      }
    }
  }

  // ---------------------------------------------------------------------------------
  // Expansions exist for everything that can be read, and are unique
  // ---------------------------------------------------------------------------------

  lemma {:induction false} ExpansionIsUnique(env: map<nat, Node>, n: Node, x: Node, y: Node)
    requires Expands(env, n, x) && Expands(env, n, y)
    ensures x == y
    decreases x, if n.Ref? then 1 else 0
  {
    match n {
      case Ref(id) => ExpansionIsUnique(env, env[id], x, y);
      case Leaf(_, _, _) =>
      case Coll(_, _, children, _) =>
        forall i | 0 <= i < |children| ensures x.children[i] == y.children[i] {
          ExpansionIsUnique(env, children[i], x.children[i], y.children[i]);
        }
        assert x.children == y.children;
    }
  }

  /** What has a value has an expansion: a tree that leads back into itself is never read to an end. */
  lemma {:induction false} ReadableExpands(c: Context, n: Node, jumps: nat, depth: nat, tagged: bool) returns (x: Node)
    requires LeadsToNodes(c.env) && Eval(c, n, jumps, depth, tagged).result.Ok?
    ensures Expands(c.env, n, x)
    decreases Budget(c, jumps), n, if tagged then 1 else 2
  {
    var variant := if tagged then None else ParseTag(NodeTag(n));
    if variant.Some? {
      x := ReadableExpands(c, n, jumps, depth, true);
    } else {
      match n {
        case Ref(id) => x := ReadableExpands(c, c.env[id], jumps + 1, depth, false);
        case Leaf(_, _, _) => x := n;
        case Coll(kind, tag, children, closed) =>
          var xs;
          if kind.Seq? { xs := ReadableItemsExpand(c, children, closed, jumps, depth - 1); }
          else { xs := ReadableEntriesExpand(c, children, closed, [], jumps, depth - 1); }
          x := Coll(kind, tag, xs, closed);
      }
    }
  }

  lemma {:induction false} ReadableItemsExpand(c: Context, ns: seq<Node>, closed: bool, jumps: nat, depth: nat) returns (xs: seq<Node>)
    requires LeadsToNodes(c.env) && EvalItems(c, ns, closed, jumps, depth).result.Ok?
    ensures ExpandsAll(c.env, ns, xs)
    decreases Budget(c, jumps), ns, 0
  {
    xs := [];
    if ns != [] {
      var x := ReadableExpands(c, ns[0], jumps, depth, false);
      var rest := ReadableItemsExpand(c, ns[1..], closed, Eval(c, ns[0], jumps, depth, false).jumps, depth);
      xs := [x] + rest;
    }
  }

  lemma {:induction false} ReadableEntriesExpand(c: Context, ns: seq<Node>, closed: bool, done: seq<Entry>, jumps: nat, depth: nat)
    returns (xs: seq<Node>)
    requires LeadsToNodes(c.env) && EvalEntries(c, ns, closed, done, jumps, depth).result.Ok?
    ensures ExpandsAll(c.env, ns, xs)
    decreases Budget(c, jumps), ns, 0
  {
    xs := [];
    if ns != [] {
      var key := Eval(c, ns[0], jumps, depth, false);
      var val := Eval(c, ns[1], key.jumps, depth, false);
      var x := ReadableExpands(c, ns[0], jumps, depth, false);
      var y := ReadableExpands(c, ns[1], key.jumps, depth, false);
      var rest := ReadableEntriesExpand(c, ns[2..], closed, done + [Entry(key.result.value, val.result.value)], val.jumps, depth);
      xs := [x, y] + rest;
    }
  }

  /**
   A document with aliases has a value exactly when its finite expansion has that value and
   the aliases met on the way stay within the limit.
   */
  lemma {:induction false} AliasesAreExpanded(c: Context, plain: Context, n: Node, depth: nat, v: Value)
    requires Alike(c, plain) && NoRepetitionError(c) && LeadsToNodes(c.env)
    ensures Eval(c, n, 0, depth, false).result == Ok(v)
            <==> exists x :: Expands(c.env, n, x)
                             && Eval(plain, x, 0, depth, false).result == Ok(v)
                             && Visits(c.env, n, x) <= c.limit
  {
    if Eval(c, n, 0, depth, false).result == Ok(v) {
      var x := ReadableExpands(c, n, 0, depth, false);
      AliasTransparency(c, plain, n, x, 0, depth, false);
      assert Expands(c.env, n, x);
    }
    forall x | Expands(c.env, n, x) && Eval(plain, x, 0, depth, false).result == Ok(v) && Visits(c.env, n, x) <= c.limit
      ensures Eval(c, n, 0, depth, false).result == Ok(v)
    {
      AliasTransparency(c, plain, n, x, 0, depth, false);
    }
  }
}
