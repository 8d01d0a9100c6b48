/**
 The deserializer over a loaded document (3rdparty/serde_yaml/src/de.rs): a cursor, a jump
 budget, a recursion budget and the "current enum" flag, driven by the visitor that builds a
 value.

 Every method takes the node it stands on as a ghost argument. With a node, its contract is
 `Eval` of that node and the exact end of that node; without one, the events are arbitrary
 and the contract bounds the work done. `steps` counts the events looked at.
 */
module YamlDeserializer {
  import opened Wrappers
  import opened YamlValues
  import opened YamlScalars
  import opened YamlDocument

  const MAX_DEPTH: nat := 128

  /** The values read so far, put in front of what is still to come. */
  function Prepend(vs: seq<Value>, rest: Run<seq<Value>>): Run<seq<Value>> {
    if rest.result.Ok? then Run(Ok(vs + rest.result.value), rest.jumps) else rest
  }

  class Deserializer {
    const doc: Document
    const resolve: ScalarResolver
    ghost const env: map<nat, Node>
    var pos: nat
    var jumpcount: nat
    var remainingDepth: nat
    var inEnum: bool
    ghost var steps: nat
    ghost var credit: nat

    constructor (doc: Document, resolve: ScalarResolver, ghost env: map<nat, Node>)
      ensures this.doc == doc && this.resolve == resolve && this.env == env
      ensures pos == 0 && jumpcount == 0 && remainingDepth == MAX_DEPTH && !inEnum && steps == 0 && credit == 0
    {
      this.doc, this.resolve, this.env := doc, resolve, env;
      pos, jumpcount, remainingDepth, inEnum, steps, credit := 0, 0, MAX_DEPTH, false, 0, 0;
    }

    ghost function Ctx(): Context {
      Context(resolve, env, doc.JumpLimit(), doc.EndError())
    }

    /** What one jump can cost at most: three looks at each event, and one past the end. */
    ghost function JumpCost(): nat { 3 * |doc.events| + 1 }

    /** Where aliases lead, for documents that spell trees. */
    ghost predicate EnvFits() {
      env.Keys == doc.aliases.Keys
      && forall id :: id in doc.aliases ==> StartsAt(doc.events, doc.aliases[id], env[id])
    }

    ghost predicate InBounds()
      reads this
    {
      && pos <= |doc.events| && jumpcount <= doc.JumpLimit() + 1
      && credit == jumpcount * JumpCost()
      && forall id :: id in doc.aliases ==> doc.aliases[id] <= |doc.events|
    }

    /**
     The cursor only moves forward, the jumps are counted, and every look is paid for: three
     for each event passed, the cost of a jump for each jump, and `extra`.
     */
    twostate predicate Paid(extra: int)
      reads this
    {
      && InBounds()
      && old(pos) <= pos && old(jumpcount) <= jumpcount && old(credit) <= credit
      && remainingDepth == old(remainingDepth)
      && steps <= old(steps) + 3 * (pos - old(pos)) + (credit - old(credit)) + extra
    }

    ghost predicate Agrees<T>(r: Result<T>, run: Run<T>)
      reads this
    {
      r == run.result && jumpcount == run.jumps
    }

    method PeekEvent() returns (r: Result<Event>)
      modifies this`steps
      ensures steps == old(steps) + 1
      ensures r == if pos < |doc.events| then Ok(doc.events[pos]) else Err(doc.EndError())
    {
      steps := steps + 1;
      if pos < |doc.events| {
        r := Ok(doc.events[pos]);
      } else {
        r := Err(if doc.error.Some? then doc.error.value else EndOfStream);
      }
    }

    method NextEvent() returns (r: Result<Event>)
      modifies this`steps, this`pos, this`inEnum
      ensures steps == old(steps) + 1
      ensures old(pos) < |doc.events| ==> r == Ok(doc.events[old(pos)]) && pos == old(pos) + 1 && !inEnum
      ensures old(pos) >= |doc.events| ==> r == Err(doc.EndError()) && pos == old(pos)
    {
      var event :- PeekEvent();
      pos := pos + 1;
      inEnum := false;
      return Ok(event);
    }

    /** Skip one node, aliases not followed. */
    method IgnoreAny(ghost n: Option<Node>) returns (r: Result<()>)
      modifies this`steps, this`pos, this`inEnum
      requires InBounds()
      requires n.Some? ==> StartsAt(doc.events, pos, n.value)
      ensures old(pos) <= pos <= |doc.events|
      ensures r.Ok? ==> pos > old(pos) && Nest([], doc.events[old(pos)..pos]) == Some([])
      ensures r == Err(Panic) && doc.EndError() != Panic ==> Nest([], doc.events[old(pos)..pos]).None?
      ensures steps <= old(steps) + (pos - old(pos)) + if r.Err? then 1 else 0
      ensures n.Some? && Whole(n.value) ==> r.Ok? && pos == old(pos) + |Flat(n.value)|
      ensures n.Some? && !Whole(n.value) ==> r == Err(doc.EndError()) && pos == |doc.events|
    {
      ghost var start := pos;
      var stack: seq<Kind> := [];
      while true
        invariant start <= pos <= |doc.events|
        invariant Nest([], doc.events[start..pos]) == Some(stack)
        invariant pos > start ==> stack != []
        invariant steps == old(steps) + (pos - start)
        invariant n.Some? ==> pos < start + |Flat(n.value)| || (pos == start + |Flat(n.value)| && !Whole(n.value))
        decreases |doc.events| - pos
      {
        var event :- NextEvent();
        NestGrows(doc.events, start, pos - 1, stack);
        if n.Some? { NestAt(doc.events, start, n.value, pos); }
        match event {
          case SequenceStart(_) => stack := stack + [Seq];
          case MappingStart(_) => stack := stack + [Map];
          case SequenceEnd =>
            if stack == [] || stack[|stack| - 1] != Seq { return Err(Panic); }
            stack := stack[..|stack| - 1];
          case MappingEnd =>
            if stack == [] || stack[|stack| - 1] != Map { return Err(Panic); }
            stack := stack[..|stack| - 1];
          case _ =>
        }
        if stack == [] { return Ok(()); }
      }
    }

    /** What a value costs besides: its first event is looked at once, or twice if it is tagged. */
    ghost function Change(ok: bool, inEnum: bool, pos: nat): int {
      if ok then (if inEnum then -2 else -1)
      else if inEnum && pos < |doc.events| then 0 else 1
    }

    /** One value. */
    method DeserializeAny(ghost n: Option<Node>) returns (r: Result<Value>)
      modifies this
      requires InBounds() && jumpcount <= doc.JumpLimit()
      requires n.Some? ==> EnvFits() && StartsAt(doc.events, pos, n.value)
      ensures Paid(Change(r.Ok?, old(inEnum), old(pos)))
      ensures r.Ok? ==> pos > old(pos) && jumpcount <= doc.JumpLimit()
      ensures old(pos) == |doc.events| ==> r == Err(doc.EndError()) && jumpcount == old(jumpcount)
      ensures old(pos) < |doc.events| && (doc.events[old(pos)].SequenceEnd? || doc.events[old(pos)].MappingEnd?) ==>
                r == Err(Panic) && jumpcount == old(jumpcount)
      ensures old(pos) < |doc.events| && doc.events[old(pos)].Void? ==> r == Ok(Null)
      ensures n.Some? ==>
                Agrees(r, Eval(Ctx(), n.value, old(jumpcount), old(remainingDepth), old(inEnum)))
      ensures n.Some? && r.Ok? ==> Whole(n.value) && pos == old(pos) + |Flat(n.value)|
      decreases doc.JumpLimit() + 1 - jumpcount, |doc.events| - pos, if inEnum then 0 else 2
    {
      if n.Some? { NodeHead(doc.events, pos, n.value); }
      var taggedAlready := inEnum;
      var event :- NextEvent();
      var variant := if taggedAlready then None else EventTag(event);
      if variant.Some? {
        pos := pos - 1;
        r := VisitEnum(variant.value, n);
      } else {
        r := VisitEvent(event, taggedAlready, n);
      }
    }

    /** An event just passed that is not to be read as a tag. */
    method VisitEvent(event: Event, tagged: bool, ghost n: Option<Node>) returns (r: Result<Value>)
      modifies this
      requires InBounds() && jumpcount <= doc.JumpLimit() && !inEnum
      requires pos > 0 && event == doc.events[pos - 1] && (tagged || EventTag(event).None?)
      requires n.Some? ==> EnvFits() && StartsAt(doc.events, pos - 1, n.value)
      ensures Paid(if r.Ok? then 0 else 2)
      ensures r.Ok? ==> jumpcount <= doc.JumpLimit()
      ensures event.SequenceEnd? || event.MappingEnd? ==> r == Err(Panic) && jumpcount == old(jumpcount)
      ensures event.Void? ==> r == Ok(Null)
      ensures n.Some? ==>
                Agrees(r, Eval(Ctx(), n.value, old(jumpcount), old(remainingDepth), tagged))
      ensures n.Some? && r.Ok? ==> Whole(n.value) && pos == old(pos) - 1 + |Flat(n.value)|
      decreases doc.JumpLimit() + 1 - jumpcount, |doc.events| - pos, 8
    {
      if n.Some? { NodeHead(doc.events, pos - 1, n.value); }
      match event {
        case Alias(id) => r := Jump(id, n);
        case Scalar(tag, text, style) => r := resolve(tag, text, style, tagged);
        case SequenceStart(_) => r := VisitSequence(n);
        case MappingStart(_) => r := VisitMapping(n);
        case SequenceEnd => r := Err(Panic);
        case MappingEnd => r := Err(Panic);
        case Void => r := Ok(Null);
      }
    }

    /** A local tag: the same node once more, with its tag out of the way. */
    method VisitEnum(tag: string, ghost n: Option<Node>) returns (r: Result<Value>)
      modifies this
      requires InBounds() && jumpcount <= doc.JumpLimit() && pos < |doc.events|
      requires !doc.events[pos].SequenceEnd? && !doc.events[pos].MappingEnd?
      requires n.Some? ==> EnvFits() && StartsAt(doc.events, pos, n.value)
      ensures Paid(Change(r.Ok?, true, old(pos)))
      ensures r.Ok? ==> pos > old(pos) && jumpcount <= doc.JumpLimit()
      ensures n.Some? ==>
                Agrees(r, WithTag(tag, Eval(Ctx(), n.value, old(jumpcount), old(remainingDepth), true)))
      ensures n.Some? && r.Ok? ==> Whole(n.value) && pos == old(pos) + |Flat(n.value)|
      decreases doc.JumpLimit() + 1 - jumpcount, |doc.events| - pos, 1
    {
      inEnum := true;
      var inner :- DeserializeAny(n);
      return Ok(Tagged(tag, inner));
    }

    /** An alias, just passed: the node it leads to, read from there with the same budgets. */
    method Jump(id: nat, ghost n: Option<Node>) returns (r: Result<Value>)
      modifies this
      requires InBounds() && jumpcount <= doc.JumpLimit() && !inEnum
      requires n.Some? ==> EnvFits() && n.value == Ref(id)
      ensures Paid(0) && pos == old(pos)
      ensures r.Ok? ==> jumpcount <= doc.JumpLimit()
      ensures n.Some? ==>
                Agrees(r, Eval(Ctx(), n.value, old(jumpcount), old(remainingDepth), false))
      decreases doc.JumpLimit() + 1 - jumpcount, |doc.events| - pos, 5
    {
      assert (jumpcount + 1) * JumpCost() == jumpcount * JumpCost() + JumpCost();
      jumpcount := jumpcount + 1;
      credit := credit + JumpCost();
      if jumpcount > |doc.events| * 100 { return Err(RepetitionLimitExceeded); }
      if id !in doc.aliases { return Err(Panic); }
      var back := pos;
      pos := doc.aliases[id];
      r := DeserializeAny(if n.Some? then Some(env[id]) else None);
      pos := back;
    }

    /** A sequence whose start event was just passed. */
    method VisitSequence(ghost n: Option<Node>) returns (r: Result<Value>)
      modifies this
      requires InBounds() && jumpcount <= doc.JumpLimit()
      requires n.Some? ==> EnvFits() && InsideOf(doc.events, pos, n.value, Seq)
      ensures Paid(if r.Ok? then 0 else 2)
      ensures r.Ok? ==> jumpcount <= doc.JumpLimit()
      ensures n.Some? ==>
                Agrees(r, Eval(Ctx(), n.value, old(jumpcount), old(remainingDepth), true))
      ensures n.Some? && r.Ok? ==> n.value.closed && pos == old(pos) + |FlatAll(n.value.children)| + 1
      decreases doc.JumpLimit() + 1 - jumpcount, |doc.events| - pos, 7
    {
      if remainingDepth == 0 { return Err(RecursionLimitExceeded); }
      remainingDepth := remainingDepth - 1;
      var items := ReadItems(if n.Some? then Some(n.value.children) else None, n.Some? && n.value.closed);
      remainingDepth := remainingDepth + 1;
      if items.Err? { return Err(items.error); }
      var end := EndCollection(Seq, |items.value|, None, false);
      match end {
        case Err(e) => r := Err(e);
        case Ok(_) => r := Ok(Sequence(items.value));
      }
    }

    /** The next element of a sequence or key of a mapping, if the collection has not ended. */
    method NextChild(kind: Kind, ghost ns: Option<seq<Node>>, ghost closed: bool) returns (r: Result<Option<Value>>)
      modifies this
      requires InBounds() && jumpcount <= doc.JumpLimit()
      requires ns.Some? ==> EnvFits() && RestAt(doc.events, pos, kind, ns.value, closed)
      ensures Paid(if r.Err? then 2 else if r.value.None? then 1 else 0)
      ensures r.Ok? ==> jumpcount <= doc.JumpLimit()
      ensures r == Ok(None) ==> pos == old(pos) && jumpcount == old(jumpcount) && AtEnd(doc.events, pos, kind)
      ensures r.Ok? && r.value.Some? ==> pos > old(pos)
      ensures ns.Some? && ns.value == [] ==>
                r == (if closed then Ok(None) else Err(doc.EndError())) && jumpcount == old(jumpcount)
      ensures ns.Some? && ns.value != [] ==>
                ChildAgrees(r, Eval(Ctx(), ns.value[0], old(jumpcount), old(remainingDepth), false))
      ensures ns.Some? && ns.value != [] && r.Ok? ==>
                RestAt(doc.events, pos, kind, ns.value[1..], closed)
                && pos + |FlatAll(ns.value[1..])| == old(pos) + |FlatAll(ns.value)|
      decreases doc.JumpLimit() + 1 - jumpcount, |doc.events| - pos, 4
    {
      if ns.Some? && ns.value != [] {
        ChildParts(doc.events, pos, kind, ns.value, closed);
        NodeBegins(ns.value[0]);
      }
      var event :- PeekEvent();
      if event == EndEvent(kind) || event.Void? { return Ok(None); }
      var v :- ReadChild(kind, ns, closed);
      return Ok(Some(v));
    }

    ghost predicate ChildAgrees(r: Result<Option<Value>>, run: Run<Value>)
      reads this
    {
      jumpcount == run.jumps && (if r.Ok? then r.value.Some? && run.result == Ok(r.value.value) else run.result == Err(r.error))
    }

    /** What the visitor of a sequence does: elements until there is none. */
    method ReadItems(ghost ns: Option<seq<Node>>, ghost closed: bool) returns (r: Result<seq<Value>>)
      modifies this
      requires InBounds() && jumpcount <= doc.JumpLimit()
      requires ns.Some? ==> EnvFits() && RestAt(doc.events, pos, Seq, ns.value, closed)
      ensures Paid(if r.Ok? then 1 else 2)
      ensures r.Ok? ==> jumpcount <= doc.JumpLimit() && AtEnd(doc.events, pos, Seq)
      ensures ns.Some? ==>
                Agrees(r, EvalItems(Ctx(), ns.value, closed, old(jumpcount), old(remainingDepth)))
      ensures ns.Some? && r.Ok? ==> closed && pos == old(pos) + |FlatAll(ns.value)|
      decreases doc.JumpLimit() + 1 - jumpcount, |doc.events| - pos, 5
    {
      var items: seq<Value> := [];
      ghost var rest := if ns.Some? then ns.value else [];
      PrependNothing(EvalItems(Ctx(), rest, closed, jumpcount, remainingDepth));
      while true
        invariant Paid(0) && jumpcount <= doc.JumpLimit()
        invariant ns.Some? ==> RestAt(doc.events, pos, Seq, rest, closed)
        invariant ns.Some? ==> pos + |FlatAll(rest)| == old(pos) + |FlatAll(ns.value)|
        invariant ns.Some? ==>
                    EvalItems(Ctx(), ns.value, closed, old(jumpcount), old(remainingDepth))
                    == Prepend(items, EvalItems(Ctx(), rest, closed, jumpcount, remainingDepth))
        decreases |doc.events| - pos
      {
        if ns.Some? && rest != [] {
          PrependStep(Ctx(), items, rest, closed, jumpcount, remainingDepth);
        }
        var item :- NextChild(Seq, if ns.Some? then Some(rest) else None, closed);
        if item.None? { break; }
        items := items + [item.value];
        rest := if ns.Some? then rest[1..] else rest;
      }
      assert items + [] == items;
      return Ok(items);
    }

    method VisitMapping(ghost n: Option<Node>) returns (r: Result<Value>)
      modifies this
      requires InBounds() && jumpcount <= doc.JumpLimit()
      requires n.Some? ==> EnvFits() && InsideOf(doc.events, pos, n.value, Map)
      ensures Paid(if r.Ok? then 0 else 2)
      ensures r.Ok? ==> jumpcount <= doc.JumpLimit()
      ensures n.Some? ==>
                Agrees(r, Eval(Ctx(), n.value, old(jumpcount), old(remainingDepth), true))
      ensures n.Some? && r.Ok? ==> n.value.closed && pos == old(pos) + |FlatAll(n.value.children)| + 1
      decreases doc.JumpLimit() + 1 - jumpcount, |doc.events| - pos, 7
    {
      if remainingDepth == 0 { return Err(RecursionLimitExceeded); }
      remainingDepth := remainingDepth - 1;
      var entries := ReadEntries(if n.Some? then Some(n.value.children) else None, n.Some? && n.value.closed);
      remainingDepth := remainingDepth + 1;
      if entries.Err? { return Err(entries.error); }
      var end := EndCollection(Map, |entries.value|, None, false);
      match end {
        case Err(e) => r := Err(e);
        case Ok(_) => r := Ok(Mapping(entries.value));
      }
    }

    /** The next entry of a mapping that has those in `done` already. */
    method NextEntry(done: seq<Entry>, ghost ns: Option<seq<Node>>, ghost closed: bool) returns (r: Result<Option<Entry>>)
      modifies this
      requires InBounds() && jumpcount <= doc.JumpLimit()
      requires ns.Some? ==> EnvFits() && RestAt(doc.events, pos, Map, ns.value, closed)
      ensures Paid(if r.Err? then 2 else if r.value.None? then 1 else 0)
      ensures r.Ok? ==> jumpcount <= doc.JumpLimit()
      ensures r == Ok(None) ==> pos == old(pos) && jumpcount == old(jumpcount) && AtEnd(doc.events, pos, Map)
      ensures r.Ok? && r.value.Some? ==> pos > old(pos)
      ensures ns.Some? ==>
                EntryAgrees(r, done, ns.value, closed,
                            EvalEntries(Ctx(), ns.value, closed, done, old(jumpcount), old(remainingDepth)))
      ensures ns.Some? && r.Ok? && r.value.Some? ==>
                RestAt(doc.events, pos, Map, ns.value[2..], closed)
                && pos + |FlatAll(ns.value[2..])| == old(pos) + |FlatAll(ns.value)|
      decreases doc.JumpLimit() + 1 - jumpcount, |doc.events| - pos, 5
    {
      var key :- NextChild(Map, ns, closed);
      if key.None? { return Ok(None); }
      if KeyIn(key.value, done) { return Err(DuplicateKey); }
      var val :- ReadChild(Map, if ns.Some? then Some(ns.value[1..]) else None, closed);
      assert ns.Some? ==> ns.value[1..][1..] == ns.value[2..];
      return Ok(Some(Entry(key.value, val)));
    }

    /** An element, a key, or the value that belongs to a key just read. */
    method ReadChild(kind: Kind, ghost ns: Option<seq<Node>>, ghost closed: bool) returns (r: Result<Value>)
      modifies this
      requires InBounds() && jumpcount <= doc.JumpLimit()
      requires ns.Some? ==> EnvFits() && RestAt(doc.events, pos, kind, ns.value, closed)
      ensures Paid(if r.Ok? then -1 else 1)
      ensures r.Ok? ==> pos > old(pos) && jumpcount <= doc.JumpLimit()
      ensures ns.Some? && ns.value == [] ==>
                r == Err(if closed then Panic else doc.EndError()) && jumpcount == old(jumpcount)
      ensures ns.Some? && ns.value != [] ==>
                Agrees(r, Eval(Ctx(), ns.value[0], old(jumpcount), old(remainingDepth), false))
      ensures ns.Some? && r.Ok? ==>
                ns.value != [] && RestAt(doc.events, pos, kind, ns.value[1..], closed)
                && pos + |FlatAll(ns.value[1..])| == old(pos) + |FlatAll(ns.value)|
      decreases doc.JumpLimit() + 1 - jumpcount, |doc.events| - pos, 3
    {
      inEnum := false;
      ghost var start := pos;
      ghost var present := ns.Some? && ns.value != [];
      if present { ChildParts(doc.events, pos, kind, ns.value, closed); }
      r := DeserializeAny(if present then Some(ns.value[0]) else None);
      if present && r.Ok? { NextParts(doc.events, start, kind, ns.value, closed); }
    }

    ghost predicate EntryAgrees(r: Result<Option<Entry>>, done: seq<Entry>, ns: seq<Node>, closed: bool, run: Run<seq<Entry>>)
      reads this
    {
      match r
      case Err(e) => run.result == Err(e) && jumpcount == run.jumps
      case Ok(None) => ns == [] && closed
      case Ok(Some(e)) =>
        |ns| >= 2 && run == EvalEntries(Ctx(), ns[2..], closed, done + [e], jumpcount, remainingDepth)
    }

    /** What the visitor of a mapping does: entries until there is none, or a key comes twice. */
    method ReadEntries(ghost ns: Option<seq<Node>>, ghost closed: bool) returns (r: Result<seq<Entry>>)
      modifies this
      requires InBounds() && jumpcount <= doc.JumpLimit()
      requires ns.Some? ==> EnvFits() && RestAt(doc.events, pos, Map, ns.value, closed)
      ensures Paid(if r.Ok? then 1 else 2)
      ensures r.Ok? ==> jumpcount <= doc.JumpLimit() && AtEnd(doc.events, pos, Map)
      ensures ns.Some? ==>
                Agrees(r, EvalEntries(Ctx(), ns.value, closed, [], old(jumpcount), old(remainingDepth)))
      ensures ns.Some? && r.Ok? ==> closed && pos == old(pos) + |FlatAll(ns.value)|
      decreases doc.JumpLimit() + 1 - jumpcount, |doc.events| - pos, 6
    {
      var entries: seq<Entry> := [];
      ghost var rest := if ns.Some? then ns.value else [];
      while true
        invariant Paid(0) && jumpcount <= doc.JumpLimit()
        invariant ns.Some? ==> RestAt(doc.events, pos, Map, rest, closed)
        invariant ns.Some? ==> pos + |FlatAll(rest)| == old(pos) + |FlatAll(ns.value)|
        invariant ns.Some? ==>
                    EvalEntries(Ctx(), ns.value, closed, [], old(jumpcount), old(remainingDepth))
                    == EvalEntries(Ctx(), rest, closed, entries, jumpcount, remainingDepth)
        decreases |doc.events| - pos
      {
        var entry :- NextEntry(entries, if ns.Some? then Some(rest) else None, closed);
        if entry.None? { break; }
        entries := entries + [entry.value];
        rest := if ns.Some? then rest[2..] else rest;
      }
      return Ok(entries);
    }

    /** The end of a collection of which `len` elements were taken; what is left is skipped, and is too much. */
    method EndCollection(kind: Kind, len: nat, ghost ns: Option<seq<Node>>, ghost closed: bool) returns (r: Result<()>)
      modifies this`steps, this`pos, this`inEnum
      requires InBounds()
      requires ns.Some? ==> RestAt(doc.events, pos, kind, ns.value, closed)
      ensures Paid(if r.Ok? then 0 else 2)
      ensures AtEnd(doc.events, old(pos), kind) ==>
                r == Ok(()) && pos == old(pos) + 1 && steps == old(steps) + 2
      ensures ns.Some? && closed ==>
                r == (if ns.value == [] then Ok(()) else Err(InvalidLength)) && pos == old(pos) + |FlatAll(ns.value)| + 1
      ensures ns.Some? && !closed ==> r == Err(doc.EndError()) && pos == |doc.events|
    {
      var total :- SkipRest(kind, len, ns, closed);
      var last := NextEvent();
      match last {
        case Err(e) => r := Err(e);
        case Ok(e) =>
          if e != EndEvent(kind) && !e.Void? {
            r := Err(Panic);
          } else {
            r := if total == len then Ok(()) else Err(InvalidLength);
          }
      }
    }

    /** Skip to the end of a collection, counting on from `len`. */
    method SkipRest(kind: Kind, len: nat, ghost ns: Option<seq<Node>>, ghost closed: bool) returns (r: Result<nat>)
      modifies this`steps, this`pos, this`inEnum
      requires InBounds()
      requires ns.Some? ==> RestAt(doc.events, pos, kind, ns.value, closed)
      ensures Paid(if r.Ok? then 1 else 2)
      ensures r.Ok? ==> AtEnd(doc.events, pos, kind)
      ensures AtEnd(doc.events, old(pos), kind) ==> r == Ok(len) && pos == old(pos) && steps == old(steps) + 1
      ensures ns.Some? && closed ==> r == Ok(len + |ns.value|) && pos == old(pos) + |FlatAll(ns.value)|
      ensures ns.Some? && !closed ==> r == Err(doc.EndError()) && pos == |doc.events|
    {
      var total := len;
      ghost var rest := if ns.Some? then ns.value else [];
      while true
        invariant Paid(0)
        invariant AtEnd(doc.events, old(pos), kind) ==> pos == old(pos) && steps == old(steps) && total == len
        invariant ns.Some? ==> RestAt(doc.events, pos, kind, rest, closed) && total == len + |ns.value| - |rest|
        invariant ns.Some? ==> pos + |FlatAll(rest)| == old(pos) + |FlatAll(ns.value)|
        decreases |doc.events| - pos
      {
        if ns.Some? && rest != [] {
          ChildParts(doc.events, pos, kind, rest, closed);
          NodeBegins(rest[0]);
        }
        var event :- PeekEvent();
        if event == EndEvent(kind) || event.Void? { return Ok(total); }
        total := total + 1;
        var _ :- SkipChild(kind, if ns.Some? then Some(rest) else None, closed);
        rest := if ns.Some? then rest[1..] else rest;
      }
    }

    /** Skip one child, of a node that has any. */
    method SkipChild(kind: Kind, ghost ns: Option<seq<Node>>, ghost closed: bool) returns (r: Result<()>)
      modifies this`steps, this`pos, this`inEnum
      requires InBounds()
      requires ns.Some? ==> ns.value != [] && RestAt(doc.events, pos, kind, ns.value, closed)
      ensures Paid(1) && steps <= old(steps) + (pos - old(pos)) + if r.Err? then 1 else 0
      ensures r.Ok? ==> pos > old(pos)
      ensures ns.Some? && r.Ok? ==>
                RestAt(doc.events, pos, kind, ns.value[1..], closed)
                && pos + |FlatAll(ns.value[1..])| == old(pos) + |FlatAll(ns.value)|
      ensures ns.Some? && r.Err? ==> !closed && r == Err(doc.EndError()) && pos == |doc.events|
    {
      if ns.Some? { ChildParts(doc.events, pos, kind, ns.value, closed); }
      r := IgnoreAny(if ns.Some? then Some(ns.value[0]) else None);
      if ns.Some? && r.Ok? { NextParts(doc.events, old(pos), kind, ns.value, closed); }
    }
  }

  function EventTag(e: Event): Option<string> {
    match e
    case Scalar(tag, _, _) => ParseTag(tag)
    case SequenceStart(tag) => ParseTag(tag)
    case MappingStart(tag) => ParseTag(tag)
    case _ => None
  }

  function WithTag(tag: string, inner: Run<Value>): Run<Value> {
    if inner.result.Ok? then Run(Ok(Tagged(tag, inner.result.value)), inner.jumps) else inner
  }

  /** The event at `pos` ends a collection of this kind, as the deserializer sees it. */
  predicate AtEnd(es: seq<Event>, pos: nat, kind: Kind) {
    pos < |es| && (es[pos] == EndEvent(kind) || es[pos].Void?)
  }

  /** `pos` is just behind the start event of the collection `n`. */
  predicate InsideOf(es: seq<Event>, pos: nat, n: Node, kind: Kind) {
    n.Coll? && n.kind == kind && RestAt(es, pos, kind, n.children, n.closed)
  }

  /** The first event of a node, and what it says about the node. */
  lemma {:induction false} NodeHead(es: seq<Event>, pos: nat, n: Node)
    requires StartsAt(es, pos, n)
    ensures es[pos] == Flat(n)[0]
    ensures EventTag(es[pos]) == ParseTag(NodeTag(n))
    ensures n.Coll? ==> InsideOf(es, pos + 1, n, n.kind)
    ensures n.Coll? ==> |Flat(n)| == 1 + |FlatAll(n.children)| + (if n.closed then 1 else 0)
    ensures n.Coll? && n.closed ==> Whole(n)
    ensures !n.Coll? ==> Whole(n) && |Flat(n)| == 1
  {
    assert es[pos] == es[pos..pos + |Flat(n)|][0];
    if n.Coll? {
      CollectionParts(es, pos, n);
      ProperClosed(n);
    }
  }

  lemma {:induction false} PrependNothing(run: Run<seq<Value>>)
    ensures Prepend([], run) == run
  {
    if run.result.Ok? {
      assert [] + run.result.value == run.result.value;
    }
  }

  lemma {:induction false} PrependStep(c: Context, items: seq<Value>, rest: seq<Node>, closed: bool, jumps: nat, depth: nat)
    requires rest != []
    ensures var first := Eval(c, rest[0], jumps, depth, false);
            first.result.Ok? ==>
              Prepend(items, EvalItems(c, rest, closed, jumps, depth))
              == Prepend(items + [first.result.value], EvalItems(c, rest[1..], closed, first.jumps, depth))
  {
    var first := Eval(c, rest[0], jumps, depth, false);
    if first.result.Ok? {
      var tail := EvalItems(c, rest[1..], closed, first.jumps, depth);
      if tail.result.Ok? {
        assert items + ([first.result.value] + tail.result.value) == items + [first.result.value] + tail.result.value;
      }
    }
  }

  /** One more event, and what is open after it. */
  lemma {:induction false} NestGrows(es: seq<Event>, start: nat, pos: nat, stack: seq<Kind>)
    requires start <= pos < |es| && Nest([], es[start..pos]) == Some(stack)
    ensures Nest([], es[start..pos + 1]) == NestStep(stack, es[pos])
  {
    assert es[start..pos + 1][..pos - start] == es[start..pos];
  }

  /** What is open at each point of a node in an array: nothing exactly at its end. */
  lemma {:induction false} NestAt(es: seq<Event>, start: nat, n: Node, pos: nat)
    requires StartsAt(es, start, n) && start < pos <= start + |Flat(n)|
    ensures Nest([], es[start..pos]).Some?
    ensures Nest([], es[start..pos]).value == [] <==> pos == start + |Flat(n)| && Whole(n)
  {
    var k := pos - start;
    assert es[start..pos] == Flat(n)[..k];
    if k == |Flat(n)| && Whole(n) {
      assert Flat(n)[..k] == Flat(n);
      NestWhole([], n);
    } else {
      NestInside([], n, k);
    }
  }
}
