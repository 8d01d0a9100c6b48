/**
 The serializer (3rdparty/serde_yaml/src/ser.rs): a five-state machine and a depth counter
 that push events to the emitter, driven by the `Serialize` implementation of a value.

 `NodeEvents` says, from the tree alone, which events a value stands for. The class below is
 proved to emit exactly those when the value is free of two shapes, and to fail on both:
 a tag directly under a tag, and an untagged one-entry mapping whose key starts a pending
 mapping of its own (`Defects`), which loses a `MappingStart`.
 */
module YamlSerializer {
  import opened Wrappers
  import opened YamlValues
  import opened YamlScalars

  datatype EmitEvent =
    | StreamStart
    | DocumentStart
    | DocumentEnd
    | EmitScalar(tag: Option<string>, text: string, style: StyleRequest)
    | EmitSequenceStart(tag: Option<string>)
    | EmitSequenceEnd
    | EmitMappingStart(tag: Option<string>)
    | EmitMappingEnd

  datatype State =
    | NothingInParticular
    | CheckForTag
    | CheckForDuplicateTag
    | FoundTag(tag: string)
    | AlreadyTagged

  datatype Outcome = Done | SerializeNestedEnum | DepthUnderflow {
    predicate IsFailure() { !Done? }
    function PropagateFailure(): Outcome requires !Done? { this }
  }

  /**
   What `serialize_unit`, `serialize_bool`, `serialize_str` and the number methods hand to
   `emit_scalar`; `YamlScalars.PrintScalar` is the one the source has.
   */
  type ScalarPrinter = Value -> PrintedScalar

  // ---------------------------------------------------------------------------------
  // What a value stands for
  // ---------------------------------------------------------------------------------

  /** The tag text put in an event: a `!` is added unless there is one. */
  function WithBang(tag: string): string {
    if "!" <= tag then tag else "!" + tag
  }

  /** The events of one node, which carries `tag` if there is one. */
  function NodeEvents(printer: ScalarPrinter, tag: Option<string>, v: Value): seq<EmitEvent>
    decreases v, 1
  {
    match v
    case Sequence(items) => [EmitSequenceStart(tag)] + ItemsEvents(printer, items) + [EmitSequenceEnd]
    case Mapping(entries) => [EmitMappingStart(tag)] + EntriesEvents(printer, entries) + [EmitMappingEnd]
    case Tagged(t, inner) => NodeEvents(printer, Some(WithBang(NoBang(t))), inner)
    case _ => [EmitScalar(tag, printer(v).text, printer(v).style)]
  }

  function ItemsEvents(printer: ScalarPrinter, items: seq<Value>): seq<EmitEvent>
    decreases items, 0
  {
    if items == [] then []
    else ItemsEvents(printer, items[..|items| - 1]) + NodeEvents(printer, None, items[|items| - 1])
  }

  function EntriesEvents(printer: ScalarPrinter, entries: seq<Entry>): seq<EmitEvent>
    decreases entries, 0
  {
    if entries == [] then []
    else EntriesEvents(printer, entries[..|entries| - 1]) + EntryEvents(printer, entries[|entries| - 1])
  }

  function EntryEvents(printer: ScalarPrinter, e: Entry): seq<EmitEvent>
    decreases e, 2
  {
    NodeEvents(printer, None, e.key) + NodeEvents(printer, None, e.val)
  }

  /** No tag applies directly to a tagged value. */
  predicate NoNestedTag(v: Value)
    decreases v, 0
  {
    match v
    case Sequence(items) => forall i :: 0 <= i < |items| ==> NoNestedTag(items[i])
    case Mapping(entries) => forall i :: 0 <= i < |entries| ==> NoNestedTagEntry(entries[i])
    case Tagged(_, inner) => !inner.Tagged? && NoNestedTag(inner)
    case _ => true
  }

  predicate NoNestedTagEntry(e: Entry)
    decreases e, 1
  {
    NoNestedTag(e.key) && NoNestedTag(e.val)
  }

  /** A value whose serialization begins with a one-entry map, a tag being one. */
  predicate StartsPending(v: Value) {
    v.Tagged? || (v.Mapping? && |v.entries| == 1)
  }

  /** How many one-entry mappings inside `v`, none of them under a tag, have such a value as key. */
  function Defects(v: Value, underTag: bool): nat
    decreases v, 1
  {
    match v
    case Sequence(items) => ItemsDefects(items)
    case Mapping(entries) =>
      EntriesDefects(entries) + if |entries| == 1 && !underTag && StartsPending(entries[0].key) then 1 else 0
    case Tagged(_, inner) => Defects(inner, true)
    case _ => 0
  }

  function ItemsDefects(items: seq<Value>): nat
    decreases items, 0
  {
    if items == [] then 0
    else ItemsDefects(items[..|items| - 1]) + Defects(items[|items| - 1], false)
  }

  function EntriesDefects(entries: seq<Entry>): nat
    decreases entries, 0
  {
    if entries == [] then 0
    else EntriesDefects(entries[..|entries| - 1]) + EntryDefects(entries[|entries| - 1])
  }

  function EntryDefects(e: Entry): nat
    decreases e, 2
  {
    Defects(e.key, false) + Defects(e.val, false)
  }

  // ---------------------------------------------------------------------------------
  // Tags as displayed
  // ---------------------------------------------------------------------------------

  datatype MaybeTag = TagFound(tag: string) | NotTag(text: string)

  datatype TagProbe = Empty | Bang | Tag(s: string) | Text(s: string) {
    /** One `write_str` of the formatter. */
    function Write(s: string): TagProbe {
      if s == "" then this
      else
        match this
        case Empty => if s == "!" then Bang else Text(s)
        case Bang => Tag(s)
        case Tag(t) => Text(t + s)
        case Text(t) => Text(t + s)
    }
  }

  function Probe(writes: seq<string>): TagProbe {
    if writes == [] then Empty else Probe(writes[..|writes| - 1]).Write(writes[|writes| - 1])
  }

  /** `check_for_tag` on the writes a `Display` implementation makes. */
  function ProbeTag(writes: seq<string>): MaybeTag {
    match Probe(writes)
    case Empty => NotTag("")
    case Bang => NotTag("!")
    case Tag(s) => TagFound(s)
    case Text(s) => NotTag(s)
  }

  /** The writes of `Display for Tag`. */
  function TagWrites(tag: string): seq<string> {
    ["!", NoBang(tag)]
  }

  /** A displayed tag is always recognized as one. */
  lemma {:induction false} TagIsFound(tag: string)
    requires tag != ""
    ensures ProbeTag(TagWrites(tag)) == TagFound(NoBang(tag))
  {
    var w := TagWrites(tag);
    assert w[..1] == ["!"];
    assert Probe(w[..1][..0]) == Empty;
    assert Probe(w[..1]) == Bang;
  }

  /** The writes that are not empty. */
  function NonEmpty(writes: seq<string>): seq<string> {
    if writes == [] then []
    else if writes[|writes| - 1] == "" then NonEmpty(writes[..|writes| - 1])
    else NonEmpty(writes[..|writes| - 1]) + [writes[|writes| - 1]]
  }

  /** A display of three writes or more that begins with a lone `!`: what looked like a tag goes on. */
  predicate LosesBang(writes: seq<string>) {
    |NonEmpty(writes)| > 2 && NonEmpty(writes)[0] == "!"
  }

  /** A display is a tag if it is a `!` and one more write; any other is its text, less a `!` that was written alone and followed by more than that. */
  lemma {:induction false} ProbeIsDisplay(writes: seq<string>)
    ensures ProbeTag(writes).TagFound? <==> |NonEmpty(writes)| == 2 && NonEmpty(writes)[0] == "!"
    ensures ProbeTag(writes).TagFound? ==> Joined(writes) == "!" + ProbeTag(writes).tag
    ensures ProbeTag(writes).NotTag? ==>
              Joined(writes) == if LosesBang(writes) then "!" + ProbeTag(writes).text else ProbeTag(writes).text
  {
    ProbeState(writes);
  }

  lemma {:induction false} ProbeState(writes: seq<string>)
    ensures match Probe(writes)
            case Empty => NonEmpty(writes) == [] && Joined(writes) == ""
            case Bang => NonEmpty(writes) == ["!"] && Joined(writes) == "!"
            case Tag(s) => |NonEmpty(writes)| == 2 && NonEmpty(writes)[0] == "!" && Joined(writes) == "!" + s
            case Text(s) =>
              && NonEmpty(writes) != [] && (|NonEmpty(writes)| <= 2 ==> NonEmpty(writes)[0] != "!")
              && Joined(writes) == if LosesBang(writes) then "!" + s else s
  {
    if writes != [] {
      ProbeState(writes[..|writes| - 1]);
    }
  }

  /** Such a display: written as `!ab`, it is serialized as `ab`. */
  lemma {:induction false} BangIsLost()
    ensures Joined(["!", "a", "b"]) == "!ab" && ProbeTag(["!", "a", "b"]) == NotTag("ab")
  {
    var w := ["!", "a", "b"];
    assert w[..2] == ["!", "a"] && w[..2][..1] == ["!"] && ["!"][..0] == [];
    assert Joined(["!"]) == "!" && Joined(w[..2]) == "!a";
    assert Probe(["!"]) == Bang && Probe(w[..2]) == Tag("a") && Probe(w) == Text("ab");
  }

  // ---------------------------------------------------------------------------------
  // The machine
  // ---------------------------------------------------------------------------------

  /** What a key of `serialize_entry` is: the displayed tag of a tagged value, or a value. */
  datatype Key = TagKey(tag: string) | ValueKey(v: Value)

  /** The `MappingStart` a pending state still owes, at the given depth. */
  function Owed(state: State, depth: nat): seq<EmitEvent> {
    if state.CheckForTag? then Opening(depth) + [EmitMappingStart(None)] else []
  }

  function Opening(depth: nat): seq<EmitEvent> {
    if depth == 0 then [DocumentStart] else []
  }

  function Closing(depth: nat): seq<EmitEvent> {
    if depth == 0 then [DocumentEnd] else []
  }

  function DepthAfterOwed(state: State, depth: nat): nat {
    if state.CheckForTag? then depth + 1 else depth
  }

  function PendingTag(state: State): Option<string> {
    if state.FoundTag? then Some(WithBang(state.tag)) else None
  }

  function AfterFlush(state: State): State {
    if state.CheckForTag? || state.CheckForDuplicateTag? then NothingInParticular else state
  }

  function AfterTake(state: State): State {
    if state.FoundTag? then NothingInParticular else state
  }

  /** The start event lost when a pending value is serialized while another one is pending. */
  function Lost(state: State, v: Value): nat {
    if state.CheckForTag? && StartsPending(v) then 1 else 0
  }

  /** The same for the entries of a mapping that has begun in this state. */
  function EntriesLoss(state: State, entries: seq<Entry>): nat {
    (if entries == [] then 0 else Lost(state, entries[0].key)) + EntriesDefects(entries)
  }

  /** The state `serialize_map` leaves behind. */
  function AfterBegin(state: State, len: nat): State {
    if len == 1 then (if state.FoundTag? then CheckForDuplicateTag else CheckForTag)
    else AfterTake(AfterFlush(state))
  }

  /** What the entries of a mapping lose is what its definition counts. */
  lemma {:induction false} MappingLoss(state: State, v: Value)
    requires v.Mapping?
    ensures EntriesLoss(AfterBegin(state, |v.entries|), v.entries) == Defects(v, state.FoundTag?)
  {
  }

  /** The value can be serialized in this state without a tag meeting a tag. */
  predicate Untangled(state: State, v: Value) {
    NoNestedTag(v) && !(state.FoundTag? && v.Tagged?)
  }

  /** All a value adds to the stream, in a state where nothing gets lost. */
  function ValueEvents(printer: ScalarPrinter, state: State, depth: nat, v: Value): seq<EmitEvent> {
    var d := DepthAfterOwed(state, depth);
    Owed(state, depth) + Opening(d) + NodeEvents(printer, PendingTag(state), v) + Closing(d)
  }

  class Serializer {
    const printer: ScalarPrinter
    var depth: nat
    var state: State
    var events: seq<EmitEvent>

    constructor (printer: ScalarPrinter)
      ensures this.printer == printer && depth == 0 && state == NothingInParticular && events == [StreamStart]
    {
      this.printer := printer;
      depth, state, events := 0, NothingInParticular, [StreamStart];
    }

    method ValueStart()
      modifies this
      ensures depth == old(depth) + 1 && state == old(state)
      ensures events == old(events) + Opening(old(depth))
    {
      if depth == 0 {
        events := events + [DocumentStart];
      }
      depth := depth + 1;
    }

    /** The counter is unsigned: one end too many does not get below zero. */
    method ValueEnd() returns (r: Outcome)
      modifies this
      ensures r == if old(depth) == 0 then DepthUnderflow else Done
      ensures state == old(state)
      ensures r.Done? ==> depth == old(depth) - 1 && events == old(events) + Closing(depth)
    {
      if depth == 0 { return DepthUnderflow; }
      depth := depth - 1;
      if depth == 0 {
        events := events + [DocumentEnd];
      }
      return Done;
    }

    method TakeTag() returns (tag: Option<string>)
      modifies this
      ensures depth == old(depth) && events == old(events)
      ensures tag == PendingTag(old(state)) && state == AfterTake(old(state))
    {
      if state.FoundTag? {
        var t := state.tag;
        state := NothingInParticular;
        tag := Some(if "!" <= t then t else "!" + t);
      } else {
        tag := None;
      }
    }

    method FlushMappingStart()
      modifies this
      ensures state == AfterFlush(old(state))
      ensures depth == DepthAfterOwed(old(state), old(depth))
      ensures events == old(events) + Owed(old(state), old(depth))
      decreases if state.CheckForTag? then 2 else 0
    {
      if state.CheckForTag? {
        state := NothingInParticular;
        WriteMappingStart();
      } else if state.CheckForDuplicateTag? {
        state := NothingInParticular;
      }
    }

    method WriteMappingStart()
      modifies this
      ensures state == AfterTake(AfterFlush(old(state)))
      ensures depth == DepthAfterOwed(old(state), old(depth)) + 1
      ensures events == old(events) + Owed(old(state), old(depth))
                        + Opening(DepthAfterOwed(old(state), old(depth)))
                        + [EmitMappingStart(PendingTag(old(state)))]
      decreases if state.CheckForTag? then 3 else 1
    {
      FlushMappingStart();
      ValueStart();
      var tag := TakeTag();
      events := events + [EmitMappingStart(tag)];
    }

    method WriteMappingEnd() returns (r: Outcome)
      modifies this
      ensures r == if old(depth) == 0 then DepthUnderflow else Done
      ensures state == old(state)
      ensures r.Done? ==>
                depth == old(depth) - 1 && events == old(events) + [EmitMappingEnd] + Closing(depth)
    {
      events := events + [EmitMappingEnd];
      r := ValueEnd();
    }

    method WriteSequenceStart()
      modifies this
      ensures state == AfterTake(AfterFlush(old(state)))
      ensures depth == DepthAfterOwed(old(state), old(depth)) + 1
      ensures events == old(events) + Owed(old(state), old(depth))
                        + Opening(DepthAfterOwed(old(state), old(depth)))
                        + [EmitSequenceStart(PendingTag(old(state)))]
    {
      FlushMappingStart();
      ValueStart();
      var tag := TakeTag();
      events := events + [EmitSequenceStart(tag)];
    }

    method WriteSequenceEnd() returns (r: Outcome)
      modifies this
      ensures r == if old(depth) == 0 then DepthUnderflow else Done
      ensures state == old(state)
      ensures r.Done? ==>
                depth == old(depth) - 1 && events == old(events) + [EmitSequenceEnd] + Closing(depth)
    {
      events := events + [EmitSequenceEnd];
      r := ValueEnd();
    }

    method WriteScalar(text: string, style: StyleRequest) returns (r: Outcome)
      modifies this
      ensures r == Done
      ensures state == AfterTake(AfterFlush(old(state)))
      ensures depth == DepthAfterOwed(old(state), old(depth))
      ensures events == old(events) + Owed(old(state), old(depth)) + Opening(depth)
                        + [EmitScalar(PendingTag(old(state)), text, style)] + Closing(depth)
    {
      FlushMappingStart();
      var tag := TakeTag();
      ValueStart();
      events := events + [EmitScalar(tag, text, style)];
      r := ValueEnd();
    }

    /** `collect_str`; text that is no tag is serialized as a string. */
    method CollectStr(writes: seq<string>) returns (r: Outcome)
      modifies this
      ensures ProbeTag(writes).TagFound? && old(state).CheckForTag? ==>
                r == Done && state == FoundTag(ProbeTag(writes).tag)
                && depth == old(depth) && events == old(events)
      ensures ProbeTag(writes).TagFound? && old(state).CheckForDuplicateTag? ==> r == SerializeNestedEnum
      ensures !(ProbeTag(writes).TagFound? && Checks(old(state))) ==>
                && r == Done && state == AfterTake(AfterFlush(old(state))) && depth == DepthAfterOwed(old(state), old(depth))
                && events == old(events) + Owed(old(state), old(depth)) + Opening(depth)
                             + [EmitScalar(PendingTag(old(state)), printer(Str(Displayed(old(state), writes))).text,
                                           printer(Str(Displayed(old(state), writes))).style)] + Closing(depth)
    {
      var text := "";
      if state.CheckForTag? || state.CheckForDuplicateTag? {
        match ProbeTag(writes) {
          case NotTag(s) => text := s;
          case TagFound(tag) =>
            if state.CheckForDuplicateTag? { return SerializeNestedEnum; }
            state := FoundTag(tag);
            return Done;
        }
      } else {
        text := Joined(writes);
      }
      r := WriteScalar(printer(Str(text)).text, printer(Str(text)).style);
    }

    predicate Checks(s: State) { s.CheckForTag? || s.CheckForDuplicateTag? }

    /** The text taken for a display that is no tag, or is not looked at as one. */
    function Displayed(s: State, writes: seq<string>): string {
      if Checks(s) && ProbeTag(writes).NotTag? then ProbeTag(writes).text else Joined(writes)
    }

    method BeginMap(len: nat)
      modifies this
      ensures len == 1 && !old(state).FoundTag? ==>
                depth == old(depth) && events == old(events)
      ensures state == AfterBegin(old(state), len)
      ensures !(len == 1 && old(state).CheckForTag?) ==>
                DepthAfterOwed(state, depth) == DepthAfterOwed(old(state), old(depth)) + 1
                && events + Owed(state, depth)
                   == old(events) + Owed(old(state), old(depth))
                      + Opening(DepthAfterOwed(old(state), old(depth)))
                      + [EmitMappingStart(PendingTag(old(state)))]
    {
      if len == 1 {
        if state.FoundTag? {
          WriteMappingStart();
          state := CheckForDuplicateTag;
        } else {
          state := CheckForTag;
        }
      } else {
        WriteMappingStart();
      }
    }

    /** `end` of a map; a map that announced one entry and had none still opens here. */
    method EndMap() returns (r: Outcome)
      modifies this
      ensures old(state).CheckForTag? ==> r == Done
      ensures !old(state).CheckForTag? ==>
                r == if !old(state).AlreadyTagged? && old(depth) == 0 then DepthUnderflow else Done
      ensures r.Done? ==> state == NothingInParticular
      ensures old(state).AlreadyTagged? ==> depth == old(depth) && events == old(events)
      ensures r.Done? && !old(state).CheckForTag? && !old(state).AlreadyTagged? ==>
                depth == old(depth) - 1 && events == old(events) + [EmitMappingEnd] + Closing(depth)
      ensures old(state).CheckForTag? ==>
                && depth == DepthAfterOwed(old(state), old(depth))
                && events == old(events) + Owed(old(state), old(depth)) + Opening(depth)
                             + [EmitMappingStart(None), EmitMappingEnd] + Closing(depth)
    {
      if state.CheckForTag? {
        WriteMappingStart();
      }
      if !state.AlreadyTagged? {
        :- WriteMappingEnd();
      }
      state := NothingInParticular;
      return Done;
    }

    method SerializeEntry(key: Key, val: Value, ghost parent: Value) returns (r: Outcome)
      modifies this
      requires TagsNamed(val) && val < parent
      requires key.ValueKey? ==>
                 TagsNamed(key.v) && key.v < parent && !state.FoundTag? && !state.AlreadyTagged?
      requires key.TagKey? ==> key.tag != "" && (state.CheckForTag? || state.CheckForDuplicateTag?)
      ensures key.TagKey? && old(state).CheckForDuplicateTag? ==> r == SerializeNestedEnum
      ensures key.TagKey? && old(state).CheckForTag? ==>
                TagEntryEffect(r, key.tag, val, old(depth), old(events))
      ensures key.ValueKey? ==> EntryEffect(r, key.v, val, old(state), old(depth), old(events))
      decreases parent, 0
    {
      match key {
        case TagKey(tag) =>
          TagIsFound(tag);
          :- CollectStr(TagWrites(tag));
        case ValueKey(v) =>
          EntryShape(printer, state, depth, Entry(v, val), events);
          :- SerializeValue(v);
      }
      var tagged := state.FoundTag?;
      :- SerializeValue(val);
      if tagged {
        state := AlreadyTagged;
      }
      return Done;
    }

    ghost predicate TagEntryEffect(r: Outcome, tag: string, val: Value, depth0: nat, events0: seq<EmitEvent>)
      reads this
    {
      && (r.Done? ==>
            state == AlreadyTagged && NoNestedTag(val) && !val.Tagged? && depth == depth0 - Defects(val, true))
      && (r.SerializeNestedEnum? ==> !(NoNestedTag(val) && !val.Tagged?))
      && (r.DepthUnderflow? ==> Defects(val, true) > 0)
      && (r.Done? && Defects(val, true) == 0 ==>
            events == events0 + ValueEvents(printer, FoundTag(NoBang(tag)), depth0, val))
    }

    ghost predicate EntryEffect(r: Outcome, key: Value, val: Value, state0: State, depth0: nat, events0: seq<EmitEvent>)
      reads this
    {
      var d := DepthAfterOwed(state0, depth0);
      var lost := Lost(state0, key) + Defects(key, false) + Defects(val, false);
      && (r.Done? ==> state == NothingInParticular && NoNestedTag(key) && NoNestedTag(val) && depth == d - lost)
      && (r.SerializeNestedEnum? ==> !(NoNestedTag(key) && NoNestedTag(val)))
      && (r.DepthUnderflow? ==> lost > 0)
      && (r.Done? && d > 0 && lost == 0 ==>
            events == events0 + Owed(state0, depth0) + EntryEvents(printer, Entry(key, val)))
    }

    /** All of `v`, in any state but `AlreadyTagged`, which no value meets. */
    method SerializeValue(v: Value) returns (r: Outcome)
      modifies this
      requires TagsNamed(v) && !state.AlreadyTagged?
      ensures ValueEffect(r, v, old(state), old(depth), old(events))
      decreases v, 3
    {
      match v {
        case Sequence(items) => r := SerializeSequence(v);
        case Mapping(entries) => r := SerializeMapping(v);
        case Tagged(tag, inner) => r := SerializeTagged(v);
        case _ => r := SerializeScalar(v);
      }
    }

    method SerializeScalar(v: Value) returns (r: Outcome)
      modifies this
      requires v.Null? || v.Bool? || v.Num? || v.Str?
      requires !state.AlreadyTagged?
      ensures ValueEffect(r, v, old(state), old(depth), old(events))
    {
      ghost var s0, d0, e0 := state, depth, events;
      r := WriteScalar(printer(v).text, printer(v).style);
      assert events == e0 + ValueEvents(printer, s0, d0, v);
    }

    ghost predicate ValueEffect(r: Outcome, v: Value, state0: State, depth0: nat, events0: seq<EmitEvent>)
      reads this
    {
      var lost := Lost(state0, v) + Defects(v, state0.FoundTag?);
      && (r.Done? ==>
            state == NothingInParticular && Untangled(state0, v) && depth == DepthAfterOwed(state0, depth0) - lost)
      && (r.SerializeNestedEnum? ==> !Untangled(state0, v))
      && (r.DepthUnderflow? ==> lost > 0)
      && (r.Done? && lost == 0 ==> events == events0 + ValueEvents(printer, state0, depth0, v))
    }

    method SerializeSequence(v: Value) returns (r: Outcome)
      modifies this
      requires v.Sequence? && TagsNamed(v) && !state.AlreadyTagged?
      ensures ValueEffect(r, v, old(state), old(depth), old(events))
      decreases v, 2
    {
      ghost var s0, d0, e0 := state, depth, events;
      WriteSequenceStart();
      :- SerializeItems(v.items, v);
      r := WriteSequenceEnd();
      SequenceShape(printer, s0, d0, v, e0);
    }

    /** The elements of a sequence that has begun. */
    method SerializeItems(items: seq<Value>, ghost parent: Value) returns (r: Outcome)
      modifies this
      requires forall i :: 0 <= i < |items| ==> TagsNamed(items[i]) && items[i] < parent
      requires state.NothingInParticular? && depth > 0
      ensures ItemsEffect(r, items, old(depth), old(events))
      decreases parent, 1
    {
      ghost var d, e := depth, events;
      var i := 0;
      while i < |items|
        invariant i <= |items| && state == NothingInParticular
        invariant depth == d - ItemsDefects(items[..i])
        invariant forall j :: 0 <= j < i ==> NoNestedTag(items[j])
        invariant ItemsDefects(items[..i]) == 0 ==> events == e + ItemsEvents(printer, items[..i])
      {
        ItemsStep(printer, items, i, e);
        InnerEvents(printer, depth, items[i]);
        :- SerializeValue(items[i]);
        i := i + 1;
      }
      assert items[..i] == items;
      return Done;
    }

    ghost predicate ItemsEffect(r: Outcome, items: seq<Value>, depth0: nat, events0: seq<EmitEvent>)
      reads this
    {
      && (r.Done? ==>
            state == NothingInParticular && depth == depth0 - ItemsDefects(items)
            && forall j :: 0 <= j < |items| ==> NoNestedTag(items[j]))
      && (r.SerializeNestedEnum? ==> exists j :: 0 <= j < |items| && !NoNestedTag(items[j]))
      && (r.DepthUnderflow? ==> ItemsDefects(items) > 0)
      && (r.Done? && ItemsDefects(items) == 0 ==> events == events0 + ItemsEvents(printer, items))
    }

    method SerializeMapping(v: Value) returns (r: Outcome)
      modifies this
      requires v.Mapping? && TagsNamed(v) && !state.AlreadyTagged?
      ensures ValueEffect(r, v, old(state), old(depth), old(events))
      decreases v, 2
    {
      ghost var s0, d0, e0 := state, depth, events;
      BeginMap(|v.entries|);
      MappingLoss(s0, v);
      :- SerializeEntries(v.entries, v);
      assert events + Owed(state, depth) == events;
      if Lost(s0, v) + Defects(v, s0.FoundTag?) == 0 {
        MappingShape(printer, s0, d0, v, e0, events);
      }
      r := EndMap();
    }

    /** The entries of a mapping that has begun. */
    method SerializeEntries(entries: seq<Entry>, ghost parent: Value) returns (r: Outcome)
      modifies this
      requires forall i :: 0 <= i < |entries| ==>
                 TagsNamedEntry(entries[i]) && entries[i].key < parent && entries[i].val < parent
      requires !state.AlreadyTagged? && !state.FoundTag?
      requires DepthAfterOwed(state, depth) > 0
      ensures EntriesEffect(r, entries, old(state), old(depth), old(events))
      decreases parent, 1
    {
      ghost var s, d, e := state, depth, events;
      var i := 0;
      while i < |entries|
        invariant i <= |entries|
        invariant i == 0 ==> state == s && depth == d && events == e
        invariant i > 0 ==> state == NothingInParticular
        invariant DepthAfterOwed(state, depth) == DepthAfterOwed(s, d) - EntriesLoss(s, entries[..i])
        invariant forall j :: 0 <= j < i ==> NoNestedTagEntry(entries[j])
        invariant EntriesLoss(s, entries[..i]) == 0 ==>
                    events + Owed(state, depth) == e + Owed(s, d) + EntriesEvents(printer, entries[..i])
      {
        LossStep(s, state, entries, i);
        EntriesStep(printer, entries, i, e + Owed(s, d));
        :- SerializeEntry(ValueKey(entries[i].key), entries[i].val, parent);
        i := i + 1;
      }
      assert entries[..i] == entries;
      return Done;
    }

    ghost predicate EntriesEffect(r: Outcome, entries: seq<Entry>, state0: State, depth0: nat, events0: seq<EmitEvent>)
      reads this
    {
      var lost := EntriesLoss(state0, entries);
      && (r.Done? ==>
            state == (if entries == [] then state0 else NothingInParticular)
            && DepthAfterOwed(state, depth) == DepthAfterOwed(state0, depth0) - lost
            && forall j :: 0 <= j < |entries| ==> NoNestedTagEntry(entries[j]))
      && (r.SerializeNestedEnum? ==>
            exists j :: 0 <= j < |entries| && !NoNestedTagEntry(entries[j]))
      && (r.DepthUnderflow? ==> lost > 0)
      && (r.Done? && lost == 0 ==>
            events + Owed(state, depth) == events0 + Owed(state0, depth0) + EntriesEvents(printer, entries))
    }

    method SerializeTagged(v: Value) returns (r: Outcome)
      modifies this
      requires v.Tagged? && TagsNamed(v) && !state.AlreadyTagged?
      ensures ValueEffect(r, v, old(state), old(depth), old(events))
      decreases v, 2
    {
      BeginMap(1);
      :- SerializeEntry(TagKey(v.tag), v.inner, v);
      r := EndMap();
    }

    /** A whole document, from a serializer at rest. */
    method SerializeDocument(v: Value) returns (r: Outcome)
      modifies this
      requires TagsNamed(v) && depth == 0 && state == NothingInParticular
      ensures r.Done? <==> NoNestedTag(v) && Defects(v, false) == 0
      ensures r.Done? ==>
                depth == 0 && state == NothingInParticular
                && events == old(events) + [DocumentStart] + NodeEvents(printer, None, v) + [DocumentEnd]
    {
      r := SerializeValue(v);
    }
  }

  /** A map that announces one entry and gets none: two starts, one end, and a document left open. */
  method OneAnnouncedNoneGiven(printer: ScalarPrinter) returns (s: Serializer, r: Outcome)
    ensures fresh(s) && r == Done && s.depth == 1
    ensures s.events == [StreamStart, DocumentStart, EmitMappingStart(None), EmitMappingStart(None), EmitMappingEnd]
  {
    s := new Serializer(printer);
    s.BeginMap(1);
    r := s.EndMap();
  }

  function Joined(writes: seq<string>): string {
    if writes == [] then "" else Joined(writes[..|writes| - 1]) + writes[|writes| - 1]
  }

  lemma {:induction false} SequenceShape(printer: ScalarPrinter, state: State, depth: nat, v: Value, before: seq<EmitEvent>)
    requires v.Sequence?
    ensures var d := DepthAfterOwed(state, depth);
            before + Owed(state, depth) + Opening(d) + [EmitSequenceStart(PendingTag(state))]
            + ItemsEvents(printer, v.items) + [EmitSequenceEnd] + Closing(d)
            == before + ValueEvents(printer, state, depth, v)
  {
    var d := DepthAfterOwed(state, depth);
    Framed(before, Owed(state, depth), Opening(d), [EmitSequenceStart(PendingTag(state))],
           ItemsEvents(printer, v.items), [EmitSequenceEnd], Closing(d));
  }

  /** The events of a node, with what comes before and after it. */
  lemma {:induction false} Framed(before: seq<EmitEvent>, owed: seq<EmitEvent>, opening: seq<EmitEvent>,
                                  start: seq<EmitEvent>, inside: seq<EmitEvent>, end: seq<EmitEvent>, closing: seq<EmitEvent>)
    ensures before + owed + opening + start + inside + end + closing
            == before + (owed + opening + (start + inside + end) + closing)
  {
    Appended(before + owed + opening, start, inside, end);
    Appended(before, owed, opening, start + inside + end);
    Regroup([], before, owed + opening + (start + inside + end), closing);
  }

  lemma {:induction false} Appended(x: seq<EmitEvent>, a: seq<EmitEvent>, b: seq<EmitEvent>, c: seq<EmitEvent>)
    ensures x + a + b + c == x + (a + b + c)
  {
    Regroup([], x, a, b);
    Regroup([], x, a + b, c);
  }

  lemma {:induction false} EntryShape(printer: ScalarPrinter, state: State, depth: nat, entry: Entry, before: seq<EmitEvent>)
    requires !state.FoundTag?
    ensures var d := DepthAfterOwed(state, depth);
            d > 0 ==>
              before + ValueEvents(printer, state, depth, entry.key) + ValueEvents(printer, NothingInParticular, d, entry.val)
              == before + Owed(state, depth) + EntryEvents(printer, entry)
  {
    var d := DepthAfterOwed(state, depth);
    if d > 0 {
      var key, val := NodeEvents(printer, None, entry.key), NodeEvents(printer, None, entry.val);
      InnerEvents(printer, d, entry.val);
      KeyEvents(printer, state, depth, entry.key);
      Regroup(before, Owed(state, depth), key, val);
    }
  }

  lemma {:induction false} Regroup(a: seq<EmitEvent>, b: seq<EmitEvent>, c: seq<EmitEvent>, d: seq<EmitEvent>)
    ensures a + (b + c) + d == a + b + (c + d)
  {
  }

  lemma {:induction false} KeyEvents(printer: ScalarPrinter, state: State, depth: nat, v: Value)
    requires !state.FoundTag? && DepthAfterOwed(state, depth) > 0
    ensures ValueEvents(printer, state, depth, v) == Owed(state, depth) + NodeEvents(printer, None, v)
  {
  }

  /** What entry `i` adds to the loss, and that the loss never shrinks. */
  lemma {:induction false} LossStep(start: State, state: State, entries: seq<Entry>, i: nat)
    requires i < |entries|
    requires state == if i == 0 then start else NothingInParticular
    ensures EntriesLoss(start, entries[..i + 1])
            == EntriesLoss(start, entries[..i]) + Lost(state, entries[i].key) + EntryDefects(entries[i])
    ensures EntriesLoss(start, entries[..i + 1]) <= EntriesLoss(start, entries)
  {
    assert entries[..i + 1][..i] == entries[..i];
    PrefixEntriesDefects(entries, i + 1);
  }

  /** Inside a document and with nothing pending, a value adds its own events and no others. */
  lemma {:induction false} InnerEvents(printer: ScalarPrinter, depth: nat, v: Value)
    ensures depth > 0 ==> ValueEvents(printer, NothingInParticular, depth, v) == NodeEvents(printer, None, v)
  {
  }

  lemma {:induction false} ItemsStep(printer: ScalarPrinter, items: seq<Value>, i: nat, before: seq<EmitEvent>)
    requires i < |items|
    ensures ItemsDefects(items[..i + 1]) == ItemsDefects(items[..i]) + Defects(items[i], false)
    ensures ItemsDefects(items[..i + 1]) <= ItemsDefects(items)
    ensures before + ItemsEvents(printer, items[..i + 1])
            == before + ItemsEvents(printer, items[..i]) + NodeEvents(printer, None, items[i])
  {
    assert items[..i + 1][..i] == items[..i];
    PrefixDefects(items, i + 1);
  }

  lemma {:induction false} EntriesStep(printer: ScalarPrinter, entries: seq<Entry>, i: nat, before: seq<EmitEvent>)
    requires i < |entries|
    ensures before + EntriesEvents(printer, entries[..i + 1])
            == before + EntriesEvents(printer, entries[..i]) + EntryEvents(printer, entries[i])
  {
    assert entries[..i + 1][..i] == entries[..i];
  }

  lemma {:induction false} MappingShape(printer: ScalarPrinter, state: State, depth: nat, v: Value, before: seq<EmitEvent>, after: seq<EmitEvent>)
    requires v.Mapping?
    requires after == before + Owed(state, depth) + Opening(DepthAfterOwed(state, depth))
                      + [EmitMappingStart(PendingTag(state))] + EntriesEvents(printer, v.entries)
    ensures after + [EmitMappingEnd] + Closing(DepthAfterOwed(state, depth))
            == before + ValueEvents(printer, state, depth, v)
  {
    var d := DepthAfterOwed(state, depth);
    Framed(before, Owed(state, depth), Opening(d), [EmitMappingStart(PendingTag(state))],
           EntriesEvents(printer, v.entries), [EmitMappingEnd], Closing(d));
  }

  lemma {:induction false} PrefixDefects(items: seq<Value>, n: nat)
    requires n <= |items|
    ensures ItemsDefects(items[..n]) <= ItemsDefects(items)
    decreases |items| - n
  {
    if n < |items| {
      PrefixDefects(items, n + 1);
      assert items[..n + 1][..n] == items[..n];
    } else {
      assert items[..n] == items;
    }
  }

  lemma {:induction false} PrefixEntriesDefects(entries: seq<Entry>, n: nat)
    requires n <= |entries|
    ensures EntriesDefects(entries[..n]) <= EntriesDefects(entries)
    decreases |entries| - n
  {
    if n < |entries| {
      PrefixEntriesDefects(entries, n + 1);
      assert entries[..n + 1][..n] == entries[..n];
    } else {
      assert entries[..n] == entries;
    }
  }
}
