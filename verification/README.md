# Verified models of the KCL toolchain

Four components of the KCL repository, modelled in Dafny with proofs of what each is for.

**YAML events** (`Yaml*.dfy`, the vendored serde_yaml). `YamlSerializer` turns a value tree into
emitter events: a five-state machine with a depth counter that delays the start of a one-entry
map, since it may turn out to be a tag. `YamlLoader` turns parser events into an array and an
alias table. `YamlDeserializer` walks the array with a cursor, a jump budget, a recursion budget
and a pending tag; it is proved against `YamlDocument.Eval`, which reads a tree. `YamlAliases`
and `YamlReader` relate a document with aliases to its expansion, `YamlRoundTrip` puts writer and
reader together, `YamlStreams` is about anchors and second documents. `YamlScalars` and `YamlInts`
resolve scalars, and `YamlSchema` says which texts are which values. `YamlOrder` is the order of
values and `YamlHash` their equality and hash.

**Lazy evaluation** (`Kcl*.dfy`). Reading a global name runs its setters on demand.
`KclSetters` emits the setter table, `KclLevels` holds the measure by which lookups end,
`KclMeaning` says what a straight-line body means without laziness, `KclJobs` is how scope and
cache relate to that meaning, `KclReads` gives the value of reads that run no setter, `KclCourse`
foresees what a replay passes and stores when its reads are of that kind, `KclReplay` says which
statements a walk passes and between which stores, `KclEvaluator` is the evaluator, `KclPlain`
runs a body without laziness and compares, `KclStores` says what each kind of statement stores,
`KclOrder` asks in which orders statements may stand, and `KclExamples` runs four small bodies.

**Package cache** (`CacheProtocol.dfy`, `PackageCache.dfy`, `PackageEdits.dfy`). Concurrent writers
of the info file as a state machine, loads and saves one after the other, and which edits of a
package a load notices.

**Pretty printer** (`PrettyComments.dfy`, `PrettyWords.dfy`, `PrettyPrinter.dfy`). A walk that writes
text and drains a queue of comments; the words of the tree and the comments all end up in the
text, once and in order, and comments stay before the statement they precede.

## Findings

Properties that the code does not have as promised, with the condition under which it does:

- A one-entry untagged mapping whose key is a tagged value or a one-entry mapping loses a
  `MappingStart` (`SerializeDocument`, `WriteAndRead`, `LostValues`); a tag that starts with a
  second `!` comes back changed (`WrittenTagIsRead`).
- A display that writes `!` alone and then two pieces or more loses the `!` (`ProbeIsDisplay`,
  `BangIsLost`); a map that announces one entry and gets none is started twice and ended once
  (`EndMap`, `OneAnnouncedNoneGiven`).
- Alias ids are the number of distinct anchor names so far, so reusing a name can make an alias
  lead to an unrelated node (`AliasResolves`, `ReusedAnchorMisleads`).
- Every store to a global that is already in the scope overwrites the cache
  (`crates/evaluator/src/scope.rs:341-348`), so a name with several setters that is read by
  another name between them is read too early (`RunBetween`); the comment on `LazyEvalScope`
  promises independence of order. Orders are interchangeable when only names with one setter are
  shared (`AnyOrderIsRight`), and unless a name has its full value from its first setter, exactly
  then (`AnyOrderIff`). A given order is right when every read finds none or all of the setters
  done (`WellTimed`).
- A lookup runs the next setter only. Its replay passes the statements the tests on the way lead
  to, each nested test evaluated in the store where it is met. If, and only if, none of these
  assigns the name, the lookup returns the variable as it was and earlier setters are not
  consulted (`LookupFinds`, `LookupIsForeseen`, `Backtrack`). In `x = y`, `y = 1`,
  `if False: y = 2` the name x stays undefined (`RunHidden`), and also when that `if` stands
  inside `if True` (`RunNested`). This is stated where the tests and values on the way are at
  hand, that is, run no setter themselves.
- A load can return data that were saved for another form of the package's source: exactly if the
  last save that hashed under the key used now, with no loss of digests since, hashed the present
  digest and was not the last save (`AnswerIff`). That happens when the source moves between file
  and directory (`StaleAfterMove`) or is absent at a save (`StaleAfterAbsence`).
- The data file of the package path `info`, and of no other (`OnlyInfoClashes`), is the file the
  digests are kept in. Saving that package loses the digests of all packages of the target
  (`InfoLosesAll`, `LostToInfo`), and it is never loaded itself (`Serve`).
- The digest of a directory is taken of its files as one text, so bytes that move from the end of
  one file to the beginning of the next go unnoticed; every edit of a single file is noticed
  (`SaveEditLoad`).

## How the models relate to the code

- The libyaml text layer is a function from emitted to parsed events that keeps every event and
  may choose plain or quoted where the style is `Any`, and may put anchors on nodes; theorems hold
  for every such function.
- Parsing and formatting of finite floats are parameters; `Printable` asks that they agree.
  Infinities and NaN are symbols. Lower-casing in `ambiguous_string` is ASCII.
- `depth -= 1` is a checked subtraction whose failure is an outcome of its own. `n - next_level`
  in the lazy lookup wraps, as its guard intends. Other counters are unbounded.
- Integers of 128 bits are recognised and then rejected, as the visitor of `Value` does.
- Operators, truth and literals of KCL values are an interpretation that every theorem is
  quantified over. Values are not shared, so deep copies need no model.
- The rank of names in `Tame` says that names do not depend on each other in a cycle, and that a
  first setter does not read its own name.
- Sorting, the file lock, the atomic rename and the digest are used by their contracts.
- A file of package data does not read as a map of digests, nor one of digests as data. Package
  paths are written with dots, so that different ones name different files.
- Syntax trees of the printer keep what a node prints as words and sub-expressions, and keep apart
  the layouts that touch comments or indentation. Operator symbols, types and quoted keys are
  words.

## Model

| member | source | states |
|---|---|---|
| `YamlInts.UnsignedIsLiteral` | 3rdparty/serde_yaml/src/de.rs:940-976 | `parse_unsigned_int` at any unsigned type gives exactly the number the text denotes (sign, radix prefix, no zero padding), if it has no minus and fits |
| `YamlInts.SignedIsLiteral` | 3rdparty/serde_yaml/src/de.rs:978-1036 | `parse_signed_int` at any signed type gives exactly the number the text denotes, if it fits |
| `YamlInts.VisitIntIsLiteral` | 3rdparty/serde_yaml/src/de.rs:1129-1146 | which of the four integer visits is made, for every text, in terms of the number it denotes and its sign |
| `YamlInts.IntegerParsersAgree` | 3rdparty/serde_yaml/src/de.rs:978-1064 | for every text and every k in i64 range, `visit_int` yields k if and only if `parse_signed_int` at i64 does |
| `YamlInts.DecimalRoundTrip` | 3rdparty/serde_yaml/src/number.rs:295-327 | the decimal text of every integer from i64::MIN to u64::MAX is visited as the same number, in the variant it was printed from |
| `YamlScalars.ScalarRoundTrip` | 3rdparty/serde_yaml/src/ser.rs:308-372 | a printed scalar, in every style the text layer may choose for the style asked for, resolves to the same scalar, whether or not a tag was read before it |
| `YamlSchema.PlainNull` | 3rdparty/serde_yaml/src/de.rs:925-930 | a plain scalar is null exactly for the four spellings of the core schema and the empty text (YAML 1.2.2 section 10.3.2) |
| `YamlSchema.PlainBool` | 3rdparty/serde_yaml/src/de.rs:932-938 | a plain scalar is a boolean exactly for the three spellings of each |
| `YamlSchema.PlainSpecial` | 3rdparty/serde_yaml/src/de.rs:1066-1090 | a plain scalar is an infinity or NaN exactly for their spellings, with the signs admitted |
| `YamlSchema.PlainInteger` | 3rdparty/serde_yaml/src/de.rs:1148-1195 | a plain integer literal of 64 bits, signed or unsigned, is that number; -0 is 0 |
| `YamlSchema.QuotedIsText` | 3rdparty/serde_yaml/src/de.rs:858-903 | an untagged scalar in any other style is its text |
| `YamlSchema.HexDigits` | 3rdparty/serde_yaml/src/de.rs:940-976 | the digits up to radix 16, in either case |
| `YamlSchema.RadixTexts` | 3rdparty/serde_yaml/src/de.rs:940-1064 | literals with each radix prefix, with signs, and with a leading zero |
| `YamlSchema.NullTag` | 3rdparty/serde_yaml/src/de.rs:858-903 | under the core tag for null: null for its spellings, else an invalid value |
| `YamlSchema.BoolTag` | 3rdparty/serde_yaml/src/de.rs:858-903 | under the tag for booleans: true and false for their spellings, else an invalid value |
| `YamlSchema.IntTag` | 3rdparty/serde_yaml/src/de.rs:858-903 | under the tag for integers: the number denoted if it has 64 bits, an invalid value if the text denotes none, an error if it is larger |
| `YamlSchema.FloatTag` | 3rdparty/serde_yaml/src/de.rs:858-903 | under the tag for floats: infinities and NaN exactly for their spellings, else a float or an invalid value |
| `YamlSerializer.TagIsFound` | 3rdparty/serde_yaml/src/value/tagged.rs:426-474 | displaying a tag in the pieces its formatter writes is recognised as that tag |
| `YamlSerializer.ProbeIsDisplay` | 3rdparty/serde_yaml/src/value/tagged.rs:426-474 | for every sequence of writes: a display is a tag if and only if it is a `!` and one more write; any other is its text, except that a `!` written alone and followed by two writes or more is lost |
| `YamlSerializer.BangIsLost` | 3rdparty/serde_yaml/src/value/tagged.rs:426-474 | the writes `!`, `a`, `b` display as `!ab` and are serialized as `ab` |
| `YamlSerializer.Serializer.ValueStart` | 3rdparty/serde_yaml/src/ser.rs:129-135 | a document is opened exactly at depth 0, and the depth goes up by one |
| `YamlSerializer.Serializer.ValueEnd` | 3rdparty/serde_yaml/src/ser.rs:137-143 | the depth goes down by one, or the call fails at depth 0; the document is closed exactly when 0 is reached |
| `YamlSerializer.Serializer.TakeTag` | 3rdparty/serde_yaml/src/ser.rs:145-156 | a pending tag is handed out once, with a leading `!`, and the state is reset; any other state is kept |
| `YamlSerializer.Serializer.FlushMappingStart` | 3rdparty/serde_yaml/src/ser.rs:158-166 | a delayed `MappingStart` is emitted, with the document start owed before it, in the two states that delay one, and nothing otherwise |
| `YamlSerializer.Serializer.WriteScalar` | 3rdparty/serde_yaml/src/ser.rs:93-101 | the scalar with the tag taken, within a value start and end |
| `YamlSerializer.Serializer.CollectStr` | 3rdparty/serde_yaml/src/ser.rs:502-523 | a display is taken as a tag, reported as nested tag, or written as a scalar with its text, after the start owed and with the tag pending |
| `YamlSerializer.Serializer.BeginMap` | 3rdparty/serde_yaml/src/ser.rs:468-480 | a map of length one delays its start unless a tag is pending; any other emits it |
| `YamlSerializer.Serializer.EndMap` | 3rdparty/serde_yaml/src/ser.rs:638-647 | a map that turned out to be a tag ends without an event; one that announced an entry and got none emits the start it owes, another one, and a single end; any other emits its end |
| `YamlSerializer.OneAnnouncedNoneGiven` | 3rdparty/serde_yaml/src/ser.rs:638-647 | such a map as the whole document: two starts, one end, and the document left open at depth 1 |
| `YamlSerializer.Serializer.SerializeEntry` | 3rdparty/serde_yaml/src/ser.rs:624-636 | an entry emits its key and its value after the start it owes, or turns the map into a tag; how many starts it loses |
| `YamlSerializer.Serializer.SerializeValue` | 3rdparty/serde_yaml/src/value/ser.rs:10-31 | for every value in every state: which events are added, which state and depth are left, and when it fails |
| `YamlSerializer.Serializer.SerializeSequence` | 3rdparty/serde_yaml/src/ser.rs:526-543 | the same for sequences: start, elements in order, end |
| `YamlSerializer.Serializer.SerializeMapping` | 3rdparty/serde_yaml/src/mapping.rs:773-783 | the same for mappings: the depth that is missing at the end is the number of starts lost |
| `YamlSerializer.Serializer.SerializeTagged` | 3rdparty/serde_yaml/src/value/tagged.rs:174-194 | the same for tagged values: the tag ends up on the node of the inner value |
| `YamlSerializer.Serializer.SerializeDocument` | 3rdparty/serde_yaml/src/ser.rs:59-166 | serializing succeeds if and only if no tag is directly under a tag and no untagged one-entry mapping has a tagged or one-entry-mapping key; then the events are DocumentStart, the node, DocumentEnd, depth is 0 and the state is back to NothingInParticular |
| `YamlDocument.NestWhole` | 3rdparty/serde_yaml/src/de.rs:498-532 | over the events of a complete node the stack of open collections returns to where it was |
| `YamlDocument.NestInside` | 3rdparty/serde_yaml/src/de.rs:498-532 | and before the end of the node it is strictly deeper |
| `YamlDocument.EvalNeverPanics` | 3rdparty/serde_yaml/src/de.rs:569-630 | reading any prefix of a well-nested document with resolved aliases reaches none of the panics |
| `YamlDocument.IncompleteFails` | 3rdparty/serde_yaml/src/de.rs:448-460 | a node cut off before its end is never read successfully |
| `YamlDeserializer.Deserializer.NextEvent` | 3rdparty/serde_yaml/src/de.rs:462-472 | one event forward, or the end-of-document error in place |
| `YamlDeserializer.Deserializer.IgnoreAny` | 3rdparty/serde_yaml/src/de.rs:498-532 | from any node start it stops exactly at the end of that node, or at the end of the array with the end error if the node is incomplete; over arbitrary events it ends, and panics only on a mismatched end event |
| `YamlDeserializer.Deserializer.DeserializeAny` | 3rdparty/serde_yaml/src/de.rs:1238-1294 | result and jump count are those of the tree the events spell; success leaves the cursor exactly at the end of the node; over arbitrary events the looks at events are bounded by those passed and jumped |
| `YamlDeserializer.Deserializer.VisitEvent` | 3rdparty/serde_yaml/src/de.rs:1250-1290 | the same for the event just passed, by its kind |
| `YamlDeserializer.Deserializer.VisitEnum` | 3rdparty/serde_yaml/src/de.rs:748-785 | a local tag wraps what the same node gives without it |
| `YamlDeserializer.Deserializer.Jump` | 3rdparty/serde_yaml/src/de.rs:474-496 | an alias gives what its target gives with one jump more, or the repetition error above 100 jumps per event; the cursor of the jumping side stays |
| `YamlDeserializer.Deserializer.VisitSequence` | 3rdparty/serde_yaml/src/de.rs:534-549 | a sequence one level deeper, or the recursion error at the limit; the recursion budget is restored |
| `YamlDeserializer.Deserializer.NextChild` | 3rdparty/serde_yaml/src/de.rs:654-683 | the next element or key, or none exactly at the end of the collection |
| `YamlDeserializer.Deserializer.ReadItems` | 3rdparty/serde_yaml/src/value/de.rs:91-98 | all elements in order, and the cursor at the end event |
| `YamlDeserializer.Deserializer.VisitMapping` | 3rdparty/serde_yaml/src/de.rs:551-567 | a mapping, as for sequences |
| `YamlDeserializer.Deserializer.NextEntry` | 3rdparty/serde_yaml/src/de.rs:692-740 | the next entry, or the duplicate-key error before its value is read |
| `YamlDeserializer.Deserializer.ReadChild` | 3rdparty/serde_yaml/src/de.rs:717-739 | one element, key or value, read with no tag pending |
| `YamlDeserializer.Deserializer.ReadEntries` | 3rdparty/serde_yaml/src/mapping.rs:808-827 | all entries in order, keys distinct, and the cursor at the end event |
| `YamlDeserializer.Deserializer.EndCollection` | 3rdparty/serde_yaml/src/de.rs:569-630 | at the end event it is consumed; children that are left are skipped, each exactly, and reported as a wrong length; in an incomplete collection the end error |
| `YamlLoader.Loader.NextDocument` | 3rdparty/serde_yaml/src/loader.rs:43-118 | the events, alias table and error of the next document, and where the parser stands afterwards |
| `YamlLoader.AliasesLead` | 3rdparty/serde_yaml/src/loader.rs:82-113 | over every event stream, every alias id in a loaded document has a table entry inside the array that points at a scalar, sequence or mapping start |
| `YamlLoader.TableLeads` | 3rdparty/serde_yaml/src/loader.rs:88-111 | so does every entry of the table |
| `YamlLoader.IdIsKept` | 3rdparty/serde_yaml/src/loader.rs:88-111 | the entry of an anchor still points at it at the end of the document if and only if it was the first with its name or is the last anchor of all |
| `YamlLoader.AliasResolves` | 3rdparty/serde_yaml/src/loader.rs:82-87 | an alias leads to the most recent node with its name (YAML 1.2.2 section 3.2.2.2) if and only if that node was the first with the name or has the last anchor |
| `YamlLoader.DistinctAnchorsResolve` | 3rdparty/serde_yaml/src/loader.rs:82-111 | with distinct anchor names every alias leads to the earlier node of its name |
| `YamlLoader.ReusedAnchorMisleads` | 3rdparty/serde_yaml/src/loader.rs:91-108 | anchors a, a, b and an alias of a: the alias leads to the node of b |
| `YamlAliases.AliasTransparency` | 3rdparty/serde_yaml/src/de.rs:474-496 | reading a node and reading its expansion agree in value and error until the repetition limit is reached, and the number of jumps is the number of aliases expanded |
| `YamlAliases.ExpansionIsUnique` | 3rdparty/serde_yaml/src/de.rs:474-496 | a node has at most one expansion |
| `YamlAliases.ReadableExpands` | 3rdparty/serde_yaml/src/de.rs:1250-1290 | what can be read has a finite expansion, self-referential aliases included in the claim |
| `YamlAliases.AliasesAreExpanded` | 3rdparty/serde_yaml/src/de.rs:474-496 | a node reads as v if and only if its expansion exists, reads as v without aliases, and has no more aliases than the limit |
| `YamlReader.FromEvents` | 3rdparty/serde_yaml/src/de.rs:97-145 | reading a stream ends on every input, with at most 8n(100n+1)+2 looks at n events; on a stream that spells a tree the result is the meaning of that tree, with the error for a second document; the empty stream is null |
| `YamlReader.WellNestedNeverPanics` | 3rdparty/serde_yaml/src/de.rs:97-145 | on every stream that spells a tree or a prefix of one, no panic is reached, whatever the aliases |
| `YamlReader.AliasNamesItsNode` | 3rdparty/serde_yaml/src/loader.rs:82-113 | with distinct anchor names, an alias stands for the subtree that starts at the earlier node of its name |
| `YamlReader.DocumentIsItsExpansion` | 3rdparty/serde_yaml/src/de.rs:97-145 | a document deserializes to v if and only if its alias-expanded form exists, deserializes to v, and expands no more than 100 aliases per event |
| `YamlStreams.AnchorsMakeNoDifference` | 3rdparty/serde_yaml/src/loader.rs:88-113 | in a stream without aliases, taking the anchors away changes neither the events loaded nor what is read |
| `YamlStreams.SecondDocumentFails` | 3rdparty/serde_yaml/src/de.rs:125-145 | the events of two documents one after the other are the error for that, unless the first is an error by itself |
| `YamlStreams.UnknownAliasFails` | 3rdparty/serde_yaml/src/loader.rs:82-87 | an alias of a name that no node before it carries is an error, whatever follows |
| `YamlStreams.CutOffFails` | 3rdparty/serde_yaml/src/loader.rs:60-66 | where the parser fails the document has its error, and reading fails |
| `YamlStreams.NoDocument` | 3rdparty/serde_yaml/src/loader.rs:69-79 | a stream without documents is read as null |
| `YamlStreams.SmallDocument` | 3rdparty/serde_yaml/src/ser.rs:59-166 | one mapping with a tagged sequence: all events written, and all events read back, one by one |
| `YamlRoundTrip.ArrivalSpellsTree` | 3rdparty/serde_yaml/src/ser.rs:93-127 | the events of a value, through any faithful text layer, with or without anchors, spell a tree that renders the value |
| `YamlRoundTrip.ReadRendered` | 3rdparty/serde_yaml/src/de.rs:1238-1294 | reading such a tree gives nothing but the value with its tags as read, and only if the nesting is within the budget; it fails only if the nesting is not within the budget or a tag is not readable |
| `YamlRoundTrip.ReadableIsCanon` | 3rdparty/serde_yaml/src/de.rs:1223-1233 | the tags as read are those in normal form if and only if all are readable |
| `YamlRoundTrip.WrittenTagIsRead` | 3rdparty/serde_yaml/src/de.rs:1223-1233 | a written tag is read as itself without its `!` if and only if that does not start with `!` again |
| `YamlRoundTrip.StreamReadsBack` | 3rdparty/serde_yaml/src/de.rs:97-145 | the same from the stream events on |
| `YamlRoundTrip.LostValues` | 3rdparty/serde_yaml/src/ser.rs:624-636 | the smallest values that fail each condition of the round trip but the depth limit |
| `YamlRoundTrip.WriteAndRead` | 3rdparty/serde_yaml/src/ser.rs:694-705 | writing a value with distinct keys and reading the result, through any faithful layer, anchors on nodes or not, gives the same value, tags in normal form, if and only if no tag is directly under a tag, no start is lost, at most 128 collections are nested, and no tag starts with a second `!` |
| `YamlOrder.TotalCmpReflexive` | 3rdparty/serde_yaml/src/mapping.rs:408-443 | `total_cmp` gives Equal for a value and itself |
| `YamlOrder.TotalCmpFlips` | 3rdparty/serde_yaml/src/mapping.rs:408-443 | exchanging the arguments exchanges Less and Greater |
| `YamlOrder.TotalCmpTransitive` | 3rdparty/serde_yaml/src/mapping.rs:408-443 | Less, Greater and Equal chain as in a total order, over values nested to any depth |
| `YamlOrder.CmpNumberLaws` | 3rdparty/serde_yaml/src/number.rs:364-388 | the same three laws for numbers, NaN and infinities included |
| `YamlOrder.ScalarsAsValues` | 3rdparty/serde_yaml/src/mapping.rs:408-443 | integers compare as their values, finite floats as theirs, and false before true |
| `YamlOrder.FloatsBehindIntegers` | 3rdparty/serde_yaml/src/number.rs:364-388 | integers before floats, floats between the infinities, NaN last |
| `YamlOrder.KindsInOrder` | 3rdparty/serde_yaml/src/mapping.rs:408-443 | null, booleans, numbers, strings, sequences, mappings, tagged values, in this order |
| `YamlOrder.TaggedByTag` | 3rdparty/serde_yaml/src/mapping.rs:408-443 | tagged values compare by tag, up to a leading `!`, and then by what is tagged |
| `YamlOrder.StringsByFirstDifference` | 3rdparty/serde_yaml/src/mapping.rs:408-443 | strings compare by their first difference, a proper prefix first |
| `YamlOrder.ItemsByFirstDifference` | 3rdparty/serde_yaml/src/mapping.rs:445-469 | sequences by the first elements that do not compare equal, a proper prefix first |
| `YamlOrder.EntriesByFirstDifference` | 3rdparty/serde_yaml/src/mapping.rs:471-485 | mappings that are sorted by key, entry by entry, by key and then by value |
| `YamlOrder.EqualIsSame` | 3rdparty/serde_yaml/src/mapping.rs:408-443 | Equal means equal values; the converse holds for values without mappings |
| `YamlOrder.IterCmp` | 3rdparty/serde_yaml/src/mapping.rs:445-469 | the loop computes the lexicographic comparison, the shorter list first |
| `YamlOrder.EqualMappingsSortAlike` | 3rdparty/serde_yaml/src/mapping.rs:471-485 | two equal mappings with keys free of mappings, in whatever insertion order, sort to the same key order, entry by entry |
| `YamlHash.SameReflexive` | 3rdparty/serde_yaml/src/value/mod.rs:24-44 | every value equals itself, NaN included |
| `YamlHash.SameTransitive` | 3rdparty/serde_yaml/src/value/mod.rs:24-44 | equality of values chains |
| `YamlHash.SameFlips` | 3rdparty/serde_yaml/src/mapping.rs:13-16 | equality of valid values is symmetric, though mappings are compared by looking each entry of the first up in the second |
| `YamlHash.HashMapping` | 3rdparty/serde_yaml/src/mapping.rs:387-399 | the loop computes the XOR of the entry hashes |
| `YamlHash.HashIgnoresOrder` | 3rdparty/serde_yaml/src/mapping.rs:387-399 | the hash of a mapping does not depend on insertion order |
| `YamlHash.EqualMappingsHashAlike` | 3rdparty/serde_yaml/src/mapping.rs:387-399 | mappings of valid entries with distinct keys that are equal have the same hash, whatever their keys hold and in whatever order |
| `YamlHash.EqualValuesHashAlike` | 3rdparty/serde_yaml/src/value/mod.rs:677-690 | equal valid values make the same writes to a hasher, mappings at any depth included, whatever the hashers of the entries make of theirs |
| `KclSetters.AddStmts` | crates/evaluator/src/lazy.rs:208-225 | one setter more for each leaf, under the leaf's name |
| `KclSetters.EmitSettersWith` | crates/evaluator/src/lazy.rs:200-310 | inside an `if` only names and innermost ids are collected, in order; at the top level the table is extended statement by statement |
| `KclSetters.EmitSetters` | crates/evaluator/src/lazy.rs:188-196 | the table of a body holds for every name exactly its list of setters |
| `KclSetters.SettersAreComplete` | crates/evaluator/src/lazy.rs:226-309 | for every body with nested `if`s, every possible setter is in the list of a name as often as its top-level index, branch and innermost statement assign the name |
| `KclSetters.EachWriteHasItsSetter` | crates/evaluator/src/lazy.rs:226-309 | by kind of statement: the list of a name holds the setter of every assignment, augmented assignment or unification that writes the name, at the top level or anywhere in a branch of an `if`, and no other |
| `KclSetters.SetterAtIffWritten` | crates/evaluator/src/lazy.rs:226-309 | so a name has a setter for the statement at an index if and only if that statement writes it |
| `KclSetters.SettersAreOrdered` | crates/evaluator/src/lazy.rs:226-309 | the list is in program order: by statement, the then-branch of an `if` before its else-branch, and leaf by leaf inside a branch |
| `KclLevels.EnterDrops` | crates/evaluator/src/lazy.rs:344-361 | entering a setter takes one from the sum over all names of the setters not entered |
| `KclLevels.Restored` | crates/evaluator/src/lazy.rs:362-371 | putting back the level of the name looked up leaves every other level as it was, unless that was already at its limit |
| `KclMeaning.SetterAt` | crates/evaluator/src/lazy.rs:226-253 | the setter at index j of a straight-line body is the statement before which exactly j setters of its name stand |
| `KclMeaning.MarkStep` | crates/evaluator/src/lazy.rs:349-361 | the setter one level deeper leaves the name as the setter of this level has to find it |
| `KclReads.HandStays` | crates/evaluator/src/lazy.rs:321-334 | what can be read without running a setter keeps its value while other reads store nothing |
| `KclCourse.RestStays` | crates/evaluator/src/lazy.rs:341-375 | so does what is read through a setter whose replay passes no assignment, at whatever depth the `if`s inside go the other way |
| `KclCourse.LookupFinds` | crates/evaluator/src/lazy.rs:359-375 | a lookup whose replay reads only what is at hand leaves in the variables what the assignments passed give; the name is given a value if and only if one of them assigns it, and else the lookup returns the variable as it was; if none assigns anything, the store is as it was |
| `KclEvaluator.Evaluator.constructor` | crates/evaluator/src/module.rs:45-80 | the global scope before evaluation: the names assigned or unified anywhere are there, undefined; cache and levels are empty |
| `KclEvaluator.Evaluator.CalIncrement` | crates/evaluator/src/lazy.rs:69-78 | counts stores outside backtracking and tells whether the last setter was reached |
| `KclEvaluator.Evaluator.SetValueToLazyScope` | crates/evaluator/src/lazy.rs:383-391 | fills an empty cache entry exactly when the store is counted as the last or made by the last setter, and never while the name is being looked up |
| `KclEvaluator.Evaluator.StoreGlobal` | crates/evaluator/src/scope.rs:326-360 | the variable gets the value; one that exists is put in the cache whatever was there |
| `KclEvaluator.Evaluator.LoadName` | crates/evaluator/src/scope.rs:633-653 | a read at rest gives the value the scope and lazy scope say; a read within a job gives the meaning of the name, and of another name its full value as long as all reads do |
| `KclEvaluator.Evaluator.GetValueFromLazyScope` | crates/evaluator/src/lazy.rs:313-379 | a lookup gives for the job's own name what its earlier setters give, for another name what is stored of it or, if nothing is, its full value; levels are back; it ends for every table |
| `KclEvaluator.Evaluator.Backtrack` | crates/evaluator/src/lazy.rs:341-375 | the next setter runs unless the level is at the number of setters, where the default is returned and the raised level stays; a lookup that can be foreseen returns the value and leaves the store that its course says |
| `KclEvaluator.Evaluator.RunNext` | crates/evaluator/src/lazy.rs:359-375 | below the limit, such a lookup returns what the statements its replay passes give the name, or the variable as it was if none assigns it; the store is the one those statements leave, with the level put back and the value cached |
| `KclEvaluator.Evaluator.RunSetter` | crates/evaluator/src/lazy.rs:359-372 | the variable the replay leaves is returned and cached, and the store is that at the end of the replay with the level put back; how the replay of the next setter's statement went |
| `KclEvaluator.Evaluator.WalkStmtsWithSetter` | crates/evaluator/src/node.rs:1151-1179 | replays one setter with its stop id and branch pushed, and pops them; which statements are passed, and between which stores; a job that is due is done afterwards |
| `KclEvaluator.Evaluator.WalkStmt` | crates/evaluator/src/node.rs:38-59 | skipped if the replay is past its stop; else walked, from the store there was to the store there is, and the replay marked if this was the stop |
| `KclEvaluator.Evaluator.WalkAssign` | crates/evaluator/src/node.rs:100-131 | evaluates with the targets pushed, stores the value to every target, pops them; a value at rest is the one stored; the value stored is the meaning of the job |
| `KclEvaluator.Evaluator.WalkAugAssign` | crates/evaluator/src/node.rs:133-160 | the right operand first, then the target, then the store; the value stored is the meaning of the job |
| `KclEvaluator.Evaluator.WalkIf` | crates/evaluator/src/node.rs:194-218 | a test whose reads rest comes out as its value says, and one that runs no setter leaves the evaluator at the `if`; the branch taken depends on the outcome, the replay's kind, and the statement the evaluator is at |
| `KclEvaluator.Evaluator.WalkStmts` | crates/evaluator/src/node.rs:1142-1149 | all statements in order, up to the stop |
| `KclEvaluator.Evaluator.WalkExpr` | crates/evaluator/src/node.rs:552-606 | an expression at rest gives its value and stores nothing; an expression within a job gives its meaning; if every name in it is at hand, nothing changes |
| `KclEvaluator.Evaluator.WalkTop` | crates/evaluator/src/node.rs:1132-1141 | one statement at the top level keeps scope and cache in step with the meaning |
| `KclEvaluator.Evaluator.WalkModule` | crates/evaluator/src/node.rs:1125-1128 | for every body, cyclic ones included: evaluation ends, every level is back to zero, and how each statement was walked; for straight-line bodies without cycles: if the body is well timed every read is right, and if every read is right every variable and cache entry is the full value |
| `KclReplay.NotReachedIsComplete` | crates/evaluator/src/lazy.rs:16-39 | if the stop is not met, every statement of the branch is walked |
| `KclReplay.StopIsLast` | crates/evaluator/src/lazy.rs:16-39 | if it is met, it is the last statement passed, and passed once |
| `KclReplay.NestedIfsRunNormally` | crates/evaluator/src/context.rs:296-318 | `if`s inside the replayed branch, with ids of their own and tests that run no setter, are walked as in a run without a wanted branch |
| `KclReplay.ReplayIsPartial` | crates/evaluator/src/node.rs:194-218 | replaying an If (OrElse) setter, when no test runs a setter and the `if`s inside have ids of their own, walks the then (else) branch exactly if the condition, evaluated in the store where the replay began, is true (false), up to and including the stop or to the end of the branch, and else nothing |
| `KclReplay.UntakenWalksNothing` | crates/evaluator/src/node.rs:194-218 | with a condition at hand, a replay for a branch that has statements passes nothing of the outermost `if` if and only if the condition is for the other branch; and then the store is as it was |
| `KclReplay.WalkIsCourse` | crates/evaluator/src/node.rs:194-218 | a walk that reads only what is at hand goes as the course says, each nested test evaluated in the store where it is met: the same store, the same assignments passed, the stop met or not |
| `KclReplay.LookupIsForeseen` | crates/evaluator/src/lazy.rs:359-372 | so does the replay a lookup runs: a statement that assigns the name is passed if and only if the course gives the name a value |
| `KclStores.NoSetterNoChange` | crates/evaluator/src/node.rs:66-218 | a top-level statement changes no variable that has no setter for it, apart from what the lookups it makes change |
| `KclStores.StoredByKind` | crates/evaluator/src/node.rs:66-160 | what the variables hold after each kind of statement whose value is at rest: an augmented assignment combines the old value with the operand, a unification by `|` |
| `KclPlain.DefinedIffDeclared` | crates/evaluator/src/module.rs:47-79 | the names there before evaluation are those an assignment or a unification writes, anywhere inside |
| `KclPlain.LazyIsPlain` | crates/evaluator/src/node.rs:66-218 | a body, `if`s included, that stores every name before it reads it comes out as in a plain run: statements in order, the branch of an `if` by its test, names read from what is stored |
| `KclOrder.Evaluate` | crates/evaluator/src/lazy.rs:313-391 | a whole run from an empty scope: levels zero, and how each statement was walked, for every body; for straight-line bodies without cycles, right if well timed, and if right the globals are the full values and no statement read another name too early; for bodies that can be run plainly, `if`s included, the globals of the plain run |
| `KclOrder.MeaningIsOrderFree` | crates/evaluator/src/lazy.rs:41-43 | the full value of every name is the same in every interleaving of the statements of different names |
| `KclOrder.AnyOrderIsRight` | crates/evaluator/src/lazy.rs:41-43 | if names with several setters are read by their own setters only, every interleaving is evaluated right and gives the same values |
| `KclOrder.PlainIsFull` | crates/evaluator/src/lazy.rs:41-43 | in a well timed body a plain run, if there is one, gives the full values |
| `KclOrder.AnyOrderIsPlain` | crates/evaluator/src/lazy.rs:41-43 | if names with several setters are read by their own setters only, every order is well timed and its full values are what a plain run gives in an order that stores each name before it is read |
| `KclOrder.SomeOrderIsWrong` | crates/evaluator/src/scope.rs:341-348 | otherwise, if a setter of y is bound to read x, and x's first setter does not give x's full value already, some interleaving has a wrong read |
| `KclOrder.SharedSumIsWrong` | crates/evaluator/src/scope.rs:341-348 | so for every name that is added to by augmented assignment and read by another name's setter, over values that are the expressions themselves |
| `KclOrder.WellTimedIsSettled` | crates/evaluator/src/lazy.rs:313-391 | in a well timed body every statement reads, of other names, their full values |
| `KclOrder.AnyOrderIff` | crates/evaluator/src/scope.rs:341-348 | for bodies without conditional expressions in which no name with several setters has its full value from the first one, over every interpretation: all interleavings are well timed, and all read right, if and only if names with several setters are read by their own setters only |
| `KclOrder.SumsAreTelling` | crates/evaluator/src/scope.rs:341-348 | bodies whose names with several setters are added to are of this kind, over values that are the expressions themselves |
| `KclExamples.ReadBetweenSetters` | crates/evaluator/src/lazy.rs:41-43 | `_a = 1`, `b = _a`, `_a += 1`: by its meaning b is 1 + 1 |
| `KclExamples.RunBetween` | crates/evaluator/src/scope.rs:341-348 | the evaluator, run on this body, leaves 1 in b and 1 + 1 in `_a`, and a read was wrong |
| `KclExamples.RunHidden` | crates/evaluator/src/lazy.rs:359-372 | the evaluator, run on `x = y`, `y = 1`, `if False: y = 2`, leaves x undefined and 1 in y |
| `KclExamples.RunNested` | crates/evaluator/src/lazy.rs:359-372 | so it does on `x = y`, `y = 1`, `if True:` with `if False: y = 2` inside |
| `KclExamples.RunElse` | crates/evaluator/src/node.rs:211-216 | the evaluator, run on `if False: a = 1` with `else: a = 2`, leaves 2 in a |
| `CacheProtocol.RunInv` | crates/config/src/cache.rs:189-211 | in every interleaving of any number of writers, deaths included, only the lock holder has anything to lose: its map is current, its temporary file is what it wrote, and the info file is the result of the renamed jobs one after the other |
| `CacheProtocol.NoLostUpdate` | crates/config/src/cache.rs:179-211 | over every run the key set never shrinks, the key of every finished writer stays, and a reader always sees the initial file or a complete map |
| `CacheProtocol.LastWriterWins` | crates/config/src/cache.rs:179-211 | at any moment of any run the info file holds for every key the digest of the writer renamed last among those of the key, or what was there at the start |
| `CacheProtocol.AllTakeEffect` | crates/config/src/cache.rs:202-209 | when all writers have finished, each has taken effect exactly once and the lock is free |
| `CacheProtocol.SomeoneCanGo` | crates/config/src/cache.rs:202-209 | as long as a writer has not come to its end, some writer can take a step |
| `PackageCache.OnlyInfoClashes` | crates/config/src/cache.rs:151-175 | the data file of a package is the info file of the target if and only if the package path is `info` |
| `PackageCache.Cache.SavePkgCache` | crates/config/src/cache.rs:97-138 | all files after a save: the digest is added to the info file if and only if the source path exists, then the data are put in the file of the package, which for `info` is the info file; an unknown external package is an error and changes nothing |
| `PackageCache.Cache.LoadPkgCache` | crates/config/src/cache.rs:39-94 | exactly when data are returned, and that they are those in the file of the package |
| `PackageCache.Serve` | crates/config/src/cache.rs:39-138 | over every sequence of edits, saves and loads of any packages, with no condition on keys: a load returns the data of the last save of the package exactly if the last save, of whatever package, that hashed under the key used now hashed the digest there is now and the package `info` was not saved since; `info` itself is never loaded; else nothing |
| `PackageCache.AnswerIff` | crates/config/src/cache.rs:78-91 | where keys have one owner, for a package other than `info`: data come back if and only if the last save of the package that hashed under the key used now, digests not lost since, hashed the same digest; they were made from the source of another save, or from none, exactly if the last save of all did not hash under that key |
| `PackageCache.UnchangedIffLoaded` | crates/config/src/cache.rs:78-91 | with an injective digest, and if the last save hashed under the key used now, the data of that save come back exactly if the hashed bytes are unchanged and `info` was not saved since |
| `PackageEdits.EditIsNoticed` | crates/config/src/cache.rs:214-235 | where keys have one owner and with an injective digest: after any history, a package whose source file, or one of the files of whose directory, has other bytes than at its last save is not found |
| `PackageEdits.SaveEditLoad` | crates/config/src/cache.rs:214-235 | from the sources alone, with an injective digest: a package saved, edited and loaded is found if nothing changed or bytes only moved from the end of one file to the beginning of the next, and not found if a file was edited, or a directory became a file, or a file a directory |
| `PackageEdits.SlashForDot` | crates/config/src/cache.rs:237-245 | a package path becomes a file path with a slash for every dot |
| `PackageEdits.NameBeforeDot` | crates/utils/src/pkgpath.rs:13-34 | the name of an external package is what stands before the first dot, and the rest begins there |
| `PackageEdits.SavedIff` | crates/config/src/cache.rs:97-138 | a save succeeds exactly if root and package path are not empty and the package has a source as a file or directory, or the name of an external package |
| `PackageCache.InfoLosesAll` | crates/config/src/cache.rs:151-211 | right after a save of the package `info` no load of any package finds anything |
| `PackageCache.LostToInfo` | crates/config/src/cache.rs:151-211 | a package saved and loaded, then `info` saved: neither is found, though no source has changed |
| `PackageCache.InternalPackagesHaveOneOwner` | crates/config/src/cache.rs:237-245 | packages without slashes in their names and without external roots never share an info key |
| `PackageCache.StaleAfterMove` | crates/config/src/cache.rs:58-91 | a package saved as a directory, then as a file, then a directory again: the data made from the file are returned |
| `PackageCache.StaleAfterAbsence` | crates/config/src/cache.rs:119-131 | an external package saved, absent at the next save, and back: the data made without it are returned |
| `PrettyComments.LeadingBound` | crates/ast_pretty/src/lib.rs:245-252 | the comments counted are not behind the line, and the next one is |
| `PrettyComments.LeadingPlacedBound` | crates/ast_pretty/src/lib.rs:274-284 | so for comments up to a line, which stop at one without a line |
| `PrettyPrinter.Printer.WriteCommentsBefore` | crates/ast_pretty/src/lib.rs:239-272 | takes from the queue exactly the leading comments not behind the node, if the node is on a new line and comments are written, and places them |
| `PrettyPrinter.Printer.WriteCommentsUntil` | crates/ast_pretty/src/lib.rs:274-312 | takes exactly the leading comments up to the line; removing the trailing newline cuts into none |
| `PrettyPrinter.Printer.PrintExpr` | crates/ast_pretty/src/node.rs:1045-1052 | for every expression without lambdas: the words placed in the output are those of the expression, in order; comments placed and queued are together the same sequence; every word and comment placed stands in the output without overlap; indentation and span stack are restored |
| `PrettyPrinter.Printer.PrintElement` | crates/ast_pretty/src/node.rs:490-500 | an element of a list, or of its conditional items: the comments not behind it stand first, if it is on a new line |
| `PrettyPrinter.Printer.PrintList` | crates/ast_pretty/src/node.rs:464-507 | the same conservation for lists; of a list on several lines no comment that has a line before its last one is left for later |
| `PrettyPrinter.Printer.PrintListIf` | crates/ast_pretty/src/node.rs:518-558 | conservation for conditional list items |
| `PrettyPrinter.Printer.PrintConfig` | crates/ast_pretty/src/node.rs:645-696 | the same as lists for configurations |
| `PrettyPrinter.Printer.PrintEntry` | crates/ast_pretty/src/node.rs:902-956 | conservation for entries; the comments not behind the key stand first, if it is on a new line |
| `PrettyPrinter.Printer.PrintConfigIf` | crates/ast_pretty/src/node.rs:583-617 | the same for conditional entries |
| `PrettyPrinter.Printer.PrintQuant` | crates/ast_pretty/src/node.rs:327-352 | the same for quantifiers, whose indentation depends on the last line printed |
| `PrettyPrinter.Printer.PrintStmt` | crates/ast_pretty/src/node.rs:1054-1060 | conservation for statements; if comments are written and the statement is on a new line, all comments at the front of the queue that are not behind it stand before every word of it |
| `PrettyPrinter.Printer.PrintItem` | crates/ast_pretty/src/node.rs:164-325 | the same for decorators, mixins and checks of schemas and rules |
| `PrettyPrinter.Printer.PrintStmts` | crates/ast_pretty/src/node.rs:1068-1096 | where each statement begins among the words and comments placed: behind the words of those before it, and with its comments first; no comment behind all lines of those before it stands earlier |
| `PrettyPrinter.Printer.PrintIf` | crates/ast_pretty/src/node.rs:115-150 | the same for `if`, `elif` and `else` |
| `PrettyPrinter.Printer.PrintSchema` | crates/ast_pretty/src/node.rs:164-271 | the same for schemas |
| `PrettyPrinter.Printer.PrintRule` | crates/ast_pretty/src/node.rs:273-325 | the same for rules |
| `PrettyPrinter.Printer.PrintModule` | crates/ast_pretty/src/lib.rs:207-213 | the output holds the words of the module in order and every comment of it exactly once and in order, without overlap; no comment is left in the queue, indentation and span stack are empty again; where each top-level statement begins |
| `PrettyPrinter.CommentStandsBetween` | crates/ast_pretty/src/node.rs:1054-1096 | a comment behind all lines of the top-level statements before one, and not behind that one, is printed after all words of the former and before all words of the latter |
| `PrettyWords.TextsAreTold` | crates/ast_pretty/src/node.rs:76-1060 | every name, literal, key, operator and documentation text of a module is among the words printed, in the order in which they stand in the tree |
| `PrettyPrinter.PrintAstModule` | crates/ast_pretty/src/lib.rs:350-360 | trimming trailing newlines to one keeps every word and comment in its place, if no comment is empty and no comment or word ends with a newline; words that print nothing are not among those placed |

## Left out

- The libyaml scanner and emitter, UTF-8 and borrowed strings, error marks and paths.
- Printing and parsing of finite floats beyond the assumption that they agree.
- The typed `deserialize_*` methods, struct and enum variants of the serializer, and `with.rs`.
- `partial_cmp` of mappings beyond its comparison and its sorting; `Number` comparisons other than `total_cmp`.
- Several modules in one package, imports, schema bodies, lambdas, assertions and expression statements in the evaluator.
- Expression forms other than names, literals, strict binary operators and conditional expressions in the evaluator.
- Targets with paths (`a.b = 1`), type casts at assignment, runtime errors and panics in the evaluator.
- KclOrder.Evaluate: the values are stated for straight-line bodies with one target to a statement, without cycles; bodies with `if`s or several targets are covered where every name is stored before it is read (`LazyIsPlain`), and else by termination, levels, replay and reads at rest, as are cycles.
- KclOrder.SomeOrderIsWrong: needs a read outside conditional expressions and a first setter whose value differs; without these an order can be right by coincidence.
- KclReplay.ReplayIsPartial: needs tests that run no setter, since the current statement is not restored after a nested walk.
- KclCourse.LookupFinds: needs every test and value of the replay to be at hand; a replay whose reads run setters of their own is covered by termination, levels, the walk and, in straight-line bodies, its value.
- KclEvaluator.Evaluator.WalkIf: the value of a test that runs setters which store something is not stated outside straight-line bodies.
- PackageCache.AnswerIff: needs info keys that belong to one package each; `Serve` does not, but neither says anything of overlapping calls: the digest is written before the data.
- CacheProtocol.NoLostUpdate: is about the writers of the info file alone; a save of the package `info` at the same time replaces that file.
- Environment variables, cache directories and targets in the package cache, and its lock files, which share their names with the data files of packages such as `x.lock`.
- Lambda expressions and the look-ahead buffer of the printer: measuring a signature writes into a buffer that is thrown away, comments included.
- PrettyPrinter.Printer.PrintStmts: where a statement begins is related to comments only for statements on a line of their own, behind all lines before; others share a line with what precedes them.
- Printer hooks, and what separators, line breaks and indentation the printed text has between words and comments.
- The parser, the type checker, the runtime library, the language server, the command line and the C interface.
