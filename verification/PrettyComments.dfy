/**
 Printed text (crates/ast_pretty): the syntax tree as the printer sees it, the words it is
 made of, and where in the output each word and each comment stands.

 A node is what it prints: words and sub-expressions in order, with the layouts that write
 comments or indentation (lists, configurations, `if`s, schemas and rules) kept apart.
 */
module PrettyComments {
  import opened Wrappers

  datatype Comment = Comment(line: nat, text: string)

  /** Words and sub-expressions, printed one after the other; `Bare` is walked without a span of its own. */
  datatype Part = Word(text: string) | Sub(expr: Expr) | Bare(inner: ExprNode)

  /** An expression with its first and last line. */
  datatype Expr = Expr(line: nat, endLine: nat, node: ExprNode)

  datatype ExprNode =
    | Inline(parts: seq<Part>)
    | SchemaInstance(parts: seq<Part>)
    | List(elts: seq<Expr>)
    | ListIf(listTest: Expr, listItems: seq<Expr>, listElse: ListElse)
    | Config(entries: seq<Entry>)
    | ConfigIf(configTest: Expr, configItems: seq<Entry>, configElse: ConfigElse)
    | Quant(head: seq<Part>, test: Expr, cond: Option<Expr>)

  datatype ListElse = NoListElse | ListElseItems(elseItems: seq<Expr>) | ListElif(elif: Expr)

  datatype ConfigElse = NoConfigElse | ConfigElseItems(elseEntries: seq<Entry>) | ConfigElif(elifEntry: Expr)

  /** A configuration entry; a key that is not an identifier is printed as quoted text. */
  datatype Entry =
    | Keyed(line: nat, key: Expr, quoted: Option<string>, op: string, val: Expr, closing: string)
    | Unkeyed(line: nat, val: Expr)

  /** Something with a line of its own that prints parts: a decorator, a mixin name, a check. */
  datatype Item = Item(line: nat, parts: seq<Part>)

  datatype Stmt = Stmt(line: nat, endLine: nat, node: StmtNode)

  datatype StmtNode =
    | Simple(parts: seq<Part>, isImport: bool)
    | If(cond: Expr, body: seq<Stmt>, orelse: seq<Stmt>)
    | Schema(decorators: seq<Item>, head: seq<Part>, doc: Option<string>, mixins: seq<Item>, index: Option<Item>,
             attrs: seq<Stmt>, checks: seq<Item>)
    | SchemaAttr(attrDecorators: seq<Item>, attr: seq<Part>)
    | Rule(ruleDecorators: seq<seq<Part>>, ruleHead: seq<Part>, ruleDoc: Option<string>, ruleChecks: seq<Item>)

  datatype Module = Module(doc: Option<string>, body: seq<Stmt>, comments: seq<Comment>)

  // ---------------------------------------------------------------------------------
  // The words of a tree
  // ---------------------------------------------------------------------------------

  /** One word more, unless it is empty. */
  function Tell(acc: seq<string>, word: string): seq<string> {
    if word == "" then acc else acc + [word]
  }

  /** Everything an expression prints besides separators, line breaks and indentation, in order, after `acc`. */
  function TellExpr(acc: seq<string>, e: Expr): seq<string>
    decreases e, 1
  {
    TellNode(acc, e.node)
  }

  function TellNode(acc: seq<string>, node: ExprNode): seq<string>
    decreases node, 1
  {
    match node
    case Inline(parts) => TellParts(acc, parts)
    case SchemaInstance(parts) => TellParts(acc, parts)
    case List(elts) => TellExprs(acc + ["["], elts) + ["]"]
    case ListIf(test, items, orelse) => TellListElse(TellExprs(TellExpr(acc + ["if "], test) + [":"], items), orelse)
    case Config(entries) => TellEntries(acc + ["{"], entries) + ["}"]
    case ConfigIf(test, items, orelse) => TellConfigElse(TellEntries(TellExpr(acc + ["if "], test) + [":"], items), orelse)
    case Quant(head, test, cond) => TellCond(TellExpr(TellParts(acc, head) + [" {"], test), cond) + ["}"]
  }

  function TellCond(acc: seq<string>, cond: Option<Expr>): seq<string>
    decreases cond, 2
  {
    if cond.Some? then TellExpr(acc + [" if "], cond.value) else acc
  }

  function TellListElse(acc: seq<string>, orelse: ListElse): seq<string>
    decreases orelse, 2
  {
    match orelse
    case NoListElse => acc
    case ListElseItems(items) => TellExprs(acc + ["else:"], items)
    case ListElif(elif) => TellExpr(acc + ["el"], elif)
  }

  function TellConfigElse(acc: seq<string>, orelse: ConfigElse): seq<string>
    decreases orelse, 2
  {
    match orelse
    case NoConfigElse => acc
    case ConfigElseItems(items) => TellEntries(acc + ["else:"], items)
    case ConfigElif(elif) => TellExpr(acc + ["el"], elif)
  }

  function TellPart(acc: seq<string>, part: Part): seq<string>
    decreases part, 2
  {
    match part
    case Word(text) => Tell(acc, text)
    case Sub(expr) => TellExpr(acc, expr)
    case Bare(inner) => TellNode(acc, inner)
  }

  function TellParts(acc: seq<string>, parts: seq<Part>): seq<string>
    decreases parts, 0
  {
    if parts == [] then acc else TellPart(TellParts(acc, parts[..|parts| - 1]), parts[|parts| - 1])
  }

  function TellExprs(acc: seq<string>, es: seq<Expr>): seq<string>
    decreases es, 0
  {
    if es == [] then acc else TellExpr(TellExprs(acc, es[..|es| - 1]), es[|es| - 1])
  }

  function TellEntry(acc: seq<string>, entry: Entry): seq<string>
    decreases entry, 2
  {
    match entry
    case Keyed(_, key, quoted, op, val, closing) =>
      Tell(TellExpr(Tell(if quoted.Some? then Tell(acc, quoted.value) else TellExpr(acc, key), op), val), closing)
    case Unkeyed(_, val) => TellExpr(if val.node.ConfigIf? then acc else acc + ["**"], val)
  }

  function TellEntries(acc: seq<string>, entries: seq<Entry>): seq<string>
    decreases entries, 0
  {
    if entries == [] then acc else TellEntry(TellEntries(acc, entries[..|entries| - 1]), entries[|entries| - 1])
  }

  function TellDoc(acc: seq<string>, doc: Option<string>): seq<string> {
    if doc.Some? then Tell(acc, doc.value) else acc
  }

  function TellItems(acc: seq<string>, items: seq<Item>): seq<string> {
    if items == [] then acc else TellParts(TellItems(acc, items[..|items| - 1]), items[|items| - 1].parts)
  }

  function TellIndex(acc: seq<string>, index: Option<Item>): seq<string> {
    if index.Some? then TellParts(acc, index.value.parts) else acc
  }

  function TellMixins(acc: seq<string>, mixins: seq<Item>): seq<string> {
    if mixins == [] then acc else TellItems(acc + ["mixin ["], mixins) + ["]"]
  }

  function TellChecks(acc: seq<string>, checks: seq<Item>): seq<string> {
    if checks == [] then acc else TellItems(acc + ["check:"], checks)
  }

  function TellLists(acc: seq<string>, lists: seq<seq<Part>>): seq<string> {
    if lists == [] then acc else TellParts(TellLists(acc, lists[..|lists| - 1]), lists[|lists| - 1])
  }

  function TellStmt(acc: seq<string>, s: Stmt): seq<string>
    decreases s, 1
  {
    TellStmtNode(acc, s.node)
  }

  function TellStmtNode(acc: seq<string>, node: StmtNode): seq<string>
    decreases node, 1
  {
    match node
    case Simple(parts, _) => TellParts(acc, parts)
    case If(cond, body, orelse) =>
      var told := TellStmts(TellExpr(acc + ["if "], cond) + [":"], body);
      if orelse == [] then told
      else if |orelse| == 1 && orelse[0].node.If? then TellStmtNode(told + ["el"], orelse[0].node)
      else TellStmts(told + ["else:"], orelse)
    case Schema(decorators, head, doc, mixins, index, attrs, checks) =>
      TellChecks(TellStmts(TellIndex(TellMixins(TellDoc(TellParts(TellItems(acc, decorators), head), doc), mixins), index), attrs), checks)
    case SchemaAttr(decorators, attr) => TellParts(TellItems(acc, decorators), attr)
    case Rule(decorators, head, doc, checks) => TellItems(TellDoc(TellParts(TellLists(acc, decorators), head), doc), checks)
  }

  function TellStmts(acc: seq<string>, ss: seq<Stmt>): seq<string>
    decreases ss, 0
  {
    if ss == [] then acc else TellStmt(TellStmts(acc, ss[..|ss| - 1]), ss[|ss| - 1])
  }

  function TellModule(m: Module): seq<string> {
    TellStmts(TellDoc([], m.doc), m.body)
  }

  // ---------------------------------------------------------------------------------
  // The lines of a tree
  // ---------------------------------------------------------------------------------

  /** No line in the tree is behind `n`. */
  predicate ExprWithin(e: Expr, n: nat) {
    e.line <= n && e.endLine <= n && NodeWithin(e.node, n)
  }

  predicate NodeWithin(node: ExprNode, n: nat) {
    match node
    case Inline(parts) => PartsWithin(parts, n)
    case SchemaInstance(parts) => PartsWithin(parts, n)
    case List(elts) => ExprsWithin(elts, n)
    case ListIf(test, items, orelse) => ExprWithin(test, n) && ExprsWithin(items, n) && ListElseWithin(orelse, n)
    case Config(entries) => EntriesWithin(entries, n)
    case ConfigIf(test, items, orelse) => ExprWithin(test, n) && EntriesWithin(items, n) && ConfigElseWithin(orelse, n)
    case Quant(head, test, cond) => PartsWithin(head, n) && ExprWithin(test, n) && (cond.Some? ==> ExprWithin(cond.value, n))
  }

  predicate ListElseWithin(orelse: ListElse, n: nat) {
    match orelse
    case NoListElse => true
    case ListElseItems(items) => ExprsWithin(items, n)
    case ListElif(elif) => ExprWithin(elif, n)
  }

  predicate ConfigElseWithin(orelse: ConfigElse, n: nat) {
    match orelse
    case NoConfigElse => true
    case ConfigElseItems(items) => EntriesWithin(items, n)
    case ConfigElif(elif) => ExprWithin(elif, n)
  }

  predicate PartsWithin(parts: seq<Part>, n: nat) {
    forall i :: 0 <= i < |parts| ==> PartWithin(parts[i], n)
  }

  predicate PartWithin(part: Part, n: nat) {
    match part
    case Word(_) => true
    case Sub(expr) => ExprWithin(expr, n)
    case Bare(inner) => NodeWithin(inner, n)
  }

  predicate ExprsWithin(es: seq<Expr>, n: nat) {
    forall i :: 0 <= i < |es| ==> ExprWithin(es[i], n)
  }

  predicate EntriesWithin(entries: seq<Entry>, n: nat) {
    forall i :: 0 <= i < |entries| ==> EntryWithin(entries[i], n)
  }

  predicate EntryWithin(entry: Entry, n: nat) {
    match entry
    case Keyed(_, key, _, _, val, _) => ExprWithin(key, n) && ExprWithin(val, n)
    case Unkeyed(line, val) => line <= n && ExprWithin(val, n)
  }

  predicate ItemsWithin(items: seq<Item>, n: nat) {
    forall i :: 0 <= i < |items| ==> ItemWithin(items[i], n)
  }

  predicate ItemWithin(item: Item, n: nat) {
    item.line <= n && PartsWithin(item.parts, n)
  }

  predicate StmtsWithin(ss: seq<Stmt>, n: nat) {
    forall i :: 0 <= i < |ss| ==> StmtWithin(ss[i], n)
  }

  lemma {:induction false} StmtsWithinStep(ss: seq<Stmt>, i: nat, n: nat)
    requires i < |ss|
    ensures StmtsWithin(ss[..i + 1], n) <==> StmtsWithin(ss[..i], n) && StmtWithin(ss[i], n)
  {
    var front, more := ss[..i], ss[..i + 1];
    assert forall k :: 0 <= k < i ==> front[k] == more[k];
    assert more[i] == ss[i];
    if StmtsWithin(more, n) {
      forall k | 0 <= k < i ensures StmtWithin(front[k], n) { assert StmtWithin(more[k], n); }
    }
  }

  lemma {:induction false} EntryLineWithin(entry: Entry, n: nat)
    requires EntryWithin(entry, n)
    ensures (if entry.Keyed? then entry.key.line else entry.line) <= n
  {
    if entry.Keyed? { assert ExprWithin(entry.key, n); }
  }

  predicate StmtWithin(s: Stmt, n: nat) {
    s.line <= n && StmtNodeWithin(s.node, n)
  }

  predicate StmtNodeWithin(node: StmtNode, n: nat) {
    match node
    case Simple(parts, _) => PartsWithin(parts, n)
    case If(cond, body, orelse) => ExprWithin(cond, n) && StmtsWithin(body, n) && StmtsWithin(orelse, n)
    case Schema(decorators, head, _, mixins, index, attrs, checks) =>
      && ItemsWithin(decorators, n) && PartsWithin(head, n) && ItemsWithin(mixins, n)
      && (index.Some? ==> ItemWithin(index.value, n)) && StmtsWithin(attrs, n) && ItemsWithin(checks, n)
    case SchemaAttr(decorators, attr) => ItemsWithin(decorators, n) && PartsWithin(attr, n)
    case Rule(decorators, head, _, checks) =>
      ListsWithin(decorators, n) && PartsWithin(head, n) && ItemsWithin(checks, n)
  }

  predicate ListsWithin(lists: seq<seq<Part>>, n: nat) {
    forall i :: 0 <= i < |lists| ==> PartsWithin(lists[i], n)
  }

  // ---------------------------------------------------------------------------------
  // Words and comments in the output
  // ---------------------------------------------------------------------------------

  datatype Piece = Say(word: string) | Note(comment: Comment)

  function Text(p: Piece): string {
    match p
    case Say(word) => word
    case Note(comment) => comment.text
  }

  /** A word or comment, and the place of its text in the output. */
  datatype Mark = Mark(at: nat, piece: Piece)

  function MarkEnd(m: Mark): nat { m.at + |Text(m.piece)| }

  function End(marks: seq<Mark>): nat {
    if marks == [] then 0 else MarkEnd(marks[|marks| - 1])
  }

  /** Each text stands at its place, and the places follow each other without overlap. */
  predicate Placed(out: string, marks: seq<Mark>) {
    marks != [] ==>
      var front, last := marks[..|marks| - 1], marks[|marks| - 1];
      && Placed(out, front) && End(front) <= last.at
      && MarkEnd(last) <= |out| && out[last.at..MarkEnd(last)] == Text(last.piece)
  }

  /** The comments among the marks, and the words. */
  function Marked(marks: seq<Mark>): seq<Comment> {
    if marks == [] then []
    else
      var front, last := Marked(marks[..|marks| - 1]), marks[|marks| - 1].piece;
      if last.Note? then front + [last.comment] else front
  }

  function Said(marks: seq<Mark>): seq<string> {
    if marks == [] then []
    else
      var front, last := Said(marks[..|marks| - 1]), marks[|marks| - 1].piece;
      if last.Say? then front + [last.word] else front
  }

  lemma {:induction false} PlacedAppend(out: string, text: string, marks: seq<Mark>)
    requires Placed(out, marks)
    ensures Placed(out + text, marks) && End(marks) <= |out|
  {
    if marks != [] {
      var last := marks[|marks| - 1];
      PlacedAppend(out, text, marks[..|marks| - 1]);
      assert (out + text)[last.at..MarkEnd(last)] == out[last.at..MarkEnd(last)];
    }
  }

  /** Cutting off the end of the output leaves what is placed before. */
  lemma {:induction false} PlacedPrefix(out: string, marks: seq<Mark>, n: nat)
    requires Placed(out, marks) && End(marks) <= n <= |out|
    ensures Placed(out[..n], marks)
  {
    if marks != [] {
      var front, last := marks[..|marks| - 1], marks[|marks| - 1];
      PlacedPrefix(out, front, n);
      assert out[..n][last.at..MarkEnd(last)] == out[last.at..MarkEnd(last)];
    }
  }

  /** A word or comment just written is placed. */
  lemma {:induction false} PlacedMark(out: string, piece: Piece, marks: seq<Mark>)
    requires Placed(out, marks)
    ensures var mark := Mark(|out|, piece);
            && Placed(out + Text(piece), marks + [mark]) && End(marks + [mark]) == |out + Text(piece)|
            && Marked(marks + [mark]) == (if piece.Note? then Marked(marks) + [piece.comment] else Marked(marks))
            && Said(marks + [mark]) == (if piece.Say? then Said(marks) + [piece.word] else Said(marks))
  {
    var mark := Mark(|out|, piece);
    assert (marks + [mark])[..|marks|] == marks;
    PlacedAppend(out, Text(piece), marks);
    assert (out + Text(piece))[|out|..] == Text(piece);
  }

  /** What a printer has done: words and comments are placed, the comments placed and those queued are all there are. */
  ghost predicate Consistent(out: string, marks: seq<Mark>, queue: seq<Comment>, all: seq<Comment>, said: seq<string>) {
    Placed(out, marks) && Marked(marks) + queue == all && Said(marks) == said && NoneEmpty(said)
  }

  predicate NoneEmpty(said: seq<string>) {
    forall i :: 0 <= i < |said| ==> said[i] != ""
  }

  lemma {:induction false} ConsistentText(out: string, marks: seq<Mark>, queue: seq<Comment>, all: seq<Comment>, said: seq<string>, text: string)
    requires Consistent(out, marks, queue, all, said)
    ensures Consistent(out + text, marks, queue, all, said)
  {
    PlacedAppend(out, text, marks);
  }

  lemma {:induction false} ConsistentWord(out: string, marks: seq<Mark>, queue: seq<Comment>, all: seq<Comment>, said: seq<string>, word: string)
    requires Consistent(out, marks, queue, all, said) && word != ""
    ensures Consistent(out + word, marks + [Mark(|out|, Say(word))], queue, all, said + [word])
  {
    PlacedMark(out, Say(word), marks);
  }

  lemma {:induction false} Handed(front: seq<Comment>, queue: seq<Comment>)
    requires queue != []
    ensures (front + [queue[0]]) + queue[1..] == front + queue
  {
    assert [queue[0]] + queue[1..] == queue;
  }

  /** A comment that goes from the queue to the output keeps its place in the order. */
  lemma {:induction false} ConsistentNote(out: string, marks: seq<Mark>, queue: seq<Comment>, all: seq<Comment>, said: seq<string>)
    requires Consistent(out, marks, queue, all, said) && queue != []
    ensures Consistent(out + queue[0].text, marks + [Mark(|out|, Note(queue[0]))], queue[1..], all, said)
    ensures End(marks + [Mark(|out|, Note(queue[0]))]) == |out + queue[0].text|
  {
    PlacedMark(out, Note(queue[0]), marks);
    Handed(Marked(marks), queue);
  }

  lemma {:induction false} ConsistentTrim(out: string, marks: seq<Mark>, queue: seq<Comment>, all: seq<Comment>, said: seq<string>)
    requires Consistent(out, marks, queue, all, said) && End(marks) < |out|
    ensures Consistent(out[..|out| - 1], marks, queue, all, said)
  {
    PlacedPrefix(out, marks, |out| - 1);
  }

  function Max(a: nat, b: nat): nat { if a < b then b else a }

  /** No comment placed is behind `n`. */
  predicate NotesWithin(marks: seq<Mark>, n: nat) {
    marks != [] ==>
      var last := marks[|marks| - 1].piece;
      NotesWithin(marks[..|marks| - 1], n) && (last.Note? ==> last.comment.line <= n)
  }

  lemma {:induction false} NotesWithinMore(marks: seq<Mark>, mark: Mark, n: nat, m: nat)
    requires NotesWithin(marks, n) && n <= m && (mark.piece.Note? ==> mark.piece.comment.line <= m)
    ensures NotesWithin(marks + [mark], m)
  {
    assert (marks + [mark])[..|marks|] == marks;
    NotesWithinWider(marks, n, m);
  }

  lemma {:induction false} NoteStays(anchor: seq<Mark>, marks: seq<Mark>, mark: Mark, n: nat)
    requires anchor <= marks && NotesWithin(marks, n) && mark.piece.Note?
    ensures anchor <= marks + [mark] && NotesWithin(marks + [mark], Max(n, mark.piece.comment.line))
    ensures OneNote(marks, mark.piece.comment, marks + [mark])
  {
    NotesWithinMore(marks, mark, n, Max(n, mark.piece.comment.line));
  }

  lemma {:induction false} NotesWithinWider(marks: seq<Mark>, n: nat, m: nat)
    requires NotesWithin(marks, n) && n <= m
    ensures NotesWithin(marks, m)
  {
    if marks != [] { NotesWithinWider(marks[..|marks| - 1], n, m); }
  }

  /** None of these lines is behind `n`. */
  predicate AllWithin(lines: seq<nat>, n: nat) {
    lines != [] ==> AllWithin(lines[..|lines| - 1], n) && lines[|lines| - 1] <= n
  }

  /** The first comments of a queue, up to one that is behind `line`. */
  predicate AllUpTo(queue: seq<Comment>, i: nat, line: nat)
    requires i < |queue|
  {
    forall j :: 0 <= j <= i ==> queue[j].line <= line
  }

  /** These comments stand right behind `before`, ahead of everything else. */
  predicate Heads(before: seq<Mark>, queue: seq<Comment>, line: nat, after: seq<Mark>) {
    before <= after
    && forall i :: 0 <= i < |queue| && AllUpTo(queue, i, line) ==> |before| + i < |after| && after[|before| + i].piece == Note(queue[i])
  }

  /** Just these comments stand behind `before`. */
  predicate Noted(before: seq<Mark>, taken: seq<Comment>, after: seq<Mark>) {
    && before <= after && |after| == |before| + |taken|
    && forall k :: |before| <= k < |after| ==> after[k].piece == Note(taken[k - |before|])
  }

  predicate OneNote(before: seq<Mark>, comment: Comment, after: seq<Mark>) {
    before <= after && |after| == |before| + 1 && after[|before|].piece == Note(comment)
  }

  lemma {:induction false} NotedMore(before: seq<Mark>, queue: seq<Comment>, k: nat, between: seq<Mark>, after: seq<Mark>)
    requires k < |queue| && Noted(before, queue[..k], between) && OneNote(between, queue[k], after)
    ensures Noted(before, queue[..k + 1], after)
  {
    forall i | |before| <= i < |after| ensures after[i].piece == Note(queue[..k + 1][i - |before|]) {
      if i < |between| { assert after[i] == between[i] && between[i].piece == Note(queue[..k][i - |before|]); }
    }
  }

  lemma {:induction false} NotedIsHeads(before: seq<Mark>, queue: seq<Comment>, line: nat, after: seq<Mark>)
    requires Noted(before, queue[..Leading(queue, line)], after)
    ensures Heads(before, queue, line, after)
  {
    forall i | 0 <= i < |queue| && AllUpTo(queue, i, line)
      ensures |before| + i < |after| && after[|before| + i].piece == Note(queue[i])
    {
      LeadingIsAllUpTo(queue, line, i);
      assert queue[..Leading(queue, line)][i] == queue[i];
    }
  }

  /** Comments placed one after the other say nothing. */
  lemma {:induction false} NotesSayNothing(marks: seq<Mark>, i: nat, j: nat)
    requires i <= j <= |marks| && forall k :: i <= k < j ==> marks[k].piece.Note?
    ensures Said(marks[..j]) == Said(marks[..i])
    decreases j
  {
    if i < j {
      assert marks[..j][..j - 1] == marks[..j - 1];
      NotesSayNothing(marks, i, j - 1);
    }
  }

  lemma {:induction false} MarkedWithin(marks: seq<Mark>, n: nat, i: nat)
    requires NotesWithin(marks, n) && i < |Marked(marks)|
    ensures Marked(marks)[i].line <= n
  {
    var front := marks[..|marks| - 1];
    if i < |Marked(front)| { MarkedWithin(front, n, i); } else { assert marks[|marks| - 1].piece.Note?; }
  }

  lemma {:induction false} MarkedPrefix(marks: seq<Mark>, k: nat)
    requires k <= |marks|
    ensures Marked(marks[..k]) <= Marked(marks)
    decreases |marks| - k
  {
    if k < |marks| {
      assert marks[..k + 1][..k] == marks[..k];
      MarkedPrefix(marks, k + 1);
    } else {
      assert marks[..k] == marks;
    }
  }

  /** What was there, and the comments placed first, are there after more was placed. */
  lemma {:induction false} Behind(outer: seq<Mark>, before: seq<Mark>, queue: seq<Comment>, line: nat, there: seq<Mark>, after: seq<Mark>)
    requires outer <= there <= after && before <= there
    ensures outer <= after && before <= after && (Heads(before, queue, line, there) ==> Heads(before, queue, line, after))
  {
  }

  /** Every mark is one of the comments or one of the words. */
  lemma {:induction false} MarkIsOne(marks: seq<Mark>, i: nat)
    requires i < |marks|
    ensures marks[i].piece.Note? ==> marks[i].piece.comment in Marked(marks)
    ensures marks[i].piece.Say? ==> marks[i].piece.word in Said(marks)
  {
    if i < |marks| - 1 { MarkIsOne(marks[..|marks| - 1], i); }
  }

  // ---------------------------------------------------------------------------------
  // How many comments a node takes
  // ---------------------------------------------------------------------------------

  /** The comments at the front of the queue that are not behind `line`. */
  function Leading(comments: seq<Comment>, line: nat): (n: nat)
    ensures n <= |comments|
  {
    if comments != [] && comments[0].line <= line then 1 + Leading(comments[1..], line) else 0
  }

  lemma {:induction false} LeadingBound(comments: seq<Comment>, line: nat)
    ensures forall i :: 0 <= i < Leading(comments, line) ==> comments[i].line <= line
    ensures Leading(comments, line) < |comments| ==> comments[Leading(comments, line)].line > line
  {
    if comments != [] && comments[0].line <= line { LeadingBound(comments[1..], line); }
  }

  lemma {:induction false} LeadingIsAllUpTo(comments: seq<Comment>, line: nat, i: nat)
    requires i < |comments|
    ensures AllUpTo(comments, i, line) <==> i < Leading(comments, line)
  {
    LeadingBound(comments, line);
  }

  /** The same without comments that have no line. */
  function LeadingPlaced(comments: seq<Comment>, line: nat): (n: nat)
    ensures n <= |comments|
  {
    if comments != [] && 0 < comments[0].line <= line then 1 + LeadingPlaced(comments[1..], line) else 0
  }

  lemma {:induction false} LeadingPlacedBound(comments: seq<Comment>, line: nat)
    ensures forall i :: 0 <= i < LeadingPlaced(comments, line) ==> 0 < comments[i].line <= line
    ensures var n := LeadingPlaced(comments, line); n < |comments| ==> comments[n].line == 0 || comments[n].line > line
  {
    if comments != [] && 0 < comments[0].line <= line { LeadingPlacedBound(comments[1..], line); }
  }
}
