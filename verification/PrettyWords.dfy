/**
 The texts of a tree (crates/ast_pretty/src/node.rs): names, literals, keys, operators and
 documentation, listed part by part. Whatever keywords and brackets the printer puts between
 them, it prints all of them, in the order in which they stand in the tree.
 */
module PrettyWords {
  import opened Wrappers
  import opened PrettyComments

  // ---------------------------------------------------------------------------------
  // The texts of a tree, one after the other
  // ---------------------------------------------------------------------------------

  function One(text: string): seq<string> {
    if text == "" then [] else [text]
  }

  function OfOption(text: Option<string>): seq<string> {
    if text.Some? then One(text.value) else []
  }

  function OfExpr(e: Expr): seq<string>
    decreases e, 1
  {
    OfNode(e.node)
  }

  function OfNode(node: ExprNode): seq<string>
    decreases node, 0
  {
    match node
    case Inline(parts) => OfParts(parts)
    case SchemaInstance(parts) => OfParts(parts)
    case List(elts) => OfExprs(elts)
    case ListIf(test, items, orelse) => OfExpr(test) + OfExprs(items) + OfListElse(orelse)
    case Config(entries) => OfEntries(entries)
    case ConfigIf(test, items, orelse) => OfExpr(test) + OfEntries(items) + OfConfigElse(orelse)
    case Quant(head, test, cond) => OfParts(head) + OfExpr(test) + (if cond.Some? then OfExpr(cond.value) else [])
  }

  function OfListElse(orelse: ListElse): seq<string>
    decreases orelse, 0
  {
    match orelse
    case NoListElse => []
    case ListElseItems(items) => OfExprs(items)
    case ListElif(elif) => OfExpr(elif)
  }

  function OfConfigElse(orelse: ConfigElse): seq<string>
    decreases orelse, 0
  {
    match orelse
    case NoConfigElse => []
    case ConfigElseItems(items) => OfEntries(items)
    case ConfigElif(elif) => OfExpr(elif)
  }

  function OfPart(part: Part): seq<string>
    decreases part, 0
  {
    match part
    case Word(text) => One(text)
    case Sub(expr) => OfExpr(expr)
    case Bare(inner) => OfNode(inner)
  }

  function OfParts(parts: seq<Part>): seq<string>
    decreases parts, 0
  {
    if parts == [] then [] else OfParts(parts[..|parts| - 1]) + OfPart(parts[|parts| - 1])
  }

  function OfExprs(es: seq<Expr>): seq<string>
    decreases es, 0
  {
    if es == [] then [] else OfExprs(es[..|es| - 1]) + OfExpr(es[|es| - 1])
  }

  function OfEntry(entry: Entry): seq<string>
    decreases entry, 0
  {
    match entry
    case Keyed(_, key, quoted, op, val, closing) =>
      (if quoted.Some? then One(quoted.value) else OfExpr(key)) + One(op) + OfExpr(val) + One(closing)
    case Unkeyed(_, val) => OfExpr(val)
  }

  function OfEntries(entries: seq<Entry>): seq<string>
    decreases entries, 0
  {
    if entries == [] then [] else OfEntries(entries[..|entries| - 1]) + OfEntry(entries[|entries| - 1])
  }

  function OfItems(items: seq<Item>): seq<string> {
    if items == [] then [] else OfItems(items[..|items| - 1]) + OfParts(items[|items| - 1].parts)
  }

  function OfLists(lists: seq<seq<Part>>): seq<string> {
    if lists == [] then [] else OfLists(lists[..|lists| - 1]) + OfParts(lists[|lists| - 1])
  }

  function OfStmt(s: Stmt): seq<string>
    decreases s, 1
  {
    OfStmtNode(s.node)
  }

  function OfStmtNode(node: StmtNode): seq<string>
    decreases node, 0
  {
    match node
    case Simple(parts, _) => OfParts(parts)
    case If(cond, body, orelse) => OfExpr(cond) + OfStmts(body) + OfStmts(orelse)
    case Schema(decorators, head, doc, mixins, index, attrs, checks) =>
      OfItems(decorators) + OfParts(head) + OfOption(doc) + OfItems(mixins)
      + (if index.Some? then OfParts(index.value.parts) else []) + OfStmts(attrs) + OfItems(checks)
    case SchemaAttr(decorators, attr) => OfItems(decorators) + OfParts(attr)
    case Rule(decorators, head, doc, checks) => OfLists(decorators) + OfParts(head) + OfOption(doc) + OfItems(checks)
  }

  function OfStmts(ss: seq<Stmt>): seq<string>
    decreases ss, 0
  {
    if ss == [] then [] else OfStmts(ss[..|ss| - 1]) + OfStmt(ss[|ss| - 1])
  }

  // ---------------------------------------------------------------------------------
  // Among other words, in order
  // ---------------------------------------------------------------------------------

  /** `a` is what is left of `b` when some words are taken out. */
  predicate Within(a: seq<string>, b: seq<string>) {
    a == [] || (b != [] && (Within(a, b[..|b| - 1])
                            || (a[|a| - 1] == b[|b| - 1] && Within(a[..|a| - 1], b[..|b| - 1]))))
  }

  lemma {:induction false} OneMore(a: seq<string>, b: seq<string>, w: string)
    requires Within(a, b)
    ensures Within(a, b + [w]) && Within(a + [w], b + [w])
  {
    assert (b + [w])[..|b|] == b && (a + [w])[..|a|] == a;
  }

  lemma {:induction false} TextTold(a: seq<string>, acc: seq<string>, text: string)
    requires Within(a, acc)
    ensures Within(a + One(text), Tell(acc, text))
  {
    OneMore(a, acc, text);
    assert a + [] == a;
  }

  lemma {:induction false} Two(pre: seq<string>, a: seq<string>, b: seq<string>)
    ensures pre + (a + b) == pre + a + b
  {
  }

  lemma {:induction false} Three(pre: seq<string>, a: seq<string>, b: seq<string>, c: seq<string>)
    ensures pre + (a + b + c) == pre + a + b + c
  {
  }

  lemma {:induction false} Nothing(pre: seq<string>)
    ensures pre + [] == pre
  {
  }

  // ---------------------------------------------------------------------------------
  // All texts are printed, in order
  // ---------------------------------------------------------------------------------

  lemma {:induction false} ExprTold(pre: seq<string>, acc: seq<string>, e: Expr)
    requires Within(pre, acc)
    ensures Within(pre + OfExpr(e), TellExpr(acc, e))
    decreases e, 1
  {
    NodeTold(pre, acc, e.node);
  }

  lemma {:induction false} NodeTold(pre: seq<string>, acc: seq<string>, node: ExprNode)
    requires Within(pre, acc)
    ensures Within(pre + OfNode(node), TellNode(acc, node))
    decreases node, 1
  {
    match node {
      case Inline(parts) => PartsTold(pre, acc, parts);
      case SchemaInstance(parts) => PartsTold(pre, acc, parts);
      case List(elts) =>
        OneMore(pre, acc, "[");
        ExprsTold(pre, acc + ["["], elts);
        OneMore(pre + OfExprs(elts), TellExprs(acc + ["["], elts), "]");
      case Config(entries) =>
        OneMore(pre, acc, "{");
        EntriesTold(pre, acc + ["{"], entries);
        OneMore(pre + OfEntries(entries), TellEntries(acc + ["{"], entries), "}");
      case ListIf(test, items, orelse) =>
        var acc1 := TestTold(pre, acc, test);
        var pre1 := pre + OfExpr(test);
        ExprsTold(pre1, acc1, items);
        ListElseTold(pre1 + OfExprs(items), TellExprs(acc1, items), orelse);
        Three(pre, OfExpr(test), OfExprs(items), OfListElse(orelse));
      case ConfigIf(test, items, orelse) =>
        var acc1 := TestTold(pre, acc, test);
        var pre1 := pre + OfExpr(test);
        EntriesTold(pre1, acc1, items);
        ConfigElseTold(pre1 + OfEntries(items), TellEntries(acc1, items), orelse);
        Three(pre, OfExpr(test), OfEntries(items), OfConfigElse(orelse));
      case Quant(_, _, _) => QuantTold(pre, acc, node);
    }
  }

  /** `if`, the test and a colon. */
  lemma {:induction false} TestTold(pre: seq<string>, acc: seq<string>, test: Expr) returns (after: seq<string>)
    requires Within(pre, acc)
    ensures after == TellExpr(acc + ["if "], test) + [":"] && Within(pre + OfExpr(test), after)
    decreases test, 2
  {
    OneMore(pre, acc, "if ");
    ExprTold(pre, acc + ["if "], test);
    after := TellExpr(acc + ["if "], test) + [":"];
    OneMore(pre + OfExpr(test), TellExpr(acc + ["if "], test), ":");
  }

  lemma {:induction false} QuantTold(pre: seq<string>, acc: seq<string>, node: ExprNode)
    requires Within(pre, acc) && node.Quant?
    ensures Within(pre + OfNode(node), TellNode(acc, node))
    decreases node, 0
  {
    var head, test, cond := node.head, node.test, node.cond;
    PartsTold(pre, acc, head);
    var pre1, acc1 := pre + OfParts(head), TellParts(acc, head);
    OneMore(pre1, acc1, " {");
    ExprTold(pre1, acc1 + [" {"], test);
    var pre2, acc2 := pre1 + OfExpr(test), TellExpr(acc1 + [" {"], test);
    var last := if cond.Some? then OfExpr(cond.value) else [];
    if cond.Some? {
      OneMore(pre2, acc2, " if ");
      ExprTold(pre2, acc2 + [" if "], cond.value);
    } else {
      Nothing(pre2);
    }
    OneMore(pre2 + last, TellCond(acc2, cond), "}");
    Three(pre, OfParts(head), OfExpr(test), last);
  }

  lemma {:induction false} ListElseTold(pre: seq<string>, acc: seq<string>, orelse: ListElse)
    requires Within(pre, acc)
    ensures Within(pre + OfListElse(orelse), TellListElse(acc, orelse))
    decreases orelse, 2
  {
    match orelse {
      case NoListElse => Nothing(pre);
      case ListElseItems(items) =>
        OneMore(pre, acc, "else:");
        ExprsTold(pre, acc + ["else:"], items);
      case ListElif(elif) =>
        OneMore(pre, acc, "el");
        ExprTold(pre, acc + ["el"], elif);
    }
  }

  lemma {:induction false} ConfigElseTold(pre: seq<string>, acc: seq<string>, orelse: ConfigElse)
    requires Within(pre, acc)
    ensures Within(pre + OfConfigElse(orelse), TellConfigElse(acc, orelse))
    decreases orelse, 2
  {
    match orelse {
      case NoConfigElse => Nothing(pre);
      case ConfigElseItems(items) =>
        OneMore(pre, acc, "else:");
        EntriesTold(pre, acc + ["else:"], items);
      case ConfigElif(elif) =>
        OneMore(pre, acc, "el");
        ExprTold(pre, acc + ["el"], elif);
    }
  }

  lemma {:induction false} PartTold(pre: seq<string>, acc: seq<string>, part: Part)
    requires Within(pre, acc)
    ensures Within(pre + OfPart(part), TellPart(acc, part))
    decreases part, 2
  {
    match part {
      case Word(text) => TextTold(pre, acc, text);
      case Sub(expr) => ExprTold(pre, acc, expr);
      case Bare(inner) => NodeTold(pre, acc, inner);
    }
  }

  lemma {:induction false} PartsTold(pre: seq<string>, acc: seq<string>, parts: seq<Part>)
    requires Within(pre, acc)
    ensures Within(pre + OfParts(parts), TellParts(acc, parts))
    decreases parts, 0
  {
    if parts == [] {
      Nothing(pre);
    } else {
      var front, last := parts[..|parts| - 1], parts[|parts| - 1];
      PartsTold(pre, acc, front);
      PartTold(pre + OfParts(front), TellParts(acc, front), last);
      Two(pre, OfParts(front), OfPart(last));
    }
  }

  lemma {:induction false} ExprsTold(pre: seq<string>, acc: seq<string>, es: seq<Expr>)
    requires Within(pre, acc)
    ensures Within(pre + OfExprs(es), TellExprs(acc, es))
    decreases es, 0
  {
    if es == [] {
      Nothing(pre);
    } else {
      var front, last := es[..|es| - 1], es[|es| - 1];
      ExprsTold(pre, acc, front);
      ExprTold(pre + OfExprs(front), TellExprs(acc, front), last);
      Two(pre, OfExprs(front), OfExpr(last));
    }
  }

  lemma {:induction false} EntryTold(pre: seq<string>, acc: seq<string>, entry: Entry)
    requires Within(pre, acc)
    ensures Within(pre + OfEntry(entry), TellEntry(acc, entry))
    decreases entry, 2
  {
    match entry {
      case Keyed(_, key, quoted, op, val, closing) =>
        var name := if quoted.Some? then One(quoted.value) else OfExpr(key);
        var acc1 := if quoted.Some? then Tell(acc, quoted.value) else TellExpr(acc, key);
        if quoted.Some? { TextTold(pre, acc, quoted.value); } else { ExprTold(pre, acc, key); }
        TextTold(pre + name, acc1, op);
        ExprTold(pre + name + One(op), Tell(acc1, op), val);
        TextTold(pre + name + One(op) + OfExpr(val), TellExpr(Tell(acc1, op), val), closing);
        Three(pre, name, One(op), OfExpr(val));
        Two(pre, name + One(op) + OfExpr(val), One(closing));
      case Unkeyed(_, val) =>
        OneMore(pre, acc, "**");
        ExprTold(pre, if val.node.ConfigIf? then acc else acc + ["**"], val);
    }
  }

  lemma {:induction false} EntriesTold(pre: seq<string>, acc: seq<string>, entries: seq<Entry>)
    requires Within(pre, acc)
    ensures Within(pre + OfEntries(entries), TellEntries(acc, entries))
    decreases entries, 0
  {
    if entries == [] {
      Nothing(pre);
    } else {
      var front, last := entries[..|entries| - 1], entries[|entries| - 1];
      EntriesTold(pre, acc, front);
      EntryTold(pre + OfEntries(front), TellEntries(acc, front), last);
      Two(pre, OfEntries(front), OfEntry(last));
    }
  }

  lemma {:induction false} ItemsTold(pre: seq<string>, acc: seq<string>, items: seq<Item>)
    requires Within(pre, acc)
    ensures Within(pre + OfItems(items), TellItems(acc, items))
  {
    if items == [] {
      Nothing(pre);
    } else {
      var front, last := items[..|items| - 1], items[|items| - 1].parts;
      ItemsTold(pre, acc, front);
      PartsTold(pre + OfItems(front), TellItems(acc, front), last);
      Two(pre, OfItems(front), OfParts(last));
    }
  }

  lemma {:induction false} ListsTold(pre: seq<string>, acc: seq<string>, lists: seq<seq<Part>>)
    requires Within(pre, acc)
    ensures Within(pre + OfLists(lists), TellLists(acc, lists))
  {
    if lists == [] {
      Nothing(pre);
    } else {
      var front, last := lists[..|lists| - 1], lists[|lists| - 1];
      ListsTold(pre, acc, front);
      PartsTold(pre + OfLists(front), TellLists(acc, front), last);
      Two(pre, OfLists(front), OfParts(last));
    }
  }

  lemma {:induction false} DocTold(pre: seq<string>, acc: seq<string>, doc: Option<string>)
    requires Within(pre, acc)
    ensures Within(pre + OfOption(doc), TellDoc(acc, doc))
  {
    if doc.Some? { TextTold(pre, acc, doc.value); } else { Nothing(pre); }
  }

  lemma {:induction false} StmtNodeTold(pre: seq<string>, acc: seq<string>, node: StmtNode)
    requires Within(pre, acc)
    ensures Within(pre + OfStmtNode(node), TellStmtNode(acc, node))
    decreases node, 1
  {
    match node {
      case Simple(parts, _) => PartsTold(pre, acc, parts);
      case If(cond, body, orelse) =>
        var acc1 := TestTold(pre, acc, cond);
        StmtsTold(pre + OfExpr(cond), acc1, body);
        ElseTold(pre + OfExpr(cond) + OfStmts(body), TellStmts(acc1, body), node);
        Three(pre, OfExpr(cond), OfStmts(body), OfStmts(orelse));
      case Schema(_, _, _, _, _, _, _) => SchemaTold(pre, acc, node);
      case SchemaAttr(decorators, attr) =>
        ItemsTold(pre, acc, decorators);
        PartsTold(pre + OfItems(decorators), TellItems(acc, decorators), attr);
        Two(pre, OfItems(decorators), OfParts(attr));
      case Rule(decorators, head, doc, checks) =>
        ListsTold(pre, acc, decorators);
        var acc1 := TellLists(acc, decorators);
        PartsTold(pre + OfLists(decorators), acc1, head);
        DocTold(pre + OfLists(decorators) + OfParts(head), TellParts(acc1, head), doc);
        ItemsTold(pre + OfLists(decorators) + OfParts(head) + OfOption(doc), TellDoc(TellParts(acc1, head), doc), checks);
        Three(pre, OfLists(decorators), OfParts(head), OfOption(doc));
        Two(pre, OfLists(decorators) + OfParts(head) + OfOption(doc), OfItems(checks));
    }
  }

  /** The `elif` or `else` of an `if`, told after the rest. */
  lemma {:induction false} ElseTold(pre: seq<string>, told: seq<string>, node: StmtNode)
    requires Within(pre, told) && node.If?
    ensures Within(pre + OfStmts(node.orelse),
                   if node.orelse == [] then told
                   else if |node.orelse| == 1 && node.orelse[0].node.If? then TellStmtNode(told + ["el"], node.orelse[0].node)
                   else TellStmts(told + ["else:"], node.orelse))
    decreases node, 0
  {
    var orelse := node.orelse;
    if orelse == [] {
      Nothing(pre);
    } else if |orelse| == 1 && orelse[0].node.If? {
      OneMore(pre, told, "el");
      StmtNodeTold(pre, told + ["el"], orelse[0].node);
      assert orelse[..0] == [] && OfStmts([]) == [] && OfStmts(orelse) == OfStmts(orelse[..0]) + OfStmt(orelse[0]);
      assert OfStmts(orelse) == OfStmtNode(orelse[0].node);
    } else {
      OneMore(pre, told, "else:");
      StmtsTold(pre, told + ["else:"], orelse);
    }
  }

  lemma {:induction false} SchemaTold(pre: seq<string>, acc: seq<string>, node: StmtNode)
    requires Within(pre, acc) && node.Schema?
    ensures Within(pre + OfStmtNode(node), TellStmtNode(acc, node))
    decreases node, 0
  {
    var a, b, c, d := OfItems(node.decorators), OfParts(node.head), OfOption(node.doc), OfItems(node.mixins);
    var e, f, g := if node.index.Some? then OfParts(node.index.value.parts) else [], OfStmts(node.attrs), OfItems(node.checks);
    var acc1 := TellParts(TellItems(acc, node.decorators), node.head);
    ItemsTold(pre, acc, node.decorators);
    PartsTold(pre + a, TellItems(acc, node.decorators), node.head);
    DocTold(pre + a + b, acc1, node.doc);
    var acc2 := TellMixins(TellDoc(acc1, node.doc), node.mixins);
    MixinsTold(pre + a + b + c, TellDoc(acc1, node.doc), node.mixins);
    var acc3 := TellIndex(acc2, node.index);
    if node.index.Some? { PartsTold(pre + a + b + c + d, acc2, node.index.value.parts); } else { Nothing(pre + a + b + c + d); }
    StmtsTold(pre + a + b + c + d + e, acc3, node.attrs);
    ChecksTold(pre + a + b + c + d + e + f, TellStmts(acc3, node.attrs), node.checks);
    Three(pre, a, b, c);
    Three(pre, a + b + c, d, e);
    Three(pre, a + b + c + d + e, f, g);
  }

  lemma {:induction false} MixinsTold(pre: seq<string>, acc: seq<string>, mixins: seq<Item>)
    requires Within(pre, acc)
    ensures Within(pre + OfItems(mixins), TellMixins(acc, mixins))
  {
    if mixins == [] {
      Nothing(pre);
    } else {
      OneMore(pre, acc, "mixin [");
      ItemsTold(pre, acc + ["mixin ["], mixins);
      OneMore(pre + OfItems(mixins), TellItems(acc + ["mixin ["], mixins), "]");
    }
  }

  lemma {:induction false} ChecksTold(pre: seq<string>, acc: seq<string>, checks: seq<Item>)
    requires Within(pre, acc)
    ensures Within(pre + OfItems(checks), TellChecks(acc, checks))
  {
    if checks == [] {
      Nothing(pre);
    } else {
      OneMore(pre, acc, "check:");
      ItemsTold(pre, acc + ["check:"], checks);
    }
  }

  lemma {:induction false} StmtsTold(pre: seq<string>, acc: seq<string>, ss: seq<Stmt>)
    requires Within(pre, acc)
    ensures Within(pre + OfStmts(ss), TellStmts(acc, ss))
    decreases ss, 0
  {
    if ss == [] {
      Nothing(pre);
    } else {
      var front, last := ss[..|ss| - 1], ss[|ss| - 1];
      StmtsTold(pre, acc, front);
      StmtTold(pre + OfStmts(front), TellStmts(acc, front), last);
      Two(pre, OfStmts(front), OfStmt(last));
    }
  }

  lemma {:induction false} StmtTold(pre: seq<string>, acc: seq<string>, s: Stmt)
    requires Within(pre, acc)
    ensures Within(pre + OfStmt(s), TellStmt(acc, s))
    decreases s, 2
  {
    StmtNodeTold(pre, acc, s.node);
  }

  /** Every text of a module is among its words, in the order in which the texts stand in the tree. */
  lemma {:induction false} TextsAreTold(m: Module)
    ensures Within(OfOption(m.doc) + OfStmts(m.body), TellModule(m))
  {
    DocTold([], [], m.doc);
    assert [] + OfOption(m.doc) == OfOption(m.doc);
    StmtsTold(OfOption(m.doc), TellDoc([], m.doc), m.body);
  }
}
