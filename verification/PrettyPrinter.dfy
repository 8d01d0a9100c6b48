/**
 The pretty printer (crates/ast_pretty/src/lib.rs and node.rs): a walk over the tree that
 writes text and, in between, takes comments from the front of a queue and writes them.

 Every method keeps `Keeps`: the comments already placed in the output followed by those
 still queued are the same sequence, every word and comment placed stands in the output where
 it was written, and indentation and the stack of expression spans are as they were. And each
 says which words it placed: those of its part of the tree, in order.
 */
module PrettyPrinter {
  import opened Wrappers
  import opened PrettyComments

  datatype Layout = Layout(indentLen: nat, useSpaces: bool, writeComments: bool)

  function Repeat(s: string, n: nat): string {
    if n == 0 then "" else s + Repeat(s, n - 1)
  }

  /** The lines above 0 among these, and the current one. */
  function Lines(lines: seq<nat>, current: nat): set<nat> {
    set l | l in lines + [current] && l > 0
  }

  predicate SeveralLines(lines: seq<nat>) {
    exists i, j :: 0 <= i < j < |lines| && lines[i] != lines[j] && lines[i] > 0 && lines[j] > 0
  }

  lemma {:induction false} SeveralLinesCount(lines: seq<nat>, current: nat)
    requires SeveralLines(lines)
    ensures |Lines(lines, current)| > 1
  {
    var i, j :| 0 <= i < j < |lines| && lines[i] != lines[j] && lines[i] > 0 && lines[j] > 0;
    var a, b, both := lines[i], lines[j], lines + [current];
    assert both[i] == a && both[j] == b;
    assert {a, b} <= Lines(lines, current);
    Subset({a, b}, Lines(lines, current));
    assert |{a, b}| == 2;
  }

  lemma {:induction false} Subset(a: set<nat>, b: set<nat>)
    requires a <= b
    ensures |a| <= |b|
  {
    if a != {} {
      var x :| x in a;
      Subset(a - {x}, b - {x});
    }
  }

  class Printer {
    const cfg: Layout
    var out: string
    var indent: nat
    var comments: seq<Comment>
    var lastAstLine: nat
    var spans: seq<nat>
    ghost var marks: seq<Mark>
    ghost var said: seq<string>
    ghost var all: seq<Comment>
    ghost var lastNote: nat
    ghost var anchor: seq<Mark>
    ghost const limit: nat

    constructor (cfg: Layout, ghost limit: nat)
      ensures this.cfg == cfg && this.limit == limit
      ensures out == "" && indent == 0 && comments == [] && lastAstLine == 0 && spans == [] && marks == []
    {
      this.cfg, this.limit := cfg, limit;
      out, indent, comments, lastAstLine, spans, marks, said, all, lastNote, anchor := "", 0, [], 0, [], [], [], [], 0, [];
    }

    /**
     The comments in the output, then those in the queue, are all there are; `said` are the
     words in the output. What was in the output at `anchor` is there still, and no comment in
     it is behind `lastNote`.
     */
    ghost predicate Good()
      reads this
    {
      Consistent(out, marks, comments, all, said) && anchor <= marks && NotesWithin(marks, lastNote)
    }

    /** No line that was seen, and no comment in the output, is behind `limit`. */
    ghost predicate Low()
      reads this
    {
      lastAstLine <= limit && lastNote <= limit && AllWithin(spans, limit)
    }

    /** Nothing goes behind `limit` while what is printed is within it. */
    twostate predicate Stays(within: bool)
      reads this
    {
      within && old(Low()) ==> Low()
    }

    twostate predicate Keeps()
      reads this
    {
      Good() && all == old(all) && anchor == old(anchor) && indent == old(indent) && spans == old(spans) && lastAstLine >= old(lastAstLine)
    }

    // -------------------------------------------------------------------------------
    // Writing text
    // -------------------------------------------------------------------------------

    method Write(text: string)
      modifies this`out
      requires Good()
      ensures Keeps() && out == old(out) + text
    {
      ConsistentText(out, marks, comments, all, said, text);
      out := out + text;
    }

    method Fill()
      modifies this`out
      requires Good()
      ensures Keeps()
    {
      if cfg.useSpaces {
        Write(Repeat(" ", indent * cfg.indentLen));
      } else {
        Write(Repeat("\t", indent));
      }
    }

    method Writeln(text: string)
      modifies this`out
      requires Good()
      ensures Keeps()
    {
      Write(text);
      Write("\n");
      Fill();
    }

    /** Write a word, and note where. */
    method WriteWord(word: string)
      modifies this`out, this`marks, this`said
      requires Good() && word != ""
      ensures Keeps() && Stays(true) && said == old(said) + [word]
    {
      ConsistentWord(out, marks, comments, all, said, word);
      NotesWithinMore(marks, Mark(|out|, Say(word)), lastNote, lastNote);
      marks := marks + [Mark(|out|, Say(word))];
      said := said + [word];
      out := out + word;
    }

    /** Write a text of the tree, which can be empty. */
    method WriteText(text: string)
      modifies this`out, this`marks, this`said
      requires Good()
      ensures Keeps() && Stays(true) && said == Tell(old(said), text)
    {
      if text != "" { WriteWord(text); }
    }

    /** Write the first comment of the queue, and note where. */
    method WriteNote()
      modifies this`out, this`marks, this`comments, this`lastNote
      requires Good() && comments != []
      ensures Keeps() && comments == old(comments)[1..] && End(marks) == |out|
      ensures lastNote == Max(old(lastNote), old(comments)[0].line) && OneNote(old(marks), old(comments)[0], marks)
    {
      ConsistentNote(out, marks, comments, all, said);
      NoteStays(anchor, marks, Mark(|out|, Note(comments[0])), lastNote);
      lastNote := Max(lastNote, comments[0].line);
      marks := marks + [Mark(|out|, Note(comments[0]))];
      out := out + comments[0].text;
      comments := comments[1..];
    }

    method Enter()
      modifies this`indent
      ensures indent == old(indent) + 1
    {
      indent := indent + 1;
    }

    method Leave()
      modifies this`indent
      requires indent > 0
      ensures indent == old(indent) - 1
    {
      indent := indent - 1;
    }

    // -------------------------------------------------------------------------------
    // Comments
    // -------------------------------------------------------------------------------

    predicate HasCommentsOn(line: nat)
      reads this
    {
      cfg.writeComments && Leading(comments, line) > 0
    }

    /** Take the first comment of the queue and write it as a line. */
    method WriteFirst()
      modifies this`out, this`marks, this`comments, this`lastNote
      requires Good() && comments != []
      ensures Keeps() && comments == old(comments)[1..]
      ensures lastNote == Max(old(lastNote), old(comments)[0].line) && OneNote(old(marks), old(comments)[0], marks)
    {
      WriteNote();
      Write("\n");
      Fill();
    }

    /** The comments up to a node, before it: exactly those at the front that are not behind it. */
    method WriteCommentsBefore(line: nat)
      modifies this`out, this`marks, this`comments, this`lastAstLine, this`lastNote
      requires Good()
      ensures Keeps() && Stays(line <= limit)
      ensures if cfg.writeComments && line > old(lastAstLine)
              then lastAstLine == line && comments == old(comments)[Leading(old(comments), line)..]
                   && Heads(old(marks), old(comments), line, marks)
              else lastAstLine == old(lastAstLine) && comments == old(comments) && out == old(out) && marks == old(marks)
    {
      if !cfg.writeComments || line <= lastAstLine { return; }
      lastAstLine := line;
      var taken := 0;
      while taken < |comments| && comments[taken].line <= line
        invariant taken <= |comments| && taken + Leading(comments[taken..], line) == Leading(comments, line)
      {
        assert comments[taken..][1..] == comments[taken + 1..];
        taken := taken + 1;
      }
      LeadingBound(comments, line);
      WriteNotes(taken, line);
      NotedIsHeads(old(marks), old(comments), line, marks);
    }

    /** The first comments of the queue, none of which is behind `line`. */
    method WriteNotes(count: nat, ghost line: nat)
      modifies this`out, this`marks, this`comments, this`lastNote
      requires Good() && count <= |comments| && forall i :: 0 <= i < count ==> comments[i].line <= line
      ensures Keeps() && comments == old(comments)[count..] && lastNote <= Max(old(lastNote), line)
      ensures Noted(old(marks), old(comments)[..count], marks)
    {
      for i := 0 to count
        invariant Keeps() && comments == old(comments)[i..] && lastNote <= Max(old(lastNote), line)
        invariant Noted(old(marks), old(comments)[..i], marks)
      {
        ghost var before := marks;
        var own := comments[0].line;
        assert comments[0] == old(comments)[i];
        WriteFirst();
        NotedMore(old(marks), old(comments), i, before, marks);
        if comments != [] && comments[0].line >= own + 2 && i + 1 < count {
          Writeln("");
        }
      }
    }

    /** One line ends, or two. */
    method EndLine(twice: bool)
      modifies this`out
      requires Good()
      ensures Keeps() && |out| > |old(out)|
    {
      Write("\n");
      if twice { Write("\n"); }
    }

    /** Take the first comment of the queue and write it on lines of its own, the last one to be continued. */
    method WriteBlockComment(first: bool, line: nat)
      modifies this`out, this`marks, this`comments, this`lastAstLine, this`lastNote
      requires Good() && comments != []
      ensures Keeps() && comments == old(comments)[1..] && End(marks) < |out| && Stays(old(comments)[0].line <= limit)
    {
      var own := comments[0].line;
      if first && (out == "" || out[|out| - 1] != '\n') { Write("\n"); }
      Fill();
      WriteNote();
      EndLine(comments != [] && comments[0].line >= own + 2 && comments[0].line <= line);
      lastAstLine := if lastAstLine > own then lastAstLine else own;
    }

    /** The comments up to a line, at the end of a block: exactly those at the front that have a line not behind it. */
    method WriteCommentsUntil(line: nat)
      modifies this`out, this`marks, this`comments, this`lastAstLine, this`lastNote
      requires Good()
      ensures Keeps() && Stays(line <= limit)
      ensures comments == old(comments)[if cfg.writeComments then LeadingPlaced(old(comments), line) else 0..]
    {
      if !cfg.writeComments || line == 0 { return; }
      var written := 0;
      while comments != [] && 0 < comments[0].line <= line
        invariant written + LeadingPlaced(comments, line) == LeadingPlaced(old(comments), line)
        invariant comments == old(comments)[written..] && Keeps() && Stays(line <= limit)
        invariant written > 0 ==> End(marks) < |out|
        decreases |comments|
      {
        WriteBlockComment(written == 0, line);
        written := written + 1;
      }
      if written > 0 && out[|out| - 1] == '\n' {
        ConsistentTrim(out, marks, comments, all, said);
        out := out[..|out| - 1];
      }
    }

    // -------------------------------------------------------------------------------
    // Expressions
    // -------------------------------------------------------------------------------

    method EnterWithNewline()
      modifies this`indent, this`out
      requires Good()
      ensures Good() && all == old(all) && indent == old(indent) + 1 && spans == old(spans)
    {
      Enter();
      Writeln("");
    }

    method LeaveWithNewline()
      modifies this`indent, this`out
      requires Good() && indent > 0
      ensures Good() && all == old(all) && indent == old(indent) - 1 && spans == old(spans)
    {
      Leave();
      Writeln("");
    }

    method UpdateLastLine(line: nat)
      modifies this`lastAstLine
      ensures lastAstLine == if line > old(lastAstLine) then line else old(lastAstLine)
    {
      if line > lastAstLine { lastAstLine := line; }
    }

    /** An expression, with its last line on the stack of spans while it is printed. */
    method PrintExpr(e: Expr)
      modifies this
      requires Good()
      ensures Keeps() && Stays(ExprWithin(e, limit)) && said == TellExpr(old(said), e)
      decreases e, 1
    {
      assert (spans + [e.endLine])[..|spans|] == spans;
      spans := spans + [e.endLine];
      UpdateLastLine(e.line);
      WalkExpr(e.node);
      spans := spans[..|spans| - 1];
    }

    method WalkExpr(node: ExprNode)
      modifies this
      requires Good()
      ensures Keeps() && Stays(NodeWithin(node, limit)) && said == TellNode(old(said), node)
      decreases node, 2
    {
      match node {
        case Inline(parts) => PrintParts(parts);
        case SchemaInstance(parts) => PrintParts(parts);
        case List(elts) => PrintList(elts);
        case ListIf(_, _, _) => PrintListIf(node);
        case Config(entries) => PrintConfig(entries);
        case ConfigIf(_, _, _) => PrintConfigIf(node);
        case Quant(_, _, _) => PrintQuant(node);
      }
    }

    method PrintParts(parts: seq<Part>)
      modifies this
      requires Good()
      ensures Keeps() && Stays(PartsWithin(parts, limit)) && said == TellParts(old(said), parts)
      decreases parts, 0
    {
      for i := 0 to |parts|
        invariant Keeps() && Stays(PartsWithin(parts, limit)) && said == TellParts(old(said), parts[..i])
      {
        assert parts[..i + 1][..i] == parts[..i];
        PrintPart(parts[i]);
      }
      assert parts[..|parts|] == parts;
    }

    method PrintPart(part: Part)
      modifies this
      requires Good()
      ensures Keeps() && Stays(PartWithin(part, limit)) && said == TellPart(old(said), part)
      decreases part, 2
    {
      match part {
        case Word(text) => WriteText(text);
        case Sub(expr) => PrintExpr(expr);
        case Bare(inner) => WalkExpr(inner);
      }
    }

    method Separate(inOneLine: bool)
      modifies this`out
      requires Good()
      ensures Keeps() && Stays(true) && said == old(said)
    {
      if inOneLine { Write(", "); } else { Writeln(""); }
    }

    /** Elements with the comments before them, one to a line or all on one. */
    method PrintItems(elts: seq<Expr>, inOneLine: bool)
      modifies this
      requires Good()
      ensures Keeps() && Stays(ExprsWithin(elts, limit)) && said == TellExprs(old(said), elts)
      decreases elts, 0
    {
      for i := 0 to |elts|
        invariant Keeps() && Stays(ExprsWithin(elts, limit)) && said == TellExprs(old(said), elts[..i])
      {
        assert elts[..i + 1][..i] == elts[..i];
        if i > 0 { Separate(inOneLine); }
        PrintElement(elts[i]);
      }
      assert elts[..|elts|] == elts;
    }

    /** The comments up to a node that begins on a new line, ahead of all that was printed since. */
    twostate predicate Leads(line: nat)
      reads this
    {
      old(marks) <= marks && (cfg.writeComments && line > old(lastAstLine) ==> Heads(old(marks), old(comments), line, marks))
    }

    /** Take the comments before a node, and hold on to where they are. */
    method OpenNode(line: nat) returns (ghost outer: seq<Mark>)
      modifies this`out, this`marks, this`comments, this`lastAstLine, this`lastNote, this`anchor
      requires Good()
      ensures Good() && all == old(all) && indent == old(indent) && spans == old(spans) && said == old(said)
      ensures lastAstLine >= old(lastAstLine) && Stays(line <= limit) && Leads(line)
      ensures outer == old(anchor) <= marks && anchor == marks
    {
      outer := anchor;
      WriteCommentsBefore(line);
      anchor := marks;
    }

    method PrintElement(e: Expr)
      modifies this
      requires Good()
      ensures Keeps() && Stays(ExprWithin(e, limit)) && said == TellExpr(old(said), e)
      ensures Leads(e.line)
      decreases e, 2
    {
      ghost var before, queue := marks, comments;
      ghost var outer := OpenNode(e.line);
      ghost var there := marks;
      PrintExpr(e);
      Behind(outer, before, queue, e.line, there, marks);
      anchor := outer;
    }

    /** No comment that has a line before the end of the expression is left. */
    predicate Cleared()
      reads this
    {
      cfg.writeComments && spans != [] && comments != [] ==>
        comments[0].line == 0 || comments[0].line >= spans[|spans| - 1]
    }

    /** The comments that are left before the end of the block. */
    method CloseBlock()
      modifies this
      requires Good() && indent > 0
      ensures Good() && all == old(all) && indent == old(indent) - 1 && spans == old(spans) && lastAstLine >= old(lastAstLine)
      ensures anchor == old(anchor) && Stays(true) && said == old(said) && Cleared()
    {
      if spans != [] {
        var end := spans[|spans| - 1];
        LeadingPlacedBound(comments, if end > 0 then end - 1 else 0);
        WriteCommentsUntil(if end > 0 then end - 1 else 0);
      }
      LeaveWithNewline();
    }

    method PrintList(elts: seq<Expr>)
      modifies this
      requires Good()
      ensures Keeps() && Stays(ExprsWithin(elts, limit)) && said == TellExprs(old(said) + ["["], elts) + ["]"]
      ensures SeveralLines(seq(|elts|, i requires 0 <= i < |elts| => elts[i].line)) ==> Cleared()
      decreases elts, 1
    {
      var lines := seq(|elts|, i requires 0 <= i < |elts| => elts[i].line);
      if SeveralLines(lines) { SeveralLinesCount(lines, lastAstLine); }
      var hasComment := elts != [] && forall i :: 0 <= i < |elts| ==> HasCommentsOn(elts[i].line);
      var inOneLine := |Lines(lines, lastAstLine)| <= 1 && !hasComment && !(elts != [] && elts[0].node.ListIf?);
      WriteWord("[");
      if !inOneLine { EnterWithNewline(); }
      PrintItems(elts, inOneLine);
      if !inOneLine { CloseBlock(); }
      WriteWord("]");
    }

    /** `if`, the test and a colon, and one level in. */
    method PrintTest(test: Expr)
      modifies this
      requires Good()
      ensures Good() && all == old(all) && indent == old(indent) + 1 && spans == old(spans) && lastAstLine >= old(lastAstLine)
      ensures anchor == old(anchor) && Stays(ExprWithin(test, limit)) && said == TellExpr(old(said) + ["if "], test) + [":"]
      decreases test, 2
    {
      WriteWord("if ");
      PrintExpr(test);
      WriteWord(":");
      EnterWithNewline();
    }

    method PrintListIf(node: ExprNode)
      modifies this
      requires Good() && node.ListIf?
      ensures Keeps() && Stays(NodeWithin(node, limit)) && said == TellNode(old(said), node)
      decreases node, 0
    {
      PrintTest(node.listTest);
      PrintItems(node.listItems, false);
      Leave();
      PrintListElse(node.listElse);
    }

    method PrintListElse(orelse: ListElse)
      modifies this
      requires Good()
      ensures Keeps() && Stays(ListElseWithin(orelse, limit)) && said == TellListElse(old(said), orelse)
      decreases orelse, 2
    {
      match orelse {
        case NoListElse =>
        case ListElseItems(elseItems) =>
          Writeln("");
          WriteWord("else:");
          EnterWithNewline();
          PrintItems(elseItems, false);
          Leave();
        case ListElif(elif) =>
          Writeln("");
          WriteWord("el");
          PrintExpr(elif);
      }
    }

    method PrintEntry(entry: Entry)
      modifies this
      requires Good()
      ensures Keeps() && Stays(EntryWithin(entry, limit)) && said == TellEntry(old(said), entry)
      ensures Leads(if entry.Keyed? then entry.key.line else entry.line)
      decreases entry, 1
    {
      ghost var before, queue := marks, comments;
      var line := if entry.Keyed? then entry.key.line else entry.line;
      if EntryWithin(entry, limit) { EntryLineWithin(entry, limit); }
      ghost var outer := OpenNode(line);
      ghost var there := marks;
      PrintEntryText(entry);
      Behind(outer, before, queue, line, there, marks);
      anchor := outer;
    }

    method PrintEntryText(entry: Entry)
      modifies this
      requires Good()
      ensures Keeps() && Stays(EntryWithin(entry, limit)) && said == TellEntry(old(said), entry)
      decreases entry, 0
    {
      match entry {
        case Keyed(_, key, quoted, op, val, closing) =>
          if quoted.Some? { WriteText(quoted.value); } else { PrintExpr(key); }
          WriteText(op);
          PrintExpr(val);
          WriteText(closing);
        case Unkeyed(_, val) =>
          if !val.node.ConfigIf? { WriteWord("**"); }
          PrintExpr(val);
      }
    }

    method PrintEntries(entries: seq<Entry>, inOneLine: bool)
      modifies this
      requires Good()
      ensures Keeps() && Stays(EntriesWithin(entries, limit)) && said == TellEntries(old(said), entries)
      decreases entries, 0
    {
      for i := 0 to |entries|
        invariant Keeps() && Stays(EntriesWithin(entries, limit)) && said == TellEntries(old(said), entries[..i])
      {
        assert entries[..i + 1][..i] == entries[..i];
        if i > 0 { Separate(inOneLine); }
        PrintEntry(entries[i]);
      }
      assert entries[..|entries|] == entries;
    }

    method PrintConfig(entries: seq<Entry>)
      modifies this
      requires Good()
      ensures Keeps() && Stays(EntriesWithin(entries, limit)) && said == TellEntries(old(said) + ["{"], entries) + ["}"]
      ensures SeveralLines(seq(|entries|, i requires 0 <= i < |entries| => entries[i].line)) ==> Cleared()
      decreases entries, 1
    {
      var lines := seq(|entries|, i requires 0 <= i < |entries| => entries[i].line);
      if SeveralLines(lines) { SeveralLinesCount(lines, lastAstLine); }
      var hasComment := entries != [] && forall i :: 0 <= i < |entries| ==> HasCommentsOn(entries[i].line);
      var inOneLine := |Lines(lines, lastAstLine)| <= 1 && !hasComment;
      if |entries| == 1 && (entries[0].val.node.ConfigIf? || entries[0].val.node.Config? || entries[0].val.node.SchemaInstance?) {
        inOneLine := false;
      }
      WriteWord("{");
      if entries != [] {
        if !inOneLine { EnterWithNewline(); }
        PrintEntries(entries, inOneLine);
        if !inOneLine { CloseBlock(); }
      }
      WriteWord("}");
    }

    method PrintConfigIf(node: ExprNode)
      modifies this
      requires Good() && node.ConfigIf?
      ensures Keeps() && Stays(NodeWithin(node, limit)) && said == TellNode(old(said), node)
      decreases node, 0
    {
      PrintTest(node.configTest);
      PrintEntries(node.configItems, false);
      Leave();
      PrintConfigElse(node.configElse);
    }

    method PrintConfigElse(orelse: ConfigElse)
      modifies this
      requires Good()
      ensures Keeps() && Stays(ConfigElseWithin(orelse, limit)) && said == TellConfigElse(old(said), orelse)
      decreases orelse, 2
    {
      match orelse {
        case NoConfigElse =>
        case ConfigElseItems(elseEntries) =>
          Writeln("");
          WriteWord("else:");
          EnterWithNewline();
          PrintEntries(elseEntries, false);
          Leave();
        case ConfigElif(elif) =>
          Writeln("");
          WriteWord("el");
          PrintExpr(elif);
      }
    }

    method PrintCond(cond: Option<Expr>)
      modifies this
      requires Good()
      ensures Keeps() && Stays(cond.Some? ==> ExprWithin(cond.value, limit)) && said == TellCond(old(said), cond)
      decreases cond, 2
    {
      if cond.Some? {
        WriteWord(" if ");
        PrintExpr(cond.value);
      }
    }

    method PrintQuant(node: ExprNode)
      modifies this
      requires Good() && node.Quant?
      ensures Keeps() && Stays(NodeWithin(node, limit)) && said == TellNode(old(said), node)
      decreases node, 1
    {
      var inOneLine := lastAstLine > 0 && node.test.line == lastAstLine;
      PrintParts(node.head);
      WriteWord(" {");
      PrintQuantBody(node, inOneLine);
      WriteWord("}");
    }

    method PrintQuantBody(node: ExprNode, inOneLine: bool)
      modifies this
      requires Good() && node.Quant?
      ensures Keeps() && Stays(NodeWithin(node, limit)) && said == TellCond(TellExpr(old(said), node.test), node.cond)
      decreases node, 0
    {
      if !inOneLine { EnterWithNewline(); }
      PrintExpr(node.test);
      PrintCond(node.cond);
      if !inOneLine { LeaveWithNewline(); }
    }

    // -------------------------------------------------------------------------------
    // Statements
    // -------------------------------------------------------------------------------

    method PrintStmt(s: Stmt)
      modifies this
      requires Good()
      ensures Keeps() && Stays(StmtWithin(s, limit)) && said == TellStmt(old(said), s)
      ensures Leads(s.line)
      decreases s, 1
    {
      ghost var before, queue := marks, comments;
      Fill();
      ghost var outer := OpenNode(s.line);
      ghost var there := marks;
      PrintStmtNode(s.node);
      Behind(outer, before, queue, s.line, there, marks);
      anchor := outer;
    }

    method PrintStmtNode(node: StmtNode)
      modifies this
      requires Good()
      ensures Keeps() && Stays(StmtNodeWithin(node, limit)) && said == TellStmtNode(old(said), node)
      decreases node, 3
    {
      match node {
        case Simple(parts, _) =>
          PrintParts(parts);
          Write("\n");
        case If(_, _, _) => PrintIf(node);
        case Schema(_, _, _, _, _, _, _) => PrintSchema(node);
        case SchemaAttr(_, _) => PrintAttr(node);
        case Rule(_, _, _, _) => PrintRule(node);
      }
    }

    method PrintAttr(node: StmtNode)
      modifies this
      requires Good() && node.SchemaAttr?
      ensures Keeps() && Stays(StmtNodeWithin(node, limit)) && said == TellStmtNode(old(said), node)
      decreases node, 2
    {
      PrintDecorators(node.attrDecorators);
      PrintParts(node.attr);
      Write("\n");
    }

    method PrintStmts(ss: seq<Stmt>) returns (ghost starts: seq<nat>)
      modifies this
      requires Good()
      ensures AllBegin(cfg, limit, all, old(said), old(Low()), ss, |ss|, marks, starts)
      ensures Keeps() && Stays(StmtsWithin(ss, limit)) && said == TellStmts(old(said), ss)
      decreases ss, 0
    {
      starts := [];
      for i := 0 to |ss|
        invariant Keeps() && Stays(StmtsWithin(ss[..i], limit)) && said == TellStmts(old(said), ss[..i])
        invariant AllBegin(cfg, limit, all, old(said), old(Low()), ss, i, marks, starts)
      {
        assert ss[..i + 1][..i] == ss[..i] && ss[..i + 1][i] == ss[i];
        if i > 0 && NewlineBetween(ss[i - 1], ss[i]) { Write("\n"); }
        StmtsWithinStep(ss, i, limit);
        if Low() { NotesWithinWider(marks, lastNote, limit); }
        ghost var before, queue := marks, comments;
        PrintStmt(ss[i]);
        BeginsHere(cfg, limit, all, old(said), old(Low()), ss, i, before, queue, marks);
        starts := BeginMore(cfg, limit, all, old(said), old(Low()), ss, i, before, starts, marks);
      }
      assert ss[..|ss|] == ss;
    }

    /** Imports end with an empty line, and one empty line of the source is kept. */
    predicate NewlineBetween(prev: Stmt, s: Stmt)
      reads this
    {
      var importEnds := prev.node.Simple? && prev.node.isImport && !(s.node.Simple? && s.node.isImport);
      importEnds || s.line > prev.endLine + 2 || (s.line == prev.endLine + 2 && !HasCommentsOn(s.line))
    }

    method PrintBlock(ss: seq<Stmt>)
      modifies this
      requires Good()
      ensures Keeps() && Stays(StmtsWithin(ss, limit)) && said == TellStmts(old(said), ss)
      decreases ss, 1
    {
      Enter();
      var _ := PrintStmts(ss);
      Leave();
    }

    method PrintIf(node: StmtNode)
      modifies this
      requires Good() && node.If?
      ensures Keeps() && Stays(StmtNodeWithin(node, limit)) && said == TellStmtNode(old(said), node)
      decreases node, 2
    {
      WriteWord("if ");
      PrintExpr(node.cond);
      WriteWord(":");
      Write("\n");
      PrintBlock(node.body);
      if node.orelse == [] {
        Write("\n");
      } else if |node.orelse| == 1 && node.orelse[0].node.If? {
        Fill();
        WriteWord("el");
        assert StmtsWithin(node.orelse, limit) ==> StmtWithin(node.orelse[0], limit);
        PrintIf(node.orelse[0].node);
      } else {
        Fill();
        WriteWord("else:");
        Write("\n");
        PrintBlock(node.orelse);
      }
    }

    method PrintItem(item: Item)
      modifies this
      requires Good()
      ensures Keeps() && Stays(ItemWithin(item, limit)) && said == TellParts(old(said), item.parts)
      ensures Leads(item.line)
      decreases item, 1
    {
      ghost var before, queue := marks, comments;
      ghost var outer := OpenNode(item.line);
      ghost var there := marks;
      PrintParts(item.parts);
      Behind(outer, before, queue, item.line, there, marks);
      anchor := outer;
    }

    /** Items with the comments before them, one to a line, with `separator` before the line ends. */
    method PrintLines(items: seq<Item>, separator: string)
      modifies this
      requires Good()
      ensures Keeps() && Stays(ItemsWithin(items, limit)) && said == TellItems(old(said), items)
      decreases items, 0
    {
      for i := 0 to |items|
        invariant Keeps() && Stays(ItemsWithin(items, limit)) && said == TellItems(old(said), items[..i])
      {
        assert items[..i + 1][..i] == items[..i];
        if i > 0 { Writeln(separator); }
        PrintItem(items[i]);
      }
      assert items[..|items|] == items;
    }

    method PrintDecorators(decorators: seq<Item>)
      modifies this
      requires Good()
      ensures Keeps() && Stays(ItemsWithin(decorators, limit)) && said == TellItems(old(said), decorators)
      decreases decorators, 1
    {
      PrintLines(decorators, "");
      if decorators != [] { Writeln(""); }
    }

    method PrintDoc(doc: Option<string>)
      modifies this`out, this`marks, this`said
      requires Good()
      ensures Keeps() && Stays(true) && said == TellDoc(old(said), doc)
    {
      if doc.Some? {
        Fill();
        WriteText(doc.value);
        Write("\n");
      }
    }

    method PrintMixins(mixins: seq<Item>)
      modifies this
      requires Good()
      ensures Keeps() && Stays(ItemsWithin(mixins, limit)) && said == TellMixins(old(said), mixins)
      decreases mixins, 1
    {
      if mixins != [] {
        Fill();
        WriteWord("mixin [");
        EnterWithNewline();
        PrintLines(mixins, ",");
        Leave();
        Writeln("");
        WriteWord("]");
        Write("\n");
      }
    }

    method PrintIndex(index: Option<Item>)
      modifies this
      requires Good()
      ensures Keeps() && Stays(index.Some? ==> ItemWithin(index.value, limit)) && said == TellIndex(old(said), index)
      decreases index, 2
    {
      if index.Some? {
        Fill();
        PrintItem(index.value);
        Write("\n");
      }
    }

    method PrintChecks(checks: seq<Item>)
      modifies this
      requires Good()
      ensures Keeps() && Stays(ItemsWithin(checks, limit)) && said == TellChecks(old(said), checks)
      decreases checks, 1
    {
      if checks != [] {
        Fill();
        WriteWord("check:");
        EnterWithNewline();
        PrintLines(checks, "");
        Write("\n");
        Leave();
        Write("\n");
      }
    }

    method PrintSchema(node: StmtNode)
      modifies this
      requires Good() && node.Schema?
      ensures Keeps() && Stays(StmtNodeWithin(node, limit)) && said == TellStmtNode(old(said), node)
      decreases node, 2
    {
      PrintDecorators(node.decorators);
      PrintParts(node.head);
      Write("\n");
      Enter();
      PrintDoc(node.doc);
      PrintMixins(node.mixins);
      PrintIndex(node.index);
      var _ := PrintStmts(node.attrs);
      Write("\n");
      PrintChecks(node.checks);
      Leave();
    }

    method PrintRuleDecorators(lists: seq<seq<Part>>)
      modifies this
      requires Good()
      ensures Keeps() && Stays(ListsWithin(lists, limit)) && said == TellLists(old(said), lists)
      decreases lists, 1
    {
      for i := 0 to |lists|
        invariant Keeps() && Stays(ListsWithin(lists, limit)) && said == TellLists(old(said), lists[..i])
      {
        assert lists[..i + 1][..i] == lists[..i];
        if i > 0 { Writeln(""); }
        PrintParts(lists[i]);
      }
      assert lists[..|lists|] == lists;
      if lists != [] { Writeln(""); }
    }

    method PrintRule(node: StmtNode)
      modifies this
      requires Good() && node.Rule?
      ensures Keeps() && Stays(StmtNodeWithin(node, limit)) && said == TellStmtNode(old(said), node)
      decreases node, 2
    {
      PrintRuleDecorators(node.ruleDecorators);
      PrintParts(node.ruleHead);
      PrintRuleBody(node.ruleDoc, node.ruleChecks);
    }

    method PrintRuleBody(doc: Option<string>, checks: seq<Item>)
      modifies this
      requires Good()
      ensures Keeps() && Stays(ItemsWithin(checks, limit)) && said == TellItems(TellDoc(old(said), doc), checks)
      decreases checks, 1
    {
      EnterWithNewline();
      PrintRuleDoc(doc);
      if checks != [] {
        PrintLines(checks, "");
        Write("\n");
      }
      Leave();
    }

    method PrintRuleDoc(doc: Option<string>)
      modifies this`out, this`marks, this`said
      requires Good()
      ensures Keeps() && Stays(true) && said == TellDoc(old(said), doc)
    {
      if doc.Some? {
        WriteText(doc.value);
        Writeln("");
      }
    }

    // -------------------------------------------------------------------------------
    // Modules
    // -------------------------------------------------------------------------------

    /** Print a module: every comment of it is in the output, once and in order, and nothing is left open. */
    method PrintModule(m: Module) returns (ghost starts: seq<nat>)
      modifies this
      requires out == "" && indent == 0 && comments == [] && spans == [] && marks == [] && lastAstLine == 0
      ensures AllBegin(cfg, limit, m.comments, TellDoc([], m.doc), true, m.body, |m.body|, marks, starts)
      ensures comments == [] && indent == 0 && spans == []
      ensures Placed(out, marks) && Marked(marks) == m.comments && Said(marks) == TellModule(m) && NoneEmpty(Said(marks))
    {
      comments := comments + m.comments;
      all, said, lastNote, anchor := m.comments, [], 0, [];
      PrintModuleDoc(m.doc);
      starts := PrintStmts(m.body);
      ghost var printed := marks;
      anchor := marks;
      WriteRest();
      BeginsStay(cfg, limit, m.comments, TellDoc([], m.doc), true, m.body, |m.body|, printed, starts, marks);
    }

    method PrintModuleDoc(doc: Option<string>)
      modifies this`out, this`marks, this`said
      requires Good()
      ensures Keeps() && Stays(true) && said == TellDoc(old(said), doc)
    {
      if doc.Some? {
        WriteText(doc.value);
        Writeln("");
        Writeln("");
      }
    }

    /** The comments behind the last statement. */
    method WriteRest()
      modifies this`out, this`marks, this`comments, this`lastNote
      requires Good()
      ensures Keeps() && comments == []
    {
      while comments != []
        invariant Keeps()
        decreases |comments|
      {
        WriteFirst();
        Fill();
      }
    }
  }

  /**
   Among the marks, the statement at `i` begins at `start`. If the statements before it are on
   lines up to `limit` and it is behind that: no comment from behind `limit` stands before
   `start`, and from there on come first all comments not behind the statement.
   */
  ghost predicate Begins(cfg: Layout, limit: nat, all: seq<Comment>, said: seq<string>, low: bool, ss: seq<Stmt>, i: nat, marks: seq<Mark>, start: nat)
    requires i < |ss|
  {
    && start <= |marks| && Said(marks[..start]) == TellStmts(said, ss[..i]) && Marked(marks[..start]) <= all
    && (cfg.writeComments && low && StmtsWithin(ss[..i], limit) && limit < ss[i].line ==>
          && NotesWithin(marks[..start], limit)
          && Heads(marks[..start], all[|Marked(marks[..start])|..], ss[i].line, marks))
  }

  lemma {:induction false} BeginsHere(cfg: Layout, limit: nat, all: seq<Comment>, said: seq<string>, low: bool, ss: seq<Stmt>, i: nat,
                                      before: seq<Mark>, queue: seq<Comment>, marks: seq<Mark>)
    requires i < |ss| && before <= marks && Said(before) == TellStmts(said, ss[..i]) && Marked(before) + queue == all
    requires cfg.writeComments && low && StmtsWithin(ss[..i], limit) && limit < ss[i].line ==>
               NotesWithin(before, limit) && Heads(before, queue, ss[i].line, marks)
    ensures Begins(cfg, limit, all, said, low, ss, i, marks, |before|)
  {
    assert marks[..|before|] == before && all[|Marked(before)|..] == queue;
  }

  /** So for the first `n` statements. */
  ghost predicate AllBegin(cfg: Layout, limit: nat, all: seq<Comment>, said: seq<string>, low: bool, ss: seq<Stmt>, n: nat, marks: seq<Mark>, starts: seq<nat>)
    requires n <= |ss|
  {
    |starts| == n && forall k :: 0 <= k < n ==> Begins(cfg, limit, all, said, low, ss, k, marks, starts[k])
  }

  lemma {:induction false} BeginsStay(cfg: Layout, limit: nat, all: seq<Comment>, said: seq<string>, low: bool, ss: seq<Stmt>, n: nat,
                                      before: seq<Mark>, starts: seq<nat>, marks: seq<Mark>)
    requires n <= |ss| && AllBegin(cfg, limit, all, said, low, ss, n, before, starts) && before <= marks
    ensures AllBegin(cfg, limit, all, said, low, ss, n, marks, starts)
  {
    forall k | 0 <= k < n ensures Begins(cfg, limit, all, said, low, ss, k, marks, starts[k]) {
      assert Begins(cfg, limit, all, said, low, ss, k, before, starts[k]);
      assert marks[..starts[k]] == before[..starts[k]];
    }
  }

  lemma {:induction false} BeginMore(cfg: Layout, limit: nat, all: seq<Comment>, said: seq<string>, low: bool, ss: seq<Stmt>, n: nat,
                                     before: seq<Mark>, starts: seq<nat>, marks: seq<Mark>) returns (more: seq<nat>)
    requires n < |ss| && AllBegin(cfg, limit, all, said, low, ss, n, before, starts) && before <= marks
    requires Begins(cfg, limit, all, said, low, ss, n, marks, |before|)
    ensures AllBegin(cfg, limit, all, said, low, ss, n + 1, marks, more)
  {
    more := starts + [|before|];
    BeginsStay(cfg, limit, all, said, low, ss, n, before, starts, marks);
  }

  /**
   A comment between two statements is printed between them: if it is behind all lines up to
   `limit` of the statements before the one at `i`, and neither it nor an earlier comment is
   behind that one, it stands after all words of the former and before all words of the latter.
   */
  lemma {:induction false} CommentStandsBetween(cfg: Layout, limit: nat, m: Module, i: nat, j: nat, marks: seq<Mark>, start: nat) returns (k: nat)
    requires cfg.writeComments && i < |m.body| && StmtsWithin(m.body[..i], limit) && limit < m.body[i].line
    requires Begins(cfg, limit, m.comments, TellDoc([], m.doc), true, m.body, i, marks, start)
    requires j < |m.comments| && limit < m.comments[j].line && AllUpTo(m.comments, j, m.body[i].line)
    ensures k < |marks| && marks[k].piece == Note(m.comments[j])
    ensures Said(marks[..k]) == TellStmts(TellDoc([], m.doc), m.body[..i])
  {
    var before := marks[..start];
    var placed := |Marked(before)|;
    var queue := m.comments[placed..];
    if j < placed {
      MarkedWithin(before, limit, j);
      assert false;
    }
    forall h | 0 <= h <= j - placed ensures AllUpTo(queue, h, m.body[i].line) && marks[start + h].piece == Note(queue[h]) {
      assert forall l :: 0 <= l <= h ==> queue[l] == m.comments[placed + l];
    }
    k := start + (j - placed);
    forall l | start <= l < k ensures marks[l].piece.Note? { assert marks[start + (l - start)].piece == Note(queue[l - start]); }
    NotesSayNothing(marks, start, k);
  }

  /**
   The text of a module, with exactly one newline at the end if it is not empty. Words and
   comments keep their places in it if none ends with a newline.
   */
  method PrintAstModule(m: Module, cfg: Layout, ghost limit: nat) returns (text: string, ghost marks: seq<Mark>, ghost starts: seq<nat>)
    ensures AllBegin(cfg, limit, m.comments, TellDoc([], m.doc), true, m.body, |m.body|, marks, starts)
    ensures Marked(marks) == m.comments && Said(marks) == TellModule(m)
    ensures (forall c :: c in m.comments ==> ProperText(c.text)) && (forall w :: w in TellModule(m) ==> !EndsLine(w)) ==> Placed(text, marks)
    ensures text != "" ==> text[|text| - 1] == '\n' && (|text| > 1 ==> text[|text| - 2] != '\n')
  {
    var printer := new Printer(cfg, limit);
    starts := printer.PrintModule(m);
    marks := printer.marks;
    if (forall c :: c in m.comments ==> ProperText(c.text)) && (forall w :: w in TellModule(m) ==> !EndsLine(w)) {
      forall i | 0 <= i < |marks| ensures ProperText(Text(marks[i].piece)) { MarkIsOne(marks, i); }
    }
    text := TrimEnd(printer.out, marks);
  }

  predicate EndsLine(text: string) {
    text != "" && text[|text| - 1] == '\n'
  }

  /** Newlines at the end are cut down to one. */
  method TrimEnd(out: string, ghost marks: seq<Mark>) returns (text: string)
    requires Placed(out, marks)
    ensures AllProper(marks) ==> Placed(text, marks)
    ensures text != "" ==> text[|text| - 1] == '\n' && (|text| > 1 ==> text[|text| - 2] != '\n')
  {
    var n: nat := |out|;
    ghost var end := 0;
    if AllProper(marks) {
      end := End(marks);
      LastIsProper(out, marks);
    }
    while n > 0 && out[n - 1] == '\n'
      invariant end <= n <= |out|
    {
      n := n - 1;
    }
    text := if n == 0 then "" else out[..n] + "\n";
    if AllProper(marks) { TrimmedIsPlaced(out, marks, n); }
  }

  predicate AllProper(marks: seq<Mark>) {
    forall i :: 0 <= i < |marks| ==> ProperText(Text(marks[i].piece))
  }

  lemma {:induction false} TrimmedIsPlaced(out: string, marks: seq<Mark>, n: nat)
    requires Placed(out, marks) && End(marks) <= n <= |out|
    ensures Placed(if n == 0 then "" else out[..n] + "\n", marks)
  {
    PlacedPrefix(out, marks, n);
    PlacedAppend(out[..n], "\n", marks);
  }

  /** What the lexer gives as a comment: some text that does not end with a newline. */
  predicate ProperText(text: string) {
    text != "" && !EndsLine(text)
  }

  /** The output does not end with a newline inside the last word or comment. */
  lemma {:induction false} LastIsProper(out: string, marks: seq<Mark>)
    requires Placed(out, marks) && AllProper(marks)
    ensures End(marks) <= |out| && (End(marks) > 0 ==> out[End(marks) - 1] != '\n')
  {
    if marks != [] {
      var last := marks[|marks| - 1];
      assert out[last.at..MarkEnd(last)][|Text(last.piece)| - 1] == out[MarkEnd(last) - 1];
    }
  }
}
