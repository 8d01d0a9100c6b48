/**
 The setter table of a module body (crates/evaluator/src/lazy.rs): for every name, the list
 of the places that assign it. A place inside an `if` is known by the `if` at the top level,
 by the branch taken there, and by the innermost statement, at which a replay stops.
 */
module KclSetters {
  import opened Wrappers

  datatype Expr =
    | Literal(text: string)
    | Name(name: string)
    | Binary(op: string, left: Expr, right: Expr)
    | Choose(test: Expr, yes: Expr, no: Expr)

  datatype Stmt =
    | Assign(id: nat, targets: seq<string>, value: Expr)
    | AugAssign(id: nat, target: string, op: string, value: Expr)
    | Unification(id: nat, target: string, value: Expr)
    | If(id: nat, test: Expr, body: seq<Stmt>, orelse: seq<Stmt>)
    | Other(id: nat)

  datatype Kind = Normal | OnlyIf | OnlyOrElse

  datatype Setter = Setter(stmt: nat, stmtId: nat, stopped: Option<nat>, kind: Kind)

  type Table = map<string, seq<Setter>>

  /** A name assigned somewhere inside an `if`, and the statement that does it. */
  datatype Leaf = Leaf(name: string, id: nat)

  function Entries(t: Table, x: string): seq<Setter> {
    if x in t then t[x] else []
  }

  /** The names a statement other than an `if` assigns, in order. */
  function Targets(s: Stmt): seq<string> {
    match s
    case Assign(_, targets, _) => targets
    case AugAssign(_, target, _, _) => [target]
    case Unification(_, target, _) => [target]
    case _ => []
  }

  // ---------------------------------------------------------------------------------
  // The list of setters, in program order
  // ---------------------------------------------------------------------------------

  function LeavesOf(s: Stmt): seq<Leaf>
    decreases s, 1
  {
    if s.If? then Leaves(s.body) + Leaves(s.orelse)
    else Named(Targets(s), s.id)
  }

  function Named(names: seq<string>, id: nat): seq<Leaf> {
    if names == [] then [] else Named(names[..|names| - 1], id) + [Leaf(names[|names| - 1], id)]
  }

  function Leaves(stmts: seq<Stmt>): seq<Leaf>
    decreases stmts, 0
  {
    if stmts == [] then [] else Leaves(stmts[..|stmts| - 1]) + LeavesOf(stmts[|stmts| - 1])
  }

  /** One setter for each leaf that assigns `x`; `stop` says whether it records the leaf. */
  function Marked(leaves: seq<Leaf>, x: string, i: nat, id: nat, stop: bool, kind: Kind): seq<Setter> {
    if leaves == [] then []
    else
      var last := leaves[|leaves| - 1];
      Marked(leaves[..|leaves| - 1], x, i, id, stop, kind)
      + if last.name == x then [Setter(i, id, if stop then Some(last.id) else None, kind)] else []
  }

  /** What the statement at index `i` adds to the setters of `x`. */
  function StmtSetters(i: nat, s: Stmt, x: string): seq<Setter> {
    if s.If? then
      Marked(Leaves(s.body), x, i, s.id, true, OnlyIf) + Marked(Leaves(s.orelse), x, i, s.id, true, OnlyOrElse)
    else Marked(LeavesOf(s), x, i, s.id, false, Normal)
  }

  function Setters(body: seq<Stmt>, x: string): seq<Setter> {
    if body == [] then []
    else Setters(body[..|body| - 1], x) + StmtSetters(|body| - 1, body[|body| - 1], x)
  }

  // ---------------------------------------------------------------------------------
  // emit_setters
  // ---------------------------------------------------------------------------------

  /** The table with one setter more for each leaf, in turn. */
  function WithLeaves(t: Table, leaves: seq<Leaf>, i: nat, id: nat, stop: bool, kind: Kind): Table {
    if leaves == [] then t
    else
      var last := leaves[|leaves| - 1];
      var before := WithLeaves(t, leaves[..|leaves| - 1], i, id, stop, kind);
      before[last.name := Entries(before, last.name) + [Setter(i, id, if stop then Some(last.id) else None, kind)]]
  }

  function WithStmt(t: Table, i: nat, s: Stmt): Table {
    if s.If? then
      WithLeaves(WithLeaves(t, Leaves(s.body), i, s.id, true, OnlyIf), Leaves(s.orelse), i, s.id, true, OnlyOrElse)
    else WithLeaves(t, LeavesOf(s), i, s.id, false, Normal)
  }

  function WithBody(t: Table, body: seq<Stmt>): Table {
    if body == [] then t
    else WithStmt(WithBody(t, body[..|body| - 1]), |body| - 1, body[|body| - 1])
  }

  /** The inner loops: one setter for each leaf in turn. */
  method AddStmts(leaves: seq<Leaf>, i: nat, id: nat, stop: bool, kind: Kind, table: Table) returns (r: Table)
    ensures r == WithLeaves(table, leaves, i, id, stop, kind)
  {
    r := table;
    for j := 0 to |leaves|
      invariant r == WithLeaves(table, leaves[..j], i, id, stop, kind)
    {
      assert leaves[..j + 1][..j] == leaves[..j];
      var setter := Setter(i, id, if stop then Some(leaves[j].id) else None, kind);
      r := r[leaves[j].name := Entries(r, leaves[j].name) + [setter]];
    }
    assert leaves[..|leaves|] == leaves;
  }

  /** One statement; inside an `if` it only collects names. */
  method EmitSetter(i: nat, s: Stmt, table: Table, isInIf: bool, names: seq<Leaf>)
    returns (table': Table, names': seq<Leaf>)
    ensures if isInIf then table' == table && names' == names + LeavesOf(s)
            else names' == names && table' == WithStmt(table, i, s)
    decreases s, 1
  {
    table', names' := table, names;
    if s.If? {
      var _, thenNames := EmitSettersWith(s.body, table', true, []);
      assert thenNames == Leaves(s.body);
      if isInIf {
        names' := names' + thenNames;
      } else {
        table' := AddStmts(thenNames, i, s.id, true, OnlyIf, table');
      }
      var _, elseNames := EmitSettersWith(s.orelse, table', true, []);
      assert elseNames == Leaves(s.orelse);
      if isInIf {
        names' := names' + elseNames;
      } else {
        table' := AddStmts(elseNames, i, s.id, true, OnlyOrElse, table');
      }
    } else if isInIf {
      names' := names' + LeavesOf(s);
    } else {
      table' := AddStmts(LeavesOf(s), i, s.id, false, Normal, table');
    }
  }

  method EmitSettersWith(body: seq<Stmt>, table: Table, isInIf: bool, names: seq<Leaf>)
    returns (table': Table, names': seq<Leaf>)
    ensures if isInIf then table' == table && names' == names + Leaves(body)
            else names' == names && table' == WithBody(table, body)
    decreases body, 0
  {
    table', names' := table, names;
    for i := 0 to |body|
      invariant if isInIf then table' == table && names' == names + Leaves(body[..i])
                else names' == names && table' == WithBody(table, body[..i])
    {
      assert body[..i + 1][..i] == body[..i];
      table', names' := EmitSetter(i, body[i], table', isInIf, names');
    }
    assert body[..|body|] == body;
  }

  /** The table of a body: every name has exactly its setters. */
  method EmitSetters(body: seq<Stmt>) returns (table: Table)
    ensures forall x :: Entries(table, x) == Setters(body, x)
  {
    var emitted, _ := EmitSettersWith(body, map[], false, []);
    table := emitted;
    forall x ensures Entries(table, x) == Setters(body, x) {
      BodyEntries(map[], body, x);
    }
  }

  lemma {:induction false} LeafEntries(t: Table, leaves: seq<Leaf>, i: nat, id: nat, stop: bool, kind: Kind, x: string)
    ensures Entries(WithLeaves(t, leaves, i, id, stop, kind), x) == Entries(t, x) + Marked(leaves, x, i, id, stop, kind)
  {
    if leaves != [] {
      LeafEntries(t, leaves[..|leaves| - 1], i, id, stop, kind, x);
    }
  }

  lemma {:induction false} Chain(e0: seq<Setter>, e1: seq<Setter>, e2: seq<Setter>, s1: seq<Setter>, s2: seq<Setter>)
    requires e1 == e0 + s1 && e2 == e1 + s2
    ensures e2 == e0 + (s1 + s2)
  {
  }

  lemma {:induction false} StmtEntries(t: Table, i: nat, s: Stmt, x: string)
    ensures Entries(WithStmt(t, i, s), x) == Entries(t, x) + StmtSetters(i, s, x)
  {
    if s.If? {
      LeafEntries(t, Leaves(s.body), i, s.id, true, OnlyIf, x);
      var between := WithLeaves(t, Leaves(s.body), i, s.id, true, OnlyIf);
      LeafEntries(between, Leaves(s.orelse), i, s.id, true, OnlyOrElse, x);
      Chain(Entries(t, x), Entries(between, x), Entries(WithStmt(t, i, s), x),
            Marked(Leaves(s.body), x, i, s.id, true, OnlyIf), Marked(Leaves(s.orelse), x, i, s.id, true, OnlyOrElse));
    } else {
      LeafEntries(t, LeavesOf(s), i, s.id, false, Normal, x);
    }
  }

  lemma {:induction false} BodyEntries(t: Table, body: seq<Stmt>, x: string)
    ensures Entries(WithBody(t, body), x) == Entries(t, x) + Setters(body, x)
  {
    if body != [] {
      var n := |body| - 1;
      var before, after := WithBody(t, body[..n]), WithBody(t, body);
      BodyEntries(t, body[..n], x);
      StmtEntries(before, n, body[n], x);
      Chain(Entries(t, x), Entries(before, x), Entries(after, x), Setters(body[..n], x), StmtSetters(n, body[n], x));
    }
  }

  // ---------------------------------------------------------------------------------
  // Completeness
  // ---------------------------------------------------------------------------------

  function Count(names: seq<string>, x: string): nat {
    if names == [] then 0 else Count(names[..|names| - 1], x) + if names[|names| - 1] == x then 1 else 0
  }

  /** How often a statement other than an `if` assigns `x`. */
  function Times(s: Stmt, x: string): nat {
    match s
    case Assign(_, targets, _) => Count(targets, x)
    case AugAssign(_, target, _, _) => if target == x then 1 else 0
    case Unification(_, target, _) => if target == x then 1 else 0
    case _ => 0
  }

  lemma {:induction false} TargetsAreWritten(s: Stmt, x: string)
    ensures Count(Targets(s), x) == Times(s, x)
  {
    if s.AugAssign? || s.Unification? {
      assert Targets(s)[..0] == [] && Count([], x) == 0;
    }
  }

  /** How often statements with this id assign `x`, anywhere inside. */
  function Assigned(stmts: seq<Stmt>, x: string, id: nat): nat
    decreases stmts, 0
  {
    if stmts == [] then 0 else Assigned(stmts[..|stmts| - 1], x, id) + AssignedBy(stmts[|stmts| - 1], x, id)
  }

  function AssignedBy(s: Stmt, x: string, id: nat): nat
    decreases s, 1
  {
    if s.If? then Assigned(s.body, x, id) + Assigned(s.orelse, x, id)
    else if s.id == id then Times(s, x) else 0
  }

  /** How many assignments to `x` the setter `e` stands for. */
  function Places(body: seq<Stmt>, x: string, e: Setter): nat {
    if e.stmt >= |body| then 0 else StmtPlaces(e.stmt, body[e.stmt], x, e)
  }

  function StmtPlaces(i: nat, s: Stmt, x: string, e: Setter): nat {
    if e.stmt != i || e.stmtId != s.id then 0
    else
      match e.kind
      case Normal => if s.If? || e.stopped.Some? then 0 else Times(s, x)
      case OnlyIf => if s.If? && e.stopped.Some? then Assigned(s.body, x, e.stopped.value) else 0
      case OnlyOrElse => if s.If? && e.stopped.Some? then Assigned(s.orelse, x, e.stopped.value) else 0
  }

  /** Every assignment has its setter, once, and there are no others. */
  lemma {:induction false} SettersAreComplete(body: seq<Stmt>, x: string, e: Setter)
    ensures multiset(Setters(body, x))[e] == Places(body, x, e)
  {
    if body != [] {
      var n := |body| - 1;
      SettersAreComplete(body[..n], x, e);
      StmtSettersAreComplete(n, body[n], x, e);
      CountConcat(Setters(body[..n], x), StmtSetters(n, body[n], x), e);
      PlacesStep(body, x, e);
    }
  }

  lemma {:induction false} PlacesStep(body: seq<Stmt>, x: string, e: Setter)
    requires body != []
    ensures var n := |body| - 1; Places(body, x, e) == Places(body[..n], x, e) + StmtPlaces(n, body[n], x, e)
  {
  }

  lemma {:induction false} CountConcat(a: seq<Setter>, b: seq<Setter>, e: Setter)
    ensures multiset(a + b)[e] == multiset(a)[e] + multiset(b)[e]
  {
  }

  lemma {:induction false} StmtSettersAreComplete(i: nat, s: Stmt, x: string, e: Setter)
    ensures multiset(StmtSetters(i, s, x))[e] == StmtPlaces(i, s, x, e)
  {
    if s.If? {
      var a, b := Marked(Leaves(s.body), x, i, s.id, true, OnlyIf), Marked(Leaves(s.orelse), x, i, s.id, true, OnlyOrElse);
      BranchCount(s.body, x, i, s.id, OnlyIf, e);
      BranchCount(s.orelse, x, i, s.id, OnlyOrElse, e);
      CountConcat(a, b, e);
      assert StmtSetters(i, s, x) == a + b;
    } else {
      MarkedCount(LeavesOf(s), x, i, s.id, false, Normal, e);
      NamedCount(Targets(s), s.id, x, None);
      TargetsAreWritten(s, x);
    }
  }

  lemma {:induction false} BranchCount(stmts: seq<Stmt>, x: string, i: nat, id: nat, kind: Kind, e: Setter)
    ensures multiset(Marked(Leaves(stmts), x, i, id, true, kind))[e]
            == if e.stmt == i && e.stmtId == id && e.kind == kind && e.stopped.Some?
               then Assigned(stmts, x, e.stopped.value) else 0
  {
    MarkedCount(Leaves(stmts), x, i, id, true, kind, e);
    if e.stopped.Some? { LeavesCount(stmts, x, e.stopped.value); }
  }

  /** The leaves that assign `x`, all of them or those of one statement. */
  function LeafCount(leaves: seq<Leaf>, x: string, id: Option<nat>): nat {
    if leaves == [] then 0
    else
      var last := leaves[|leaves| - 1];
      LeafCount(leaves[..|leaves| - 1], x, id)
      + if last.name == x && (id.Some? ==> id.value == last.id) then 1 else 0
  }

  lemma {:induction false} MarkedCount(leaves: seq<Leaf>, x: string, i: nat, id: nat, stop: bool, kind: Kind, e: Setter)
    ensures multiset(Marked(leaves, x, i, id, stop, kind))[e]
            == if e.stmt == i && e.stmtId == id && e.kind == kind && e.stopped.Some? == stop
               then LeafCount(leaves, x, e.stopped) else 0
  {
    if leaves != [] {
      var front, last := leaves[..|leaves| - 1], leaves[|leaves| - 1];
      MarkedCount(front, x, i, id, stop, kind, e);
    }
  }

  lemma {:induction false} LeafCountConcat(a: seq<Leaf>, b: seq<Leaf>, x: string, id: Option<nat>)
    ensures LeafCount(a + b, x, id) == LeafCount(a, x, id) + LeafCount(b, x, id)
  {
    if b == [] {
      assert a + b == a;
    } else {
      assert (a + b)[..|a + b| - 1] == a + b[..|b| - 1];
      LeafCountConcat(a, b[..|b| - 1], x, id);
    }
  }

  /** The leaves of a statement other than an `if` are its targets. */
  lemma {:induction false} NamedCount(names: seq<string>, own: nat, x: string, id: Option<nat>)
    ensures LeafCount(Named(names, own), x, id) == if id.Some? && id.value != own then 0 else Count(names, x)
  {
    if names != [] {
      NamedCount(names[..|names| - 1], own, x, id);
    }
  }

  lemma {:induction false} LeavesCount(stmts: seq<Stmt>, x: string, id: nat)
    ensures LeafCount(Leaves(stmts), x, Some(id)) == Assigned(stmts, x, id)
    decreases stmts, 0
  {
    if stmts != [] {
      var n := |stmts| - 1;
      LeavesCount(stmts[..n], x, id);
      LeavesOfCount(stmts[n], x, id);
      LeafCountConcat(Leaves(stmts[..n]), LeavesOf(stmts[n]), x, Some(id));
    }
  }

  lemma {:induction false} LeavesOfCount(s: Stmt, x: string, id: nat)
    ensures LeafCount(LeavesOf(s), x, Some(id)) == AssignedBy(s, x, id)
    decreases s, 1
  {
    if s.If? {
      LeavesCount(s.body, x, id);
      LeavesCount(s.orelse, x, id);
      LeafCountConcat(Leaves(s.body), Leaves(s.orelse), x, Some(id));
    } else {
      NamedCount(Targets(s), s.id, x, Some(id));
      TargetsAreWritten(s, x);
    }
  }

  // ---------------------------------------------------------------------------------
  // Statement by statement
  // ---------------------------------------------------------------------------------

  /** What a statement writes by its kind, itself or anywhere inside. */
  predicate Writes(s: Stmt, x: string)
    decreases s, 1
  {
    match s
    case Assign(_, targets, _) => x in targets
    case AugAssign(_, target, _, _) => x == target
    case Unification(_, target, _) => x == target
    case If(_, _, body, orelse) => WritesAny(body, x) || WritesAny(orelse, x)
    case Other(_) => false
  }

  predicate WritesAny(ss: seq<Stmt>, x: string)
    decreases ss, 0
  {
    ss != [] && (WritesAny(ss[..|ss| - 1], x) || Writes(ss[|ss| - 1], x))
  }

  /** A statement with this id, other than an `if`, writes `x`: `s` or one anywhere inside. */
  predicate WritesAt(s: Stmt, x: string, id: nat)
    decreases s, 1
  {
    if s.If? then WritesAtAny(s.body, x, id) || WritesAtAny(s.orelse, x, id) else s.id == id && Writes(s, x)
  }

  predicate WritesAtAny(ss: seq<Stmt>, x: string, id: nat)
    decreases ss, 0
  {
    ss != [] && (WritesAtAny(ss[..|ss| - 1], x, id) || WritesAt(ss[|ss| - 1], x, id))
  }

  lemma {:induction false} CountIn(names: seq<string>, x: string)
    ensures Count(names, x) > 0 <==> x in names
  {
    if names != [] {
      CountIn(names[..|names| - 1], x);
      assert names == names[..|names| - 1] + [names[|names| - 1]];
    }
  }

  lemma {:induction false} TimesWritten(s: Stmt, x: string)
    requires !s.If?
    ensures Times(s, x) > 0 <==> Writes(s, x)
  {
    if s.Assign? { CountIn(s.targets, x); }
  }

  lemma {:induction false} AssignedWritten(s: Stmt, x: string, id: nat)
    ensures AssignedBy(s, x, id) > 0 <==> WritesAt(s, x, id)
    decreases s, 1
  {
    if s.If? {
      AssignedAnyWritten(s.body, x, id);
      AssignedAnyWritten(s.orelse, x, id);
    } else {
      TimesWritten(s, x);
    }
  }

  lemma {:induction false} AssignedAnyWritten(ss: seq<Stmt>, x: string, id: nat)
    ensures Assigned(ss, x, id) > 0 <==> WritesAtAny(ss, x, id)
    decreases ss, 0
  {
    if ss != [] {
      AssignedAnyWritten(ss[..|ss| - 1], x, id);
      AssignedWritten(ss[|ss| - 1], x, id);
    }
  }

  /** `e` is the setter of `x` for a statement at the top level that writes `x`, or for one inside a branch of an `if` there. */
  predicate SetterOf(body: seq<Stmt>, x: string, e: Setter) {
    e.stmt < |body| && e.stmtId == body[e.stmt].id && Writer(body[e.stmt], x, e)
  }

  predicate Writer(s: Stmt, x: string, e: Setter) {
    if s.If? then
      e.stopped.Some? && ((e.kind == OnlyIf && WritesAtAny(s.body, x, e.stopped.value))
                          || (e.kind == OnlyOrElse && WritesAtAny(s.orelse, x, e.stopped.value)))
    else e.kind == Normal && e.stopped.None? && Writes(s, x)
  }

  /** The list of a name holds a setter for every statement that writes it, and no other. */
  lemma {:induction false} EachWriteHasItsSetter(body: seq<Stmt>, x: string, e: Setter)
    ensures e in Setters(body, x) <==> SetterOf(body, x, e)
  {
    SettersAreComplete(body, x, e);
    if e.stmt < |body| { PlacesWritten(body[e.stmt], x, e); }
  }

  lemma {:induction false} PlacesWritten(s: Stmt, x: string, e: Setter)
    ensures StmtPlaces(e.stmt, s, x, e) > 0 <==> e.stmtId == s.id && Writer(s, x, e)
  {
    if s.If? {
      if e.stopped.Some? {
        AssignedAnyWritten(s.body, x, e.stopped.value);
        AssignedAnyWritten(s.orelse, x, e.stopped.value);
      }
    } else {
      TimesWritten(s, x);
    }
  }

  lemma {:induction false} WritesAtSome(s: Stmt, x: string) returns (id: nat)
    requires Writes(s, x)
    ensures WritesAt(s, x, id)
    decreases s, 1
  {
    if s.If? {
      if WritesAny(s.body, x) { id := WritesAtAnySome(s.body, x); } else { id := WritesAtAnySome(s.orelse, x); }
    } else {
      id := s.id;
    }
  }

  lemma {:induction false} WritesAtAnySome(ss: seq<Stmt>, x: string) returns (id: nat)
    requires WritesAny(ss, x)
    ensures WritesAtAny(ss, x, id)
    decreases ss, 0
  {
    if WritesAny(ss[..|ss| - 1], x) {
      id := WritesAtAnySome(ss[..|ss| - 1], x);
    } else {
      id := WritesAtSome(ss[|ss| - 1], x);
    }
  }

  predicate HasSetterAt(list: seq<Setter>, i: nat) {
    exists j :: 0 <= j < |list| && list[j].stmt == i
  }

  /** A name has a setter for the statement at index `i` if and only if that statement writes it. */
  lemma {:induction false} SetterAtIffWritten(body: seq<Stmt>, x: string, i: nat)
    requires i < |body|
    ensures HasSetterAt(Setters(body, x), i) <==> Writes(body[i], x)
  {
    var list, s := Setters(body, x), body[i];
    if HasSetterAt(list, i) {
      var j :| 0 <= j < |list| && list[j].stmt == i;
      EachWriteHasItsSetter(body, x, list[j]);
      if s.If? {
        if list[j].kind == OnlyIf { WrittenInside(s.body, x, list[j].stopped.value); } else { WrittenInside(s.orelse, x, list[j].stopped.value); }
      }
    }
    if Writes(s, x) {
      var e := Setter(i, s.id, None, Normal);
      if s.If? {
        if WritesAny(s.body, x) {
          var id := WritesAtAnySome(s.body, x);
          e := Setter(i, s.id, Some(id), OnlyIf);
        } else {
          var id := WritesAtAnySome(s.orelse, x);
          e := Setter(i, s.id, Some(id), OnlyOrElse);
        }
      }
      EachWriteHasItsSetter(body, x, e);
    }
  }

  lemma {:induction false} WrittenInside(ss: seq<Stmt>, x: string, id: nat)
    requires WritesAtAny(ss, x, id)
    ensures WritesAny(ss, x)
    decreases ss, 0
  {
    var n := |ss| - 1;
    if WritesAtAny(ss[..n], x, id) { WrittenInside(ss[..n], x, id); } else { WrittenBy(ss[n], x, id); }
  }

  lemma {:induction false} WrittenBy(s: Stmt, x: string, id: nat)
    requires WritesAt(s, x, id)
    ensures Writes(s, x)
    decreases s, 1
  {
    if s.If? {
      if WritesAtAny(s.body, x, id) { WrittenInside(s.body, x, id); } else { WrittenInside(s.orelse, x, id); }
    }
  }

  // ---------------------------------------------------------------------------------
  // The order of the list
  // ---------------------------------------------------------------------------------

  /** Two different leaves that assign `x` in the statements `a` and `b`, in this order. */
  predicate InTurn(leaves: seq<Leaf>, x: string, a: Option<nat>, b: Option<nat>) {
    a.Some? && b.Some?
    && exists p, q :: 0 <= p < q < |leaves| && leaves[p] == Leaf(x, a.value) && leaves[q] == Leaf(x, b.value)
  }

  /** In one statement: the then-branch of an `if` before its else-branch, and leaf by leaf in each. */
  predicate Precedes(s: Stmt, x: string, a: Setter, b: Setter) {
    if s.If? then
      || (a.kind == OnlyIf && b.kind == OnlyOrElse)
      || (a.kind == OnlyIf && b.kind == OnlyIf && InTurn(Leaves(s.body), x, a.stopped, b.stopped))
      || (a.kind == OnlyOrElse && b.kind == OnlyOrElse && InTurn(Leaves(s.orelse), x, a.stopped, b.stopped))
    else a == b
  }

  /** Earlier statement first, and in order inside a statement. */
  predicate NotAfter(body: seq<Stmt>, x: string, a: Setter, b: Setter) {
    a.stmt < b.stmt < |body| || (a.stmt == b.stmt < |body| && Precedes(body[a.stmt], x, a, b))
  }

  predicate InOrder(body: seq<Stmt>, x: string, list: seq<Setter>) {
    forall j, k :: 0 <= j < k < |list| ==> NotAfter(body, x, list[j], list[k])
  }

  predicate AllAt(list: seq<Setter>, i: nat) {
    forall k :: 0 <= k < |list| ==> list[k].stmt == i
  }

  predicate AllBelow(list: seq<Setter>, i: nat) {
    forall k :: 0 <= k < |list| ==> list[k].stmt < i
  }

  predicate AllPrecede(s: Stmt, x: string, list: seq<Setter>) {
    forall j, k :: 0 <= j < k < |list| ==> Precedes(s, x, list[j], list[k])
  }

  predicate OfLeaf(leaves: seq<Leaf>, x: string, id: Option<nat>) {
    id.Some? && exists p :: 0 <= p < |leaves| && leaves[p] == Leaf(x, id.value)
  }

  /** Setters of one branch, in the order of its leaves. */
  predicate FromLeaves(leaves: seq<Leaf>, x: string, list: seq<Setter>, i: nat, kind: Kind) {
    && (forall k :: 0 <= k < |list| ==> list[k].stmt == i && list[k].kind == kind && OfLeaf(leaves, x, list[k].stopped))
    && (forall j, k :: 0 <= j < k < |list| ==> InTurn(leaves, x, list[j].stopped, list[k].stopped))
  }

  lemma {:induction false} OneLeafMore(leaves: seq<Leaf>, last: Leaf, x: string, list: seq<Setter>, i: nat, kind: Kind)
    requires FromLeaves(leaves, x, list, i, kind)
    ensures FromLeaves(leaves + [last], x, list, i, kind)
  {
    var more := leaves + [last];
    forall k | 0 <= k < |list| ensures OfLeaf(more, x, list[k].stopped) {
      var p :| 0 <= p < |leaves| && leaves[p] == Leaf(x, list[k].stopped.value);
      assert more[p] == leaves[p];
    }
    forall j, k | 0 <= j < k < |list| ensures InTurn(more, x, list[j].stopped, list[k].stopped) {
      var p, q :| 0 <= p < q < |leaves| && leaves[p] == Leaf(x, list[j].stopped.value) && leaves[q] == Leaf(x, list[k].stopped.value);
      assert more[p] == leaves[p] && more[q] == leaves[q];
    }
  }

  lemma {:induction false} OneSetterMore(leaves: seq<Leaf>, x: string, list: seq<Setter>, e: Setter, i: nat, kind: Kind)
    requires leaves != [] && FromLeaves(leaves[..|leaves| - 1], x, list, i, kind)
    requires e.stmt == i && e.kind == kind && leaves[|leaves| - 1].name == x && e.stopped == Some(leaves[|leaves| - 1].id)
    ensures FromLeaves(leaves, x, list + [e], i, kind)
  {
    var n := |leaves| - 1;
    assert leaves == leaves[..n] + [leaves[n]];
    OneLeafMore(leaves[..n], leaves[n], x, list, i, kind);
    assert leaves[n] == Leaf(x, e.stopped.value);
    forall j | 0 <= j < |list| ensures InTurn(leaves, x, list[j].stopped, e.stopped) {
      var p :| 0 <= p < n && leaves[..n][p] == Leaf(x, list[j].stopped.value);
      assert leaves[p] == leaves[..n][p];
    }
  }

  lemma {:induction false} MarkedInTurn(leaves: seq<Leaf>, x: string, i: nat, id: nat, kind: Kind)
    ensures FromLeaves(leaves, x, Marked(leaves, x, i, id, true, kind), i, kind)
  {
    if leaves != [] {
      var front, last := leaves[..|leaves| - 1], leaves[|leaves| - 1];
      MarkedInTurn(front, x, i, id, kind);
      assert leaves == front + [last];
      if last.name == x {
        OneSetterMore(leaves, x, Marked(front, x, i, id, true, kind), Setter(i, id, Some(last.id), kind), i, kind);
      } else {
        OneLeafMore(front, last, x, Marked(front, x, i, id, true, kind), i, kind);
      }
    }
  }

  lemma {:induction false} MarkedAlike(leaves: seq<Leaf>, x: string, i: nat, id: nat, k: nat)
    requires k < |Marked(leaves, x, i, id, false, Normal)|
    ensures Marked(leaves, x, i, id, false, Normal)[k] == Setter(i, id, None, Normal)
  {
    var front := leaves[..|leaves| - 1];
    if k < |Marked(front, x, i, id, false, Normal)| { MarkedAlike(front, x, i, id, k); }
  }

  lemma {:induction false} BranchesInOrder(s: Stmt, x: string, a: seq<Setter>, b: seq<Setter>, i: nat)
    requires s.If? && FromLeaves(Leaves(s.body), x, a, i, OnlyIf) && FromLeaves(Leaves(s.orelse), x, b, i, OnlyOrElse)
    ensures AllPrecede(s, x, a + b) && AllAt(a + b, i)
  {
    var list := a + b;
    forall j, k | 0 <= j < k < |list| ensures Precedes(s, x, list[j], list[k]) {
      assert list[j] == (if j < |a| then a[j] else b[j - |a|]) && list[k] == (if k < |a| then a[k] else b[k - |a|]);
    }
  }

  lemma {:induction false} StmtSettersAreOrdered(i: nat, s: Stmt, x: string)
    ensures AllPrecede(s, x, StmtSetters(i, s, x)) && AllAt(StmtSetters(i, s, x), i)
  {
    if s.If? {
      MarkedInTurn(Leaves(s.body), x, i, s.id, OnlyIf);
      MarkedInTurn(Leaves(s.orelse), x, i, s.id, OnlyOrElse);
      BranchesInOrder(s, x, Marked(Leaves(s.body), x, i, s.id, true, OnlyIf), Marked(Leaves(s.orelse), x, i, s.id, true, OnlyOrElse), i);
    } else {
      forall k | 0 <= k < |StmtSetters(i, s, x)| ensures StmtSetters(i, s, x)[k] == Setter(i, s.id, None, Normal) {
        MarkedAlike(LeavesOf(s), x, i, s.id, k);
      }
    }
  }

  lemma {:induction false} StatementsInOrder(body: seq<Stmt>, x: string, a: seq<Setter>, b: seq<Setter>)
    requires body != [] && InOrder(body[..|body| - 1], x, a) && AllBelow(a, |body| - 1)
    requires AllPrecede(body[|body| - 1], x, b) && AllAt(b, |body| - 1)
    ensures InOrder(body, x, a + b) && AllBelow(a + b, |body|)
  {
    var list := a + b;
    forall j, k | 0 <= j < k < |list| ensures NotAfter(body, x, list[j], list[k]) {
      if k < |a| { assert NotAfter(body[..|body| - 1], x, a[j], a[k]); }
    }
  }

  /** The setters of a name come in program order. */
  lemma {:induction false} SettersAreOrdered(body: seq<Stmt>, x: string)
    ensures InOrder(body, x, Setters(body, x)) && AllBelow(Setters(body, x), |body|)
  {
    if body != [] {
      var n := |body| - 1;
      SettersAreOrdered(body[..n], x);
      StmtSettersAreOrdered(n, body[n], x);
      StatementsInOrder(body, x, Setters(body[..n], x), StmtSetters(n, body[n], x));
    }
  }
}
