// app/agent/builders.py: which notebook cells are re-run to restore a kernel (`_replay_policy` and the restore loop),
// with a semantics for the cells over immutable values.
module Replay {
  import opened Wrappers
  import N = Notebook

  datatype Value = NoneValue | Num(n: int) | Str(s: string) | Tuple(items: seq<Value>)

  type Env = map<string, Value>

  // Built-in operators on immutable values: a deterministic result, or an exception.
  type Operators = (string, seq<Value>) -> Option<Value>

  // Expression forms of Python's `ast`; stored names never are `Name` nodes with Load context.
  datatype Expr =
    | Const(value: Value)
    | Load(name: string)
    | Apply(operator: string, operands: Exprs)
    | Display(elements: Exprs)
    | Either(conjunction: bool, left: Expr, right: Expr)
    | IfElse(test: Expr, yes: Expr, no: Expr)
    | Walrus(target: string, rhs: Expr)
    | Call(function_: Expr, arguments: Exprs)
    | Other(unsafe: string, parts: Exprs)

  datatype Exprs = NoExprs | Expr(head: Expr, tail: Exprs)

  datatype Stmt =
    | Assign(targets: seq<string>, rhs: Expr)
    | Unpack(names: seq<string>, rhs: Expr)
    | AugAssign(target: string, operator: string, rhs: Expr)
    | Do(expr: Expr)
    | Assert(test: Expr)
    | If(test: Expr, yes: Stmts, no: Stmts)
    | For(target: string, iter: Expr, body: Stmts)
    | Refused(kind: string, parts: Exprs, names: seq<string>)

  datatype Stmts = NoStmts | Then(head: Stmt, tail: Stmts)

  // ---------------------------------------------------------------- _replay_policy

  // A node class the classifier calls unsafe, or a loaded name, occurs below.
  predicate Suspicious(e: Expr) {
    match e
    case Const(_) => false
    case Load(_) => true
    case Apply(_, args) => AnySuspicious(args)
    case Display(items) => AnySuspicious(items)
    case Either(_, a, b) => Suspicious(a) || Suspicious(b)
    case IfElse(c, a, b) => Suspicious(c) || Suspicious(a) || Suspicious(b)
    case Walrus(_, e1) => Suspicious(e1)
    case Call(_, _) => true
    case Other(_, _) => true
  }

  predicate AnySuspicious(es: Exprs) { es.Expr? && (Suspicious(es.head) || AnySuspicious(es.tail)) }

  predicate SuspiciousStmt(s: Stmt) {
    match s
    case Assign(_, e) => Suspicious(e)
    case Unpack(_, e) => Suspicious(e)
    case AugAssign(_, _, e) => Suspicious(e)
    case Do(e) => Suspicious(e)
    case Assert(e) => Suspicious(e)
    case If(e, a, b) => Suspicious(e) || AnySuspiciousStmt(a) || AnySuspiciousStmt(b)
    case For(_, e, body) => Suspicious(e) || AnySuspiciousStmt(body)
    case Refused(_, _, _) => true
  }

  predicate AnySuspiciousStmt(ss: Stmts) { ss.Then? && (SuspiciousStmt(ss.head) || AnySuspiciousStmt(ss.tail)) }

  // A name `agent`, loaded or stored, occurs below.
  predicate Mentions(e: Expr, name: string) {
    match e
    case Const(_) => false
    case Load(x) => x == name
    case Apply(_, args) => AnyMentions(args, name)
    case Display(items) => AnyMentions(items, name)
    case Either(_, a, b) => Mentions(a, name) || Mentions(b, name)
    case IfElse(c, a, b) => Mentions(c, name) || Mentions(a, name) || Mentions(b, name)
    case Walrus(x, e1) => x == name || Mentions(e1, name)
    case Call(f, args) => Mentions(f, name) || AnyMentions(args, name)
    case Other(_, parts) => AnyMentions(parts, name)
  }

  predicate AnyMentions(es: Exprs, name: string) {
    es.Expr? && (Mentions(es.head, name) || AnyMentions(es.tail, name))
  }

  predicate MentionsStmt(s: Stmt, name: string) {
    match s
    case Assign(xs, e) => name in xs || Mentions(e, name)
    case Unpack(xs, e) => name in xs || Mentions(e, name)
    case AugAssign(x, _, e) => x == name || Mentions(e, name)
    case Do(e) => Mentions(e, name)
    case Assert(e) => Mentions(e, name)
    case If(e, a, b) => Mentions(e, name) || AnyMentionsStmt(a, name) || AnyMentionsStmt(b, name)
    case For(x, e, body) => x == name || Mentions(e, name) || AnyMentionsStmt(body, name)
    case Refused(_, parts, xs) => name in xs || AnyMentions(parts, name)
  }

  predicate AnyMentionsStmt(ss: Stmts, name: string) {
    ss.Then? && (MentionsStmt(ss.head, name) || AnyMentionsStmt(ss.tail, name))
  }

  // `None` is source that does not parse.
  function Policy(code: Option<Stmts>): N.Policy {
    if code.None? then N.Safe
    else if AnyMentionsStmt(code.value, "agent") then N.Never
    else if AnySuspiciousStmt(code.value) then N.RequiresReconciliation
    else N.Safe
  }

  // ---------------------------------------------------------------- ast.walk

  datatype Node = NameNode(id: string, loaded: bool) | UnsafeNode

  // The nodes below that the classifier can tell from others.
  function Walk(e: Expr): seq<Node> {
    match e
    case Const(_) => []
    case Load(x) => [NameNode(x, true)]
    case Apply(_, args) => WalkAll(args)
    case Display(items) => WalkAll(items)
    case Either(_, a, b) => Walk(a) + Walk(b)
    case IfElse(c, a, b) => Walk(c) + (Walk(a) + Walk(b))
    case Walrus(x, e1) => Stored([x]) + Walk(e1)
    case Call(f, args) => [UnsafeNode] + (Walk(f) + WalkAll(args))
    case Other(_, parts) => [UnsafeNode] + WalkAll(parts)
  }

  function WalkAll(es: Exprs): seq<Node> { if es.NoExprs? then [] else Walk(es.head) + WalkAll(es.tail) }

  function Stored(names: seq<string>): seq<Node> {
    seq(|names|, i requires 0 <= i < |names| => NameNode(names[i], false))
  }

  function WalkStmt(s: Stmt): seq<Node> {
    match s
    case Assign(xs, e) => Stored(xs) + Walk(e)
    case Unpack(xs, e) => Stored(xs) + Walk(e)
    case AugAssign(x, _, e) => Stored([x]) + Walk(e)
    case Do(e) => Walk(e)
    case Assert(e) => Walk(e)
    case If(e, a, b) => Walk(e) + (WalkStmts(a) + WalkStmts(b))
    case For(x, e, body) => Stored([x]) + (Walk(e) + WalkStmts(body))
    case Refused(_, parts, xs) => [UnsafeNode] + (Stored(xs) + WalkAll(parts))
  }

  function WalkStmts(ss: Stmts): seq<Node> { if ss.NoStmts? then [] else WalkStmt(ss.head) + WalkStmts(ss.tail) }

  ghost predicate Names(nodes: seq<Node>, id: string) {
    exists i :: 0 <= i < |nodes| && nodes[i].NameNode? && nodes[i].id == id
  }

  ghost predicate Risks(nodes: seq<Node>) {
    exists i :: 0 <= i < |nodes| && (nodes[i].UnsafeNode? || nodes[i].loaded)
  }

  lemma WalkConcat(a: seq<Node>, b: seq<Node>, id: string)
    ensures Names(a + b, id) <==> Names(a, id) || Names(b, id)
    ensures Risks(a + b) <==> Risks(a) || Risks(b)
  {
    assert forall i :: 0 <= i < |a| ==> (a + b)[i] == a[i];
    assert forall i :: 0 <= i < |b| ==> (a + b)[|a| + i] == b[i];
  }

  lemma StoredNames(names: seq<string>, id: string)
    ensures (Names(Stored(names), id) <==> id in names) && !Risks(Stored(names))
  {
    if id in names {
      var i :| 0 <= i < |names| && names[i] == id;
      assert Stored(names)[i].id == id;
    }
  }

  lemma {:induction false} WalkFinds(e: Expr, id: string)
    ensures (Mentions(e, id) <==> Names(Walk(e), id)) && (Suspicious(e) <==> Risks(Walk(e)))
  {
    match e {
      case Const(_) =>
      case Load(x) => assert Walk(e)[0] == NameNode(x, true);
      case Apply(_, args) => WalkAllFinds(args, id);
      case Display(items) => WalkAllFinds(items, id);
      case Either(_, a, b) =>
        WalkFinds(a, id);
        WalkFinds(b, id);
        WalkConcat(Walk(a), Walk(b), id);
      case IfElse(c, a, b) =>
        WalkFinds(c, id);
        WalkFinds(a, id);
        WalkFinds(b, id);
        WalkConcat(Walk(a), Walk(b), id);
        WalkConcat(Walk(c), Walk(a) + Walk(b), id);
      case Walrus(x, e1) =>
        WalkFinds(e1, id);
        StoredNames([x], id);
        WalkConcat(Stored([x]), Walk(e1), id);
      case Call(f, args) =>
        WalkFinds(f, id);
        WalkAllFinds(args, id);
        WalkConcat(Walk(f), WalkAll(args), id);
        UnsafeFirst(Walk(f) + WalkAll(args), id);
      case Other(_, parts) =>
        WalkAllFinds(parts, id);
        UnsafeFirst(WalkAll(parts), id);
    }
  }

  lemma UnsafeFirst(nodes: seq<Node>, id: string)
    ensures (Names([UnsafeNode] + nodes, id) <==> Names(nodes, id)) && Risks([UnsafeNode] + nodes)
  {
    WalkConcat([UnsafeNode], nodes, id);
    assert [UnsafeNode][0].UnsafeNode?;
  }

  lemma {:induction false} WalkAllFinds(es: Exprs, id: string)
    ensures (AnyMentions(es, id) <==> Names(WalkAll(es), id)) && (AnySuspicious(es) <==> Risks(WalkAll(es)))
  {
    if es.Expr? {
      WalkFinds(es.head, id);
      WalkAllFinds(es.tail, id);
      WalkConcat(Walk(es.head), WalkAll(es.tail), id);
    }
  }

  lemma {:induction false} WalkStmtFinds(s: Stmt, id: string)
    ensures (MentionsStmt(s, id) <==> Names(WalkStmt(s), id)) && (SuspiciousStmt(s) <==> Risks(WalkStmt(s)))
  {
    match s {
      case Assign(xs, e) => StoresFinds(xs, e, id);
      case Unpack(xs, e) => StoresFinds(xs, e, id);
      case AugAssign(x, _, e) => StoresFinds([x], e, id);
      case Do(e) => WalkFinds(e, id);
      case Assert(e) => WalkFinds(e, id);
      case If(e, a, b) =>
        WalkFinds(e, id);
        WalkStmtsFinds(a, id);
        WalkStmtsFinds(b, id);
        WalkConcat(WalkStmts(a), WalkStmts(b), id);
        WalkConcat(Walk(e), WalkStmts(a) + WalkStmts(b), id);
      case For(x, e, body) =>
        WalkFinds(e, id);
        WalkStmtsFinds(body, id);
        StoredNames([x], id);
        WalkConcat(Walk(e), WalkStmts(body), id);
        WalkConcat(Stored([x]), Walk(e) + WalkStmts(body), id);
      case Refused(_, parts, xs) =>
        WalkAllFinds(parts, id);
        StoredNames(xs, id);
        WalkConcat(Stored(xs), WalkAll(parts), id);
        UnsafeFirst(Stored(xs) + WalkAll(parts), id);
    }
  }

  lemma StoresFinds(xs: seq<string>, e: Expr, id: string)
    ensures id in xs || Mentions(e, id) <==> Names(Stored(xs) + Walk(e), id)
    ensures Suspicious(e) <==> Risks(Stored(xs) + Walk(e))
  {
    WalkFinds(e, id);
    StoredNames(xs, id);
    WalkConcat(Stored(xs), Walk(e), id);
  }

  lemma {:induction false} WalkStmtsFinds(ss: Stmts, id: string)
    ensures AnyMentionsStmt(ss, id) <==> Names(WalkStmts(ss), id)
    ensures AnySuspiciousStmt(ss) <==> Risks(WalkStmts(ss))
  {
    if ss.Then? {
      WalkStmtFinds(ss.head, id);
      WalkStmtsFinds(ss.tail, id);
      WalkConcat(WalkStmt(ss.head), WalkStmts(ss.tail), id);
    }
  }

  // Every node below is of no unsafe class, loads no name, and is not the name `agent`.
  ghost predicate Harmless(code: Stmts) {
    forall i :: 0 <= i < |WalkStmts(code)| ==>
      var node := WalkStmts(code)[i]; node.NameNode? && !node.loaded && node.id != "agent"
  }

  // The class of a cell, by the nodes of its tree.
  lemma PolicyIff(code: Stmts)
    ensures Policy(None) == N.Safe
    ensures Policy(Some(code)) == N.Safe <==> Harmless(code)
    ensures Policy(Some(code)) == N.Never <==> NameNode("agent", true) in WalkStmts(code)
                                               || NameNode("agent", false) in WalkStmts(code)
    ensures Policy(Some(code)) in {N.Safe, N.Never, N.RequiresReconciliation}
  {
    var nodes := WalkStmts(code);
    WalkStmtsFinds(code, "agent");
    forall i | 0 <= i < |nodes| ensures nodes[i] in nodes {
    }
    forall loaded | NameNode("agent", loaded) in nodes ensures Names(nodes, "agent") {
      var i :| 0 <= i < |nodes| && nodes[i] == NameNode("agent", loaded);
      assert nodes[i].id == "agent";
    }
    if Names(nodes, "agent") {
      var i :| 0 <= i < |nodes| && nodes[i].NameNode? && nodes[i].id == "agent";
      assert nodes[i] == NameNode("agent", nodes[i].loaded);
    }
  }

  // ---------------------------------------------------------------- execution with capabilities disabled

  // Outcome of an evaluation: success or an exception, the values, the kernel's names, the names stored on the way,
  // and how often a call was attempted.
  datatype Run = Run(ok: bool, values: seq<Value>, env: Env, wrote: set<string>, calls: nat)

  function Start(env: Env): Run { Run(true, [], env, {}, 0) }

  function Raise(r: Run): Run { r.(ok := false, values := []) }

  function Store(r: Run, name: string, v: Value): Run {
    r.(env := r.env[name := v], wrote := r.wrote + {name})
  }

  // Running on only adds names, exactly those it records as stored, and leaves every other name alone.
  ghost predicate Extends(r: Run, out: Run) {
    && (forall x :: x !in out.wrote ==> Lookup(out.env, x) == Lookup(r.env, x))
    && (forall x :: x in r.env ==> x in out.env) && (forall x :: x in out.env ==> x in r.env || x in out.wrote)
    && (forall x :: x in r.wrote ==> x in out.wrote) && (forall x :: x in out.wrote ==> x in r.wrote || x in out.env)
  }

  function Truth(v: Value): bool {
    match v
    case NoneValue => false
    case Num(n) => n != 0
    case Str(s) => s != ""
    case Tuple(items) => items != []
  }

  // What a loop visits and an unpacking takes apart.
  function Elements(v: Value): Option<seq<Value>> {
    match v
    case Tuple(items) => Some(items)
    case Str(s) => Some(seq(|s|, i requires 0 <= i < |s| => Str([s[i]])))
    case _ => None
  }

  // Evaluate one expression after `r`; its value is the only one of the result.
  function Eval(e: Expr, r: Run, ops: Operators): (out: Run)
    requires r.ok
    ensures (out.ok ==> |out.values| == 1) && Extends(r, out)
    decreases e
  {
    match e
    case Const(v) => r.(values := [v])
    case Load(x) => if x in r.env then r.(values := [r.env[x]]) else Raise(r)
    case Apply(op, args) =>
      var a := EvalAll(args, r, ops);
      if !a.ok || ops(op, a.values).None? then Raise(a) else a.(values := [ops(op, a.values).value])
    case Display(items) =>
      var a := EvalAll(items, r, ops);
      if !a.ok then a else a.(values := [Tuple(a.values)])
    case Either(conjunction, a, b) =>
      var v := Eval(a, r, ops);
      if !v.ok || Truth(v.values[0]) != conjunction then v else Eval(b, v, ops)
    case IfElse(c, yes, no) =>
      var t := Eval(c, r, ops);
      if !t.ok then t else if Truth(t.values[0]) then Eval(yes, t, ops) else Eval(no, t, ops)
    case Walrus(x, e1) =>
      var v := Eval(e1, r, ops);
      if !v.ok then v else Store(v, x, v.values[0])
    case Call(_, _) => Raise(r.(calls := r.calls + 1))
    case Other(_, _) => Raise(r)
  }

  function EvalAll(es: Exprs, r: Run, ops: Operators): (out: Run)
    requires r.ok
    ensures Extends(r, out)
    decreases es
  {
    match es
    case NoExprs => r.(values := [])
    case Expr(e, rest) =>
      var v := Eval(e, r, ops);
      if !v.ok then v
      else
        var vs := EvalAll(rest, v, ops);
        if !vs.ok then vs else vs.(values := [v.values[0]] + vs.values)
  }

  function StoreAll(r: Run, names: seq<string>, v: Value): (out: Run)
    ensures Extends(r, out)
    decreases names
  {
    if names == [] then r else StoreAll(Store(r, names[0], v), names[1..], v)
  }

  function StoreEach(r: Run, names: seq<string>, vs: seq<Value>): (out: Run)
    requires |names| == |vs|
    ensures Extends(r, out)
    decreases names
  {
    if names == [] then r else StoreEach(Store(r, names[0], vs[0]), names[1..], vs[1..])
  }

  // The value just evaluated has this many elements.
  predicate Parts(v: Run, n: nat)
    requires |v.values| == 1
  {
    Elements(v.values[0]).Some? && |Elements(v.values[0]).value| == n
  }

  function ExecStmt(s: Stmt, r: Run, ops: Operators): (out: Run)
    requires r.ok
    ensures Extends(r, out)
    decreases s, 0
  {
    match s
    case Assign(xs, e) =>
      var v := Eval(e, r, ops);
      if !v.ok then v else StoreAll(v, xs, v.values[0])
    case Unpack(xs, e) =>
      var v := Eval(e, r, ops);
      if !v.ok then v
      else if Parts(v, |xs|) then StoreEach(v, xs, Elements(v.values[0]).value)
      else Raise(v)
    case AugAssign(x, op, e) =>
      if x !in r.env then Raise(r)
      else
        var v := Eval(e, r, ops);
        if !v.ok then v
        else if ops(op, [r.env[x], v.values[0]]).None? then Raise(v)
        else Store(v, x, ops(op, [r.env[x], v.values[0]]).value)
    case Do(e) => Eval(e, r, ops)
    case Assert(e) =>
      var v := Eval(e, r, ops);
      if v.ok && !Truth(v.values[0]) then Raise(v) else v
    case If(e, yes, no) =>
      var t := Eval(e, r, ops);
      if !t.ok then t else if Truth(t.values[0]) then Exec(yes, t, ops) else Exec(no, t, ops)
    case For(x, e, body) =>
      var v := Eval(e, r, ops);
      if !v.ok then v
      else if Elements(v.values[0]).Some? then Iterate(Elements(v.values[0]).value, x, body, v, ops)
      else Raise(v)
    case Refused(_, _, _) => Raise(r)
  }

  function Exec(ss: Stmts, r: Run, ops: Operators): (out: Run)
    requires r.ok
    ensures Extends(r, out)
    decreases ss, 0
  {
    match ss
    case NoStmts => r
    case Then(s, rest) =>
      var a := ExecStmt(s, r, ops);
      if !a.ok then a else Exec(rest, a, ops)
  }

  function Iterate(items: seq<Value>, x: string, body: Stmts, r: Run, ops: Operators): (out: Run)
    requires r.ok
    ensures Extends(r, out)
    decreases body, 1 + |items|
  {
    if items == [] then r
    else
      var a := Exec(body, Store(r, x, items[0]), ops);
      if !a.ok then a else Iterate(items[1..], x, body, a, ops)
  }

  // ---------------------------------------------------------------- code the classifier calls safe

  // The same run started on top of other names.
  function Over(base: Env, r: Run): Run { r.(env := base + r.env) }

  lemma OverStore(base: Env, r: Run, x: string, v: Value)
    ensures Over(base, Store(r, x, v)) == Store(Over(base, r), x, v)
  {
    assert base + r.env[x := v] == (base + r.env)[x := v];
  }

  // A safe expression reads no name: it does the same over any kernel, and calls nothing.
  lemma {:induction false} EvalFrame(e: Expr, r: Run, base: Env, ops: Operators)
    requires r.ok && !Suspicious(e)
    ensures Eval(e, Over(base, r), ops) == Over(base, Eval(e, r, ops)) && Eval(e, r, ops).calls == r.calls
    decreases e
  {
    match e {
      case Const(_) =>
      case Apply(_, args) => EvalAllFrame(args, r, base, ops);
      case Display(items) => EvalAllFrame(items, r, base, ops);
      case Either(conjunction, a, b) =>
        EvalFrame(a, r, base, ops);
        var v := Eval(a, r, ops);
        if v.ok && Truth(v.values[0]) == conjunction {
          EvalFrame(b, v, base, ops);
        }
      case IfElse(c, yes, no) =>
        EvalFrame(c, r, base, ops);
        var t := Eval(c, r, ops);
        if t.ok {
          if Truth(t.values[0]) {
            EvalFrame(yes, t, base, ops);
          } else {
            EvalFrame(no, t, base, ops);
          }
        }
      case Walrus(x, e1) =>
        EvalFrame(e1, r, base, ops);
        var v := Eval(e1, r, ops);
        if v.ok {
          OverStore(base, v, x, v.values[0]);
        }
    }
  }

  lemma {:induction false} EvalAllFrame(es: Exprs, r: Run, base: Env, ops: Operators)
    requires r.ok && !AnySuspicious(es)
    ensures EvalAll(es, Over(base, r), ops) == Over(base, EvalAll(es, r, ops)) && EvalAll(es, r, ops).calls == r.calls
    decreases es
  {
    if es.Expr? {
      EvalFrame(es.head, r, base, ops);
      var v := Eval(es.head, r, ops);
      if v.ok {
        EvalAllFrame(es.tail, v, base, ops);
      }
    }
  }

  lemma {:induction false} StoreAllFrame(r: Run, names: seq<string>, v: Value, base: Env)
    ensures StoreAll(Over(base, r), names, v) == Over(base, StoreAll(r, names, v))
    ensures StoreAll(r, names, v).calls == r.calls && StoreAll(r, names, v).ok == r.ok
    decreases names
  {
    if names != [] {
      OverStore(base, r, names[0], v);
      StoreAllFrame(Store(r, names[0], v), names[1..], v, base);
    }
  }

  lemma {:induction false} StoreEachFrame(r: Run, names: seq<string>, vs: seq<Value>, base: Env)
    requires |names| == |vs|
    ensures StoreEach(Over(base, r), names, vs) == Over(base, StoreEach(r, names, vs))
    ensures StoreEach(r, names, vs).calls == r.calls && StoreEach(r, names, vs).ok == r.ok
    decreases names
  {
    if names != [] {
      OverStore(base, r, names[0], vs[0]);
      StoreEachFrame(Store(r, names[0], vs[0]), names[1..], vs[1..], base);
    }
  }

  // An augmented assignment occurs below: the one way safe code reads a name.
  predicate Augments(s: Stmt) {
    match s
    case AugAssign(_, _, _) => true
    case If(_, a, b) => AnyAugments(a) || AnyAugments(b)
    case For(_, _, body) => AnyAugments(body)
    case _ => false
  }

  predicate AnyAugments(ss: Stmts) { ss.Then? && (Augments(ss.head) || AnyAugments(ss.tail)) }

  // Safe code does the same over any kernel if it succeeds by itself, or augments nothing.
  lemma {:induction false} StmtFrame(s: Stmt, r: Run, base: Env, ops: Operators)
    requires r.ok && !SuspiciousStmt(s) && (ExecStmt(s, r, ops).ok || !Augments(s))
    ensures ExecStmt(s, Over(base, r), ops) == Over(base, ExecStmt(s, r, ops))
    decreases s, 0
  {
    match s {
      case Assign(xs, e) =>
        EvalFrame(e, r, base, ops);
        var v := Eval(e, r, ops);
        if v.ok {
          StoreAllFrame(v, xs, v.values[0], base);
        }
      case Unpack(xs, e) =>
        EvalFrame(e, r, base, ops);
        var v := Eval(e, r, ops);
        if v.ok && Parts(v, |xs|) {
          StoreEachFrame(v, xs, Elements(v.values[0]).value, base);
        }
      case AugAssign(x, op, e) =>
        EvalFrame(e, r, base, ops);
        var v := Eval(e, r, ops);
        OverStore(base, v, x, ops(op, [r.env[x], v.values[0]]).value);
      case Do(e) => EvalFrame(e, r, base, ops);
      case Assert(e) => EvalFrame(e, r, base, ops);
      case If(e, yes, no) =>
        EvalFrame(e, r, base, ops);
        var t := Eval(e, r, ops);
        if t.ok {
          if Truth(t.values[0]) {
            ExecFrame(yes, t, base, ops);
          } else {
            ExecFrame(no, t, base, ops);
          }
        }
      case For(x, e, body) =>
        EvalFrame(e, r, base, ops);
        var v := Eval(e, r, ops);
        if v.ok && Elements(v.values[0]).Some? {
          IterateFrame(Elements(v.values[0]).value, x, body, v, base, ops);
        }
    }
  }

  lemma {:induction false} ExecFrame(ss: Stmts, r: Run, base: Env, ops: Operators)
    requires r.ok && !AnySuspiciousStmt(ss) && (Exec(ss, r, ops).ok || !AnyAugments(ss))
    ensures Exec(ss, Over(base, r), ops) == Over(base, Exec(ss, r, ops))
    decreases ss, 0
  {
    if ss.Then? {
      StmtFrame(ss.head, r, base, ops);
      var a := ExecStmt(ss.head, r, ops);
      if a.ok {
        ExecFrame(ss.tail, a, base, ops);
      }
    }
  }

  lemma {:induction false} IterateFrame(items: seq<Value>, x: string, body: Stmts, r: Run, base: Env, ops: Operators)
    requires r.ok && !AnySuspiciousStmt(body) && (Iterate(items, x, body, r, ops).ok || !AnyAugments(body))
    ensures Iterate(items, x, body, Over(base, r), ops) == Over(base, Iterate(items, x, body, r, ops))
    decreases body, 1 + |items|
  {
    if items != [] {
      OverStore(base, r, x, items[0]);
      ExecFrame(body, Store(r, x, items[0]), base, ops);
      var a := Exec(body, Store(r, x, items[0]), ops);
      if a.ok {
        IterateFrame(items[1..], x, body, a, base, ops);
      }
    }
  }

  // Safe code never attempts a call, whatever the kernel holds.
  lemma {:induction false} StmtCallsNothing(s: Stmt, r: Run, ops: Operators)
    requires r.ok && !SuspiciousStmt(s)
    ensures ExecStmt(s, r, ops).calls == r.calls
    decreases s, 0
  {
    match s {
      case Assign(xs, e) =>
        EvalFrame(e, r, map[], ops);
        var v := Eval(e, r, ops);
        if v.ok {
          StoreAllFrame(v, xs, v.values[0], map[]);
        }
      case Unpack(xs, e) =>
        EvalFrame(e, r, map[], ops);
        var v := Eval(e, r, ops);
        if v.ok && Parts(v, |xs|) {
          StoreEachFrame(v, xs, Elements(v.values[0]).value, map[]);
        }
      case AugAssign(_, _, e) => EvalFrame(e, r, map[], ops);
      case Do(e) => EvalFrame(e, r, map[], ops);
      case Assert(e) => EvalFrame(e, r, map[], ops);
      case If(e, yes, no) =>
        EvalFrame(e, r, map[], ops);
        var t := Eval(e, r, ops);
        if t.ok {
          ExecCallsNothing(if Truth(t.values[0]) then yes else no, t, ops);
        }
      case For(x, e, body) =>
        EvalFrame(e, r, map[], ops);
        var v := Eval(e, r, ops);
        if v.ok && Elements(v.values[0]).Some? {
          IterateCallsNothing(Elements(v.values[0]).value, x, body, v, ops);
        }
    }
  }

  lemma {:induction false} ExecCallsNothing(ss: Stmts, r: Run, ops: Operators)
    requires r.ok && !AnySuspiciousStmt(ss)
    ensures Exec(ss, r, ops).calls == r.calls
    decreases ss, 0
  {
    if ss.Then? {
      StmtCallsNothing(ss.head, r, ops);
      var a := ExecStmt(ss.head, r, ops);
      if a.ok {
        ExecCallsNothing(ss.tail, a, ops);
      }
    }
  }

  lemma {:induction false} IterateCallsNothing(items: seq<Value>, x: string, body: Stmts, r: Run, ops: Operators)
    requires r.ok && !AnySuspiciousStmt(body)
    ensures Iterate(items, x, body, r, ops).calls == r.calls
    decreases body, 1 + |items|
  {
    if items != [] {
      ExecCallsNothing(body, Store(r, x, items[0]), ops);
      var a := Exec(body, Store(r, x, items[0]), ops);
      if a.ok {
        IterateCallsNothing(items[1..], x, body, a, ops);
      }
    }
  }

  // ---------------------------------------------------------------- what safe code depends on

  // The names whose value safe code may read.
  function Reads(s: Stmt): set<string> {
    match s
    case AugAssign(x, _, _) => {x}
    case If(_, a, b) => AllReads(a) + AllReads(b)
    case For(_, _, body) => AllReads(body)
    case _ => {}
  }

  function AllReads(ss: Stmts): set<string> { if ss.NoStmts? then {} else Reads(ss.head) + AllReads(ss.tail) }

  // Two runs that differ at most in names neither read nor stored.
  ghost predicate Alike(names: set<string>, a: Run, b: Run) {
    && a.(env := b.env) == b
    && forall x :: x in names || x in a.wrote ==> Lookup(a.env, x) == Lookup(b.env, x)
  }

  // One run placed over two kernels.
  lemma OverAlike(names: set<string>, a: Run, b: Run, bare: Run, out: Run)
    requires Alike(names, a, b) && bare == a.(env := map[]) && Extends(bare, out)
    ensures Alike(names, Over(a.env, out), Over(b.env, out))
  {
    var v, w := Over(a.env, out), Over(b.env, out);
    forall x | x in names || x in out.wrote ensures Lookup(v.env, x) == Lookup(w.env, x) {
      if x !in out.env {
        assert x in names || x in a.wrote;
      }
    }
  }

  lemma OverBare(a: Run)
    ensures Over(a.env, a.(env := map[])) == a
  {
    assert a.env + map[] == a.env;
  }

  lemma EvalAlike(names: set<string>, e: Expr, a: Run, b: Run, ops: Operators)
    requires Alike(names, a, b) && a.ok && !Suspicious(e)
    ensures Alike(names, Eval(e, a, ops), Eval(e, b, ops))
  {
    var bare := a.(env := map[]);
    assert bare == b.(env := map[]);
    OverBare(a);
    OverBare(b);
    EvalFrame(e, bare, a.env, ops);
    EvalFrame(e, bare, b.env, ops);
    OverAlike(names, a, b, bare, Eval(e, bare, ops));
  }

  lemma StoreAlike(names: set<string>, a: Run, b: Run, x: string, v: Value)
    requires Alike(names, a, b)
    ensures Alike(names, Store(a, x, v), Store(b, x, v))
  {
  }

  lemma {:induction false} StoreAllAlike(names: set<string>, a: Run, b: Run, targets: seq<string>, v: Value)
    requires Alike(names, a, b)
    ensures Alike(names, StoreAll(a, targets, v), StoreAll(b, targets, v))
    decreases targets
  {
    if targets != [] {
      StoreAlike(names, a, b, targets[0], v);
      StoreAllAlike(names, Store(a, targets[0], v), Store(b, targets[0], v), targets[1..], v);
    }
  }

  lemma {:induction false} StoreEachAlike(names: set<string>, a: Run, b: Run, targets: seq<string>, vs: seq<Value>)
    requires Alike(names, a, b) && |targets| == |vs|
    ensures Alike(names, StoreEach(a, targets, vs), StoreEach(b, targets, vs))
    decreases targets
  {
    if targets != [] {
      StoreAlike(names, a, b, targets[0], vs[0]);
      StoreEachAlike(names, Store(a, targets[0], vs[0]), Store(b, targets[0], vs[0]), targets[1..], vs[1..]);
    }
  }

  // Safe code reads nothing but the targets of its augmented assignments.
  lemma {:induction false} StmtAlike(names: set<string>, s: Stmt, a: Run, b: Run, ops: Operators)
    requires Alike(names, a, b) && a.ok && !SuspiciousStmt(s) && Reads(s) <= names
    ensures Alike(names, ExecStmt(s, a, ops), ExecStmt(s, b, ops))
    decreases s, 0
  {
    match s {
      case Assign(xs, e) =>
        EvalAlike(names, e, a, b, ops);
        var v, w := Eval(e, a, ops), Eval(e, b, ops);
        if v.ok {
          StoreAllAlike(names, v, w, xs, v.values[0]);
        }
      case Unpack(xs, e) =>
        EvalAlike(names, e, a, b, ops);
        var v, w := Eval(e, a, ops), Eval(e, b, ops);
        if v.ok && Parts(v, |xs|) {
          StoreEachAlike(names, v, w, xs, Elements(v.values[0]).value);
        }
      case AugAssign(x, op, e) => AugAssignAlike(names, x, op, e, a, b, ops);
      case Do(e) => EvalAlike(names, e, a, b, ops);
      case Assert(e) => EvalAlike(names, e, a, b, ops);
      case If(e, yes, no) =>
        EvalAlike(names, e, a, b, ops);
        var t, u := Eval(e, a, ops), Eval(e, b, ops);
        if t.ok {
          ExecAlike(names, if Truth(t.values[0]) then yes else no, t, u, ops);
        }
      case For(x, e, body) =>
        EvalAlike(names, e, a, b, ops);
        var v, w := Eval(e, a, ops), Eval(e, b, ops);
        if v.ok && Elements(v.values[0]).Some? {
          IterateAlike(names, Elements(v.values[0]).value, x, body, v, w, ops);
        }
    }
  }

  lemma AugAssignAlike(names: set<string>, x: string, op: string, e: Expr, a: Run, b: Run, ops: Operators)
    requires Alike(names, a, b) && a.ok && !Suspicious(e) && x in names
    ensures Alike(names, ExecStmt(AugAssign(x, op, e), a, ops), ExecStmt(AugAssign(x, op, e), b, ops))
  {
    assert Lookup(a.env, x) == Lookup(b.env, x);
    if x in a.env {
      EvalAlike(names, e, a, b, ops);
      var v, w := Eval(e, a, ops), Eval(e, b, ops);
      if v.ok && ops(op, [a.env[x], v.values[0]]).Some? {
        StoreAlike(names, v, w, x, ops(op, [a.env[x], v.values[0]]).value);
      }
    }
  }

  lemma {:induction false} ExecAlike(names: set<string>, ss: Stmts, a: Run, b: Run, ops: Operators)
    requires Alike(names, a, b) && a.ok && !AnySuspiciousStmt(ss) && AllReads(ss) <= names
    ensures Alike(names, Exec(ss, a, ops), Exec(ss, b, ops))
    decreases ss, 0
  {
    if ss.Then? {
      StmtAlike(names, ss.head, a, b, ops);
      var v, w := ExecStmt(ss.head, a, ops), ExecStmt(ss.head, b, ops);
      if v.ok {
        ExecAlike(names, ss.tail, v, w, ops);
      }
    }
  }

  lemma {:induction false} IterateAlike(
    names: set<string>, items: seq<Value>, x: string, body: Stmts, a: Run, b: Run, ops: Operators)
    requires Alike(names, a, b) && a.ok && !AnySuspiciousStmt(body) && AllReads(body) <= names
    ensures Alike(names, Iterate(items, x, body, a, ops), Iterate(items, x, body, b, ops))
    decreases body, 1 + |items|
  {
    if items != [] {
      StoreAlike(names, a, b, x, items[0]);
      ExecAlike(names, body, Store(a, x, items[0]), Store(b, x, items[0]), ops);
      var v, w := Exec(body, Store(a, x, items[0]), ops), Exec(body, Store(b, x, items[0]), ops);
      if v.ok {
        IterateAlike(names, items[1..], x, body, v, w, ops);
      }
    }
  }

  // ---------------------------------------------------------------- sessions

  datatype Outcome = Completed | Errored | TimedOut

  // One executed cell: what became of it and, if it completed, the names it stored and the kernel it left.
  datatype Cell = Cell(code: Option<Stmts>, outcome: Outcome, wrote: set<string>, after: Env)

  predicate Replayed(c: Cell) { c.outcome.Completed? && c.code.Some? && Policy(c.code) == N.Safe }

  // The restore loop over the notebook's cells, from an empty kernel; it stops at the first failure.
  function Restore(history: seq<Cell>, ops: Operators): Run {
    if history == [] then Start(map[])
    else
      var r := Restore(history[..|history| - 1], ops);
      var c := history[|history| - 1];
      if !r.ok || !Replayed(c) then r
      else
        var a := Exec(c.code.value, Start(r.env), ops);
        Run(a.ok, [], a.env, r.wrote + a.wrote, r.calls + a.calls)
  }

  // The kernel the next cell meets: the last cell's, or a restored one after a failure or a timeout.
  function LiveEnv(history: seq<Cell>, ops: Operators): Env {
    if history == [] then map[]
    else if history[|history| - 1].outcome.Completed? then history[|history| - 1].after
    else Restore(history, ops).env
  }

  // A completed cell did what its code does; code outside the model may store anything, and records what it stores.
  ghost predicate Honest(env: Env, c: Cell, ops: Operators) {
    c.outcome.Completed? ==>
      && c.code.Some?
      && if Policy(c.code) == N.Safe then
           var r := Exec(c.code.value, Start(env), ops);
           r.ok && c.after == r.env && c.wrote == r.wrote
         else
           forall x :: x !in c.wrote ==> Lookup(c.after, x) == Lookup(env, x)
  }

  ghost predicate Session(history: seq<Cell>, ops: Operators) {
    history == [] ||
    var n := |history| - 1;
    Session(history[..n], ops) && Honest(LiveEnv(history[..n], ops), history[n], ops)
  }

  // The cell runs alone, in an empty kernel.
  predicate SelfContained(code: Stmts, ops: Operators) { Exec(code, Start(map[]), ops).ok }

  function LastWriter(history: seq<Cell>, x: string): (r: Option<nat>)
    ensures r.Some? ==> r.value < |history| && history[r.value].outcome.Completed? && x in history[r.value].wrote
  {
    if history == [] then None
    else
      var n := |history| - 1;
      if history[n].outcome.Completed? && x in history[n].wrote then Some(n) else LastWriter(history[..n], x)
  }

  // A safe, self-contained cell adds the same bindings to every kernel.
  lemma RunsAnywhere(code: Stmts, env: Env, ops: Operators)
    requires !AnySuspiciousStmt(code) && SelfContained(code, ops)
    ensures var alone := Exec(code, Start(map[]), ops);
            var r := Exec(code, Start(env), ops);
            && r.ok && r.env == env + alone.env && r.wrote == alone.wrote == alone.env.Keys && r.calls == 0
  {
    assert env + map[] == env;
    ExecFrame(code, Start(map[]), env, ops);
    ExecCallsNothing(code, Start(map[]), ops);
    assert Extends(Start(map[]), Exec(code, Start(map[]), ops));
  }

  // And it is exactly the self-contained cells that may be replayed into any kernel.
  lemma ReplayableIff(code: Stmts, ops: Operators)
    requires !AnySuspiciousStmt(code)
    ensures SelfContained(code, ops)
            <==> forall env: Env :: Exec(code, Start(env), ops).ok
                   && Exec(code, Start(env), ops).env == env + Exec(code, Start(map[]), ops).env
  {
    if SelfContained(code, ops) {
      forall env: Env
        ensures Exec(code, Start(env), ops).ok
                && Exec(code, Start(env), ops).env == env + Exec(code, Start(map[]), ops).env
      {
        RunsAnywhere(code, env, ops);
      }
    }
  }

  // Safe code without augmented assignment that completed somewhere is self-contained.
  lemma NoAugmentSelfContained(code: Stmts, env: Env, ops: Operators)
    requires !AnySuspiciousStmt(code) && !AnyAugments(code) && Exec(code, Start(env), ops).ok
    ensures SelfContained(code, ops)
  {
    assert env + map[] == env;
    ExecFrame(code, Start(map[]), env, ops);
  }

  // What is replayed: the completed cells of harmless code.
  ghost predicate Settled(c: Cell) { c.outcome.Completed? && c.code.Some? && Harmless(c.code.value) }

  lemma ReplayedIff(c: Cell)
    ensures Replayed(c) <==> Settled(c)
  {
    if c.code.Some? {
      PolicyIff(c.code.value);
    }
  }

  // The name has no completed writer, or the last one is a cell that is replayed.
  ghost predicate Supplied(history: seq<Cell>, x: string) {
    var i := LastWriter(history, x);
    i.None? || Settled(history[i.value])
  }

  // The replayed cell runs alone, or every name it reads is supplied by the cells before it.
  ghost predicate Sourced(before: seq<Cell>, c: Cell, ops: Operators) {
    Settled(c) ==>
      SelfContained(c.code.value, ops) || forall x :: x in AllReads(c.code.value) ==> Supplied(before, x)
  }

  ghost predicate AllSourced(history: seq<Cell>, ops: Operators) {
    forall i :: 0 <= i < |history| ==> Sourced(history[..i], history[i], ops)
  }

  // The live kernel, a restored one, and what the replayed cells gave the names they wrote last.
  ghost predicate Restored(history: seq<Cell>, live: Env, r: Run) {
    && r.ok && r.calls == 0
    && (forall x :: Supplied(history, x) ==> Lookup(r.env, x) == Lookup(live, x))
    && (forall x :: LastWriter(history, x).Some? && Supplied(history, x) ==>
          var after := history[LastWriter(history, x).value].after;
          x in after && Lookup(live, x) == Some(after[x]))
  }

  // A sourced cell stores the same in the restored kernel as it did live.
  lemma SameStores(before: seq<Cell>, live: Env, r: Run, c: Cell, ops: Operators)
    requires Restored(before, live, r) && Honest(live, c, ops) && Settled(c) && Sourced(before, c, ops)
    ensures var again := Exec(c.code.value, Start(r.env), ops);
            && again.ok && again.calls == 0 && again.wrote == c.wrote
            && (forall x :: x in c.wrote ==> x in c.after && Lookup(again.env, x) == Some(c.after[x]))
            && (forall x :: x !in c.wrote ==> Lookup(again.env, x) == Lookup(r.env, x))
            && (forall x :: x !in c.wrote ==> Lookup(c.after, x) == Lookup(live, x))
  {
    var code := c.code.value;
    var first, again := Exec(code, Start(live), ops), Exec(code, Start(r.env), ops);
    ReplayedIff(c);
    assert Extends(Start(live), first) && Extends(Start(r.env), again);
    if SelfContained(code, ops) {
      RunsAnywhere(code, live, ops);
      RunsAnywhere(code, r.env, ops);
    } else {
      ExecAlike(AllReads(code), code, Start(live), Start(r.env), ops);
      ExecCallsNothing(code, Start(live), ops);
    }
  }

  lemma WriterSnoc(before: seq<Cell>, c: Cell, x: string, history: seq<Cell>)
    requires history == before + [c]
    ensures LastWriter(history, x) == if c.outcome.Completed? && x in c.wrote then Some(|before|)
                                      else LastWriter(before, x)
    ensures LastWriter(history, x) == LastWriter(before, x) ==> (Supplied(history, x) <==> Supplied(before, x))
  {
    assert history[..|before|] == before;
  }

  lemma RestoredAfterReplay(
    before: seq<Cell>, live: Env, r: Run, c: Cell, again: Run, history: seq<Cell>, r': Run)
    requires Restored(before, live, r) && Settled(c) && history == before + [c]
    requires again.ok && again.calls == 0 && r' == Run(true, [], again.env, r.wrote + again.wrote, r.calls)
    requires forall x :: x in c.wrote ==> x in c.after && Lookup(again.env, x) == Some(c.after[x])
    requires forall x :: x !in c.wrote ==> Lookup(again.env, x) == Lookup(r.env, x)
    requires forall x :: x !in c.wrote ==> Lookup(c.after, x) == Lookup(live, x)
    ensures Restored(history, c.after, r')
  {
    forall x
      ensures LastWriter(history, x) == if x in c.wrote then Some(|before|) else LastWriter(before, x)
      ensures x !in c.wrote ==> (Supplied(history, x) <==> Supplied(before, x))
    {
      WriterSnoc(before, c, x, history);
    }
  }

  // A completed cell that is not replayed takes its names out of what is supplied.
  lemma RestoredAfterOther(before: seq<Cell>, live: Env, r: Run, c: Cell, history: seq<Cell>)
    requires Restored(before, live, r) && c.outcome.Completed? && !Settled(c) && history == before + [c]
    requires forall x :: x !in c.wrote ==> Lookup(c.after, x) == Lookup(live, x)
    ensures Restored(history, c.after, r)
  {
    forall x
      ensures LastWriter(history, x) == if x in c.wrote then Some(|before|) else LastWriter(before, x)
      ensures x !in c.wrote ==> (Supplied(history, x) <==> Supplied(before, x))
    {
      WriterSnoc(before, c, x, history);
    }
  }

  // After a failure or a timeout the live kernel is a restored one.
  lemma RestoredAfterReset(before: seq<Cell>, live: Env, r: Run, c: Cell, history: seq<Cell>)
    requires Restored(before, live, r) && !c.outcome.Completed? && history == before + [c]
    ensures Restored(history, r.env, r)
  {
    forall x
      ensures LastWriter(history, x) == LastWriter(before, x) && (Supplied(history, x) <==> Supplied(before, x))
    {
      WriterSnoc(before, c, x, history);
    }
  }

  // Restoration preserves meaning: when every replayed cell runs alone or reads only what replayed cells wrote last,
  // restoration succeeds, calls nothing, and gives every name whose last completed writer is a replayed cell, or that
  // has none, what it has live; for a written name that is the value its writer gave it.
  lemma {:induction false} RestorationPreservesMeaning(history: seq<Cell>, ops: Operators)
    requires Session(history, ops) && AllSourced(history, ops)
    ensures Restored(history, LiveEnv(history, ops), Restore(history, ops))
  {
    if history != [] {
      var n := |history| - 1;
      var before, c := history[..n], history[n];
      assert forall i :: 0 <= i < n ==> before[..i] == history[..i];
      RestorationPreservesMeaning(before, ops);
      SplitLast(history);
      var live, r := LiveEnv(before, ops), Restore(before, ops);
      ReplayedIff(c);
      if Settled(c) {
        SameStores(before, live, r, c, ops);
        RestoredAfterReplay(before, live, r, c, Exec(c.code.value, Start(r.env), ops), history, Restore(history, ops));
      } else if c.outcome.Completed? {
        RestoredAfterOther(before, live, r, c, history);
      } else {
        RestoredAfterReset(before, live, r, c, history);
      }
    }
  }

  // One cell outside the model that leaves this kernel, then the code.
  function Followed(env: Env, code: Stmts, ops: Operators): seq<Cell> {
    var r := Exec(code, Start(env), ops);
    [Cell(Some(SET_CALL), Completed, env.Keys, env), Cell(Some(code), Completed, r.wrote, r.env)]
  }

  lemma FollowedStops(code: Stmts, env: Env, ops: Operators)
    requires Policy(Some(code)) == N.Safe && Exec(code, Start(env), ops).ok && !SelfContained(code, ops)
    ensures var h := Followed(env, code, ops); Session(h, ops) && !Replayed(h[0]) && !Restore(h, ops).ok
  {
    var h := Followed(env, code, ops);
    AddOneAloneFails(ops);
    SnocSession([], h[0], ops);
    assert [] + [h[0]] == [h[0]];
    SnocSession([h[0]], h[1], ops);
    assert [h[0]] + [h[1]] == h;
  }

  // The only code replayed in the session.
  ghost predicate ReplaysOnly(history: seq<Cell>, code: Stmts) {
    forall i :: 0 <= i < |history| && Replayed(history[i]) ==> history[i].code == Some(code)
  }

  lemma AloneRestores(code: Stmts, history: seq<Cell>, ops: Operators)
    requires SelfContained(code, ops) && Session(history, ops) && ReplaysOnly(history, code)
    ensures Restore(history, ops).ok
  {
    forall i | 0 <= i < |history| ensures Replayed(history[i]) <==> Settled(history[i]) {
      ReplayedIff(history[i]);
    }
    RestorationPreservesMeaning(history, ops);
  }

  // No session that replays only this code is stopped by it.
  ghost predicate NeverStops(code: Stmts, ops: Operators) {
    forall history :: Session(history, ops) && ReplaysOnly(history, code) ==> Restore(history, ops).ok
  }

  lemma AloneNeverStops(code: Stmts, ops: Operators)
    requires SelfContained(code, ops)
    ensures NeverStops(code, ops)
  {
    forall history | Session(history, ops) && ReplaysOnly(history, code) ensures Restore(history, ops).ok {
      AloneRestores(code, history, ops);
    }
  }

  lemma FollowedReplaysOnly(code: Stmts, env: Env, ops: Operators)
    ensures ReplaysOnly(Followed(env, code, ops), code)
  {
    AddOneAloneFails(ops);
  }

  // Safe code that completed somewhere runs alone exactly when no session that replays only it is stopped by it.
  lemma RestorableIff(code: Stmts, env: Env, ops: Operators)
    requires Policy(Some(code)) == N.Safe && Exec(code, Start(env), ops).ok
    ensures SelfContained(code, ops) <==> NeverStops(code, ops)
  {
    if SelfContained(code, ops) {
      AloneNeverStops(code, ops);
    } else {
      FollowedStops(code, env, ops);
      FollowedReplaysOnly(code, env, ops);
    }
  }

  lemma {:induction false} SessionHonest(history: seq<Cell>, i: nat, ops: Operators)
    requires Session(history, ops) && i < |history|
    ensures Honest(LiveEnv(history[..i], ops), history[i], ops)
  {
    var n := |history| - 1;
    if i < n {
      SessionHonest(history[..n], i, ops);
      assert history[..n][..i] == history[..i];
    }
  }

  // Why every replayed cell has to run alone or be sourced: the code of one that does neither stops some session.
  lemma UnsourcedStops(history: seq<Cell>, i: nat, ops: Operators)
    requires Session(history, ops) && i < |history| && !Sourced(history[..i], history[i], ops)
    ensures exists h :: Session(h, ops) && ReplaysOnly(h, history[i].code.value) && !Restore(h, ops).ok
  {
    var code, env := history[i].code.value, LiveEnv(history[..i], ops);
    SessionHonest(history, i, ops);
    ReplayedIff(history[i]);
    FollowedStops(code, env, ops);
    FollowedReplaysOnly(code, env, ops);
    assert Session(Followed(env, code, ops), ops);
  }

  method RestoreKernel(cells: seq<Cell>, ops: Operators) returns (kernel: Run)
    ensures kernel == Restore(cells, ops)
  {
    kernel := Start(map[]);
    for i := 0 to |cells|
      invariant kernel.ok && kernel == Restore(cells[..i], ops)
    {
      assert cells[..i + 1][..i] == cells[..i];
      var c := cells[i];
      if Replayed(c) {
        var restored := Exec(c.code.value, Start(kernel.env), ops);
        kernel := Run(restored.ok, [], restored.env, kernel.wrote + restored.wrote, kernel.calls + restored.calls);
        if !restored.ok {
          BlockedForGood(cells, i + 1, ops);
          return;
        }
      }
    }
    assert cells[..|cells|] == cells;
  }

  lemma {:induction false} BlockedForGood(cells: seq<Cell>, k: nat, ops: Operators)
    requires k <= |cells| && !Restore(cells[..k], ops).ok
    ensures Restore(cells, ops) == Restore(cells[..k], ops)
  {
    if k < |cells| {
      var n := |cells| - 1;
      assert cells[..n][..k] == cells[..k];
      BlockedForGood(cells[..n], k, ops);
    } else {
      assert cells[..k] == cells;
    }
  }

  // ---------------------------------------------------------------- augmented assignment

  const SET_ONE: Stmts := Then(Assign(["x"], Const(Num(1))), NoStmts)
  const SET_CALL: Stmts := Then(Assign(["x"], Call(Load("f"), NoExprs)), NoStmts)
  const ADD_ONE: Stmts := Then(AugAssign("x", "+", Const(Num(1))), NoStmts)

  // x = 1; a cell that is not replayed leaves x = 10; then x += 1, classed safe because its target is only stored to.
  function Augmented(): seq<Cell> {
    [Cell(Some(SET_ONE), Completed, {"x"}, map["x" := Num(1)]),
     Cell(Some(SET_CALL), Completed, {"x"}, map["x" := Num(10)]),
     Cell(Some(ADD_ONE), Completed, {"x"}, map["x" := Num(11)])]
  }

  lemma SetOneRuns(ops: Operators)
    ensures var r := Exec(SET_ONE, Start(map[]), ops);
            r.ok && r.env == map["x" := Num(1)] && r.wrote == {"x"} && r.calls == 0
    ensures Policy(Some(SET_ONE)) == N.Safe
  {
    var v := Eval(Const(Num(1)), Start(map[]), ops);
    assert StoreAll(v, ["x"], Num(1)) == StoreAll(Store(v, "x", Num(1)), ["x"][1..], Num(1));
    assert ["x"][1..] == [];
  }

  lemma AddOneRuns(n: int, ops: Operators)
    requires ops("+", [Num(n), Num(1)]) == Some(Num(n + 1))
    ensures var r := Exec(ADD_ONE, Start(map["x" := Num(n)]), ops);
            r.ok && r.env == map["x" := Num(n + 1)] && r.wrote == {"x"} && r.calls == 0
  {
    var env: Env := map["x" := Num(n)];
    assert env["x"] == Num(n);
  }

  lemma AddOneAloneFails(ops: Operators)
    ensures !Exec(ADD_ONE, Start(map[]), ops).ok && Policy(Some(ADD_ONE)) == N.Safe
    ensures Policy(Some(SET_CALL)) != N.Safe
  {
  }

  lemma SnocSession(history: seq<Cell>, c: Cell, ops: Operators)
    requires Session(history, ops) && Honest(LiveEnv(history, ops), c, ops)
    ensures Session(history + [c], ops)
    ensures c.outcome.Completed? ==> LiveEnv(history + [c], ops) == c.after
    ensures Restore(history, ops).ok && !Replayed(c) ==> Restore(history + [c], ops) == Restore(history, ops)
    ensures Restore(history, ops).ok && Replayed(c) ==>
      var a := Exec(c.code.value, Start(Restore(history, ops).env), ops);
      Restore(history + [c], ops).ok == a.ok && Restore(history + [c], ops).env == a.env
  {
    assert (history + [c])[..|history|] == history;
  }

  lemma AugmentedStart(ops: Operators)
    ensures var h := [Augmented()[0], Augmented()[1]];
            && Session(h, ops) && LiveEnv(h, ops) == map["x" := Num(10)]
            && Restore(h, ops).ok && Restore(h, ops).env == map["x" := Num(1)]
  {
    var h := Augmented();
    SetOneRuns(ops);
    AddOneAloneFails(ops);
    SnocSession([], h[0], ops);
    assert [] + [h[0]] == [h[0]];
    SnocSession([h[0]], h[1], ops);
    assert [h[0]] + [h[1]] == [h[0], h[1]];
  }

  // x += 1 after a session in which x is n, and m in the restored kernel.
  lemma AddOneAfter(history: seq<Cell>, n: int, m: int, ops: Operators)
    requires ops("+", [Num(n), Num(1)]) == Some(Num(n + 1)) && ops("+", [Num(m), Num(1)]) == Some(Num(m + 1))
    requires Session(history, ops) && LiveEnv(history, ops) == map["x" := Num(n)]
    requires Restore(history, ops).ok && Restore(history, ops).env == map["x" := Num(m)]
    ensures var h := history + [Cell(Some(ADD_ONE), Completed, {"x"}, map["x" := Num(n + 1)])];
            && Session(h, ops) && LiveEnv(h, ops) == map["x" := Num(n + 1)]
            && Restore(h, ops).ok && Restore(h, ops).env == map["x" := Num(m + 1)]
  {
    AddOneRuns(n, ops);
    AddOneRuns(m, ops);
    AddOneAloneFails(ops);
    SnocSession(history, Cell(Some(ADD_ONE), Completed, {"x"}, map["x" := Num(n + 1)]), ops);
  }

  lemma AugmentedSession(ops: Operators)
    requires ops("+", [Num(1), Num(1)]) == Some(Num(2)) && ops("+", [Num(10), Num(1)]) == Some(Num(11))
    ensures var h := Augmented();
            && Session(h, ops) && LiveEnv(h, ops) == h[2].after
            && Restore(h, ops).ok && Restore(h, ops).env == map["x" := Num(2)]
  {
    var h := Augmented();
    AugmentedStart(ops);
    AddOneAfter([h[0], h[1]], 10, 1, ops);
    assert [h[0], h[1]] + [h[2]] == h;
  }

  // When a replayed cell reads a name that another kind of cell wrote last, restoration can give a wrong value: 2 for
  // 11.
  lemma AugmentedIsRestoredWrongly(ops: Operators)
    requires ops("+", [Num(1), Num(1)]) == Some(Num(2)) && ops("+", [Num(10), Num(1)]) == Some(Num(11))
    ensures var h := Augmented();
            && Session(h, ops) && LastWriter(h, "x") == Some(2) && Replayed(h[2])
            && LiveEnv(h, ops) == map["x" := Num(11)]
            && Restore(h, ops).ok && Restore(h, ops).env == map["x" := Num(2)]
  {
    AddOneAloneFails(ops);
    AugmentedSession(ops);
  }

  // Or fail outright, when the name's earlier writer is not replayed.
  lemma AugmentedBlocksRestoration(ops: Operators)
    requires ops("+", [Num(10), Num(1)]) == Some(Num(11))
    ensures var h := Augmented()[1..]; Session(h, ops) && Replayed(h[1]) && !Restore(h, ops).ok
  {
    var h := Augmented();
    AddOneRuns(10, ops);
    AddOneAloneFails(ops);
    SnocSession([], h[1], ops);
    assert [] + [h[1]] == [h[1]];
    SnocSession([h[1]], h[2], ops);
    assert [h[1]] + [h[2]] == h[1..];
  }
}
