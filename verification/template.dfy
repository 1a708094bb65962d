/**
 * The executor (template.go): walks a parsed tree against a symbol table and
 * writes the output to a writer.
 *
 * `RenderNodes`/`RenderNode`/`RenderElems` state what a walk does as a
 * `Trace`: the writes it makes, in order, and why it stops early, if it does.
 * `Run` plays a trace against a writer that may refuse writes. The methods
 * `ExecuteRecurse`/`ExecuteNode` drive a `Writer` object and are proved to
 * leave it, and return, exactly what `Run` of the trace says.
 *
 * Includes are looked up in a `Library`, the trees of a template set by name
 * (`None` when a template is executed on its own). The source recurses into
 * included templates without bound; the model counts nested includes with
 * `fuel` and stops with `OutOfFuel` when it runs out, which stands for a walk
 * that does not end.
 */
module Templates {
  import opened Wrappers
  import opened Values
  import opened Tree
  import opened Sym
  import opened Filters

  /** Why an execution stopped early. */
  datatype ExecError =
    | WriteError              // the writer refused a write
    | PrintPanic              // a printed key is bound to nil: `Interface()` panics
    | OutOfFuel               // includes nested deeper than the fuel allows
    | NotFound(name: string)  // `Set.Execute` of a name the set does not hold

  /** The writes a walk makes, in order, and why it stopped early, if it did. */
  datatype Trace = Trace(writes: seq<string>, stop: Option<ExecError>)

  const Done := Trace([], None)

  /** `a` followed by `b`, unless `a` stopped early. */
  function Then(a: Trace, b: Trace): Trace {
    if a.stop.Some? then a else Trace(a.writes + b.writes, b.stop)
  }

  /** The trees of a template set by name, or `None` when there is no set. */
  type Library = Option<map<string, seq<Node>>>

  // ---------------------------------------------------------------------
  // What a walk writes
  // ---------------------------------------------------------------------

  /** The loop of `executeRecurse`: the nodes one after the other. */
  function RenderNodes(lib: Library, sym: SymTab, ns: seq<Node>, fuel: nat): Trace
    decreases fuel, ns
  {
    if ns == [] then Done
    else Then(RenderNode(lib, sym, ns[0], fuel), RenderNodes(lib, sym, ns[1..], fuel))
  }

  /** The symbol table an array element is walked with. */
  function ElemScope(sym: SymTab, elem: Value): SymTab {
    if elem.Map? then EnterObject(sym, elem.entries) else EnterArrayElem(sym, elem)
  }

  /** One case of the type switch of `executeRecurse`. */
  function RenderNode(lib: Library, sym: SymTab, n: Node, fuel: nat): Trace
    decreases fuel, n
  {
    match n
    case ArraySection(name, body) =>
      (match Array(sym, name)
       case None => Done
       case Some(items) => RenderElems(lib, sym, n, items, 0, fuel))
    case IfdefSection(name, body) =>
      if Ifdef(sym, name) then RenderNodes(lib, sym, body, fuel) else Done
    case IfndefSection(name, body) =>
      if Ifndef(sym, name) then RenderNodes(lib, sym, body, fuel) else Done
    case Include(name) =>
      if lib.None? || name !in lib.value then Done
      else if fuel == 0 then Trace([], Some(OutOfFuel))
      else RenderNodes(lib, sym, lib.value[name], fuel - 1)
    case ObjectSection(name, body) =>
      (match Object(sym, name)
       case None => Done
       case Some(obj) => RenderNodes(lib, EnterObject(sym, obj), body, fuel))
    case Print(name) =>
      (match Sym.Print(sym, name)
       case None => Trace([], Some(PrintPanic))
       case Some(s) => Trace([s], None))
    case StringLit(val) => Trace([val], None)
  }

  /** The body of array section `n` once per element, from element `i` on. */
  function RenderElems(lib: Library, sym: SymTab, n: Node, items: seq<Value>, i: nat, fuel: nat): Trace
    requires n.ArraySection? && i <= |items|
    decreases fuel, n, |items| - i
  {
    if i == |items| then Done
    else Then(RenderNodes(lib, ElemScope(sym, items[i]), n.nodes, fuel),
              RenderElems(lib, sym, n, items, i + 1, fuel))
  }

  // ---------------------------------------------------------------------
  // The writer
  // ---------------------------------------------------------------------

  /**
   * What a writer holds: the bytes written so far and how many more writes it
   * accepts (`None`: any number).
   */
  datatype Sink = Sink(data: string, quota: Option<nat>)

  /** The sink after it accepted `b`. */
  function Accept(s: Sink, b: string): Sink
    requires s.quota != Some(0)
  {
    Sink(s.data + b, if s.quota.Some? then Some(s.quota.value - 1) else None)
  }

  /** The sink after a walk, and what the walk returns. */
  datatype Outcome = Outcome(sink: Sink, err: Option<ExecError>)

  /** The writes of `t` played against `s`; the first refused write ends the walk. */
  function Run(t: Trace, s: Sink): Outcome
    decreases |t.writes|
  {
    if t.writes == [] then Outcome(s, t.stop)
    else if s.quota == Some(0) then Outcome(s, Some(WriteError))
    else Run(Trace(t.writes[1..], t.stop), Accept(s, t.writes[0]))
  }

  /** All the writes of a trace, joined. */
  function Concat(ws: seq<string>): string {
    if ws == [] then "" else ws[0] + Concat(ws[1..])
  }

  /** An `io.Writer` that accepts `quota` writes, then refuses every write. */
  class Writer {
    var data: string
    var quota: Option<nat>

    constructor (quota: Option<nat>)
      ensures data == "" && this.quota == quota
    {
      data := "";
      this.quota := quota;
    }

    function State(): Sink
      reads this
    {
      Sink(data, quota)
    }

    method Write(b: string) returns (ok: bool)
      modifies this
      ensures ok <==> old(quota) != Some(0)
      ensures ok ==> State() == Accept(old(State()), b)
      ensures !ok ==> State() == old(State())
    {
      if quota == Some(0) {
        return false;
      }
      data := data + b;
      if quota.Some? {
        quota := Some(quota.value - 1);
      }
      return true;
    }
  }

  // ---------------------------------------------------------------------
  // The walk itself
  // ---------------------------------------------------------------------

  /** `executeRecurse`: the writer ends up, and the result is, what `Run` of the walk's trace says. */
  method ExecuteRecurse(wr: Writer, lib: Library, sym: SymTab, tree: seq<Node>, fuel: nat)
    returns (err: Option<ExecError>)
    modifies wr
    ensures Outcome(wr.State(), err) == Run(RenderNodes(lib, sym, tree, fuel), old(wr.State()))
    decreases fuel, tree
  {
    var i := 0;
    while i < |tree|
      invariant 0 <= i <= |tree|
      invariant Run(RenderNodes(lib, sym, tree[i..], fuel), wr.State())
                == Run(RenderNodes(lib, sym, tree, fuel), old(wr.State()))
    {
      assert tree[i..][1..] == tree[i + 1..];
      RunThen(RenderNode(lib, sym, tree[i], fuel), RenderNodes(lib, sym, tree[i + 1..], fuel), wr.State());
      err := ExecuteNode(wr, lib, sym, tree[i], fuel);
      if err.Some? {
        return;
      }
      i := i + 1;
    }
    return None;
  }

  /** One node of `executeRecurse`, with the same guarantee. */
  method ExecuteNode(wr: Writer, lib: Library, sym: SymTab, n: Node, fuel: nat)
    returns (err: Option<ExecError>)
    modifies wr
    ensures Outcome(wr.State(), err) == Run(RenderNode(lib, sym, n, fuel), old(wr.State()))
    decreases fuel, n
  {
    match n
    case ArraySection(name, body) =>
      var found := Array(sym, name);
      if found.Some? {
        var items := found.value;
        var i := 0;
        while i < |items|
          invariant 0 <= i <= |items|
          invariant Run(RenderElems(lib, sym, n, items, i, fuel), wr.State())
                    == Run(RenderNode(lib, sym, n, fuel), old(wr.State()))
        {
          var inner := ElemScope(sym, items[i]);
          RunThen(RenderNodes(lib, inner, body, fuel), RenderElems(lib, sym, n, items, i + 1, fuel), wr.State());
          err := ExecuteRecurse(wr, lib, inner, body, fuel);
          if err.Some? {
            return;
          }
          i := i + 1;
        }
      }
      return None;
    case IfdefSection(name, body) =>
      if Ifdef(sym, name) {
        err := ExecuteRecurse(wr, lib, sym, body, fuel);
      } else {
        err := None;
      }
    case IfndefSection(name, body) =>
      if Ifndef(sym, name) {
        err := ExecuteRecurse(wr, lib, sym, body, fuel);
      } else {
        err := None;
      }
    case Include(name) =>
      if lib.None? || name !in lib.value {
        err := None;
      } else if fuel == 0 {
        err := Some(OutOfFuel);
      } else {
        err := ExecuteRecurse(wr, lib, sym, lib.value[name], fuel - 1);
      }
    case ObjectSection(name, body) =>
      var obj := Object(sym, name);
      if obj.Some? {
        err := ExecuteRecurse(wr, lib, EnterObject(sym, obj.value), body, fuel);
      } else {
        err := None;
      }
    case Print(name) =>
      var s := Sym.Print(sym, name);
      if s.None? {
        err := Some(PrintPanic);
      } else {
        var ok := wr.Write(s.value);
        err := if ok then None else Some(WriteError);
      }
    case StringLit(val) =>
      var ok := wr.Write(val);
      err := if ok then None else Some(WriteError);
  }

  // ---------------------------------------------------------------------
  // Running a trace
  // ---------------------------------------------------------------------

  /** Running `a` then `b` is running `a`, and then `b` from where `a` left the writer unless `a` stopped. */
  lemma {:induction false} RunThen(a: Trace, b: Trace, s: Sink)
    ensures Run(Then(a, b), s)
            == (var o := Run(a, s); if o.err.Some? then o else Run(b, o.sink))
    ensures a.stop.Some? ==> Run(a, s).err.Some?
    decreases |a.writes|
  {
    if a.writes != [] && s.quota != Some(0) {
      var a' := Trace(a.writes[1..], a.stop);
      if a.stop.None? {
        assert Then(a, b).writes[1..] == a'.writes + b.writes;
      }
      RunThen(a', b, Accept(s, a.writes[0]));
    } else if a.stop.None? {
      assert Then(a, b).writes == a.writes + b.writes;
      if a.writes == [] {
        assert Then(a, b) == b;
      } else {
        assert Then(a, b).writes[0] == a.writes[0];
      }
    }
  }

  /**
   * Output that was written stays written: a writer with room for every write
   * receives all of them and the walk ends as the trace does; a writer that
   * refuses write number `q` (counting from zero) keeps the first `q` and the
   * walk ends with `WriteError`.
   */
  lemma {:induction false} RunOutput(t: Trace, s: Sink)
    ensures s.quota.None? || s.quota.value >= |t.writes| ==>
              Run(t, s) == Outcome(Sink(s.data + Concat(t.writes),
                                        if s.quota.None? then None else Some(s.quota.value - |t.writes|)),
                                   t.stop)
    ensures s.quota.Some? && s.quota.value < |t.writes| ==>
              Run(t, s) == Outcome(Sink(s.data + Concat(t.writes[..s.quota.value]), Some(0)), Some(WriteError))
    decreases |t.writes|
  {
    if t.writes != [] && s.quota != Some(0) {
      var t' := Trace(t.writes[1..], t.stop);
      var s' := Accept(s, t.writes[0]);
      RunOutput(t', s');
      if s.quota.Some? && s.quota.value < |t.writes| {
        assert t.writes[..s.quota.value][1..] == t'.writes[..s'.quota.value];
      }
    }
  }

  // ---------------------------------------------------------------------
  // Properties of the walk
  // ---------------------------------------------------------------------

  lemma {:induction false} ThenDone(a: Trace)
    ensures Then(a, Done) == a && Then(Done, a) == a
  {
  }

  lemma {:induction false} ThenAssoc(a: Trace, b: Trace, c: Trace)
    ensures Then(Then(a, b), c) == Then(a, Then(b, c))
  {
    if a.stop.None? && b.stop.None? {
      assert (a.writes + b.writes) + c.writes == a.writes + (b.writes + c.writes);
    }
  }

  /** Walking a concatenation of trees is walking one after the other. */
  lemma {:induction false} RenderConcat(lib: Library, sym: SymTab, a: seq<Node>, b: seq<Node>, fuel: nat)
    ensures RenderNodes(lib, sym, a + b, fuel) == Then(RenderNodes(lib, sym, a, fuel), RenderNodes(lib, sym, b, fuel))
    decreases |a|
  {
    if a == [] {
      assert a + b == b;
      ThenDone(RenderNodes(lib, sym, b, fuel));
    } else {
      assert (a + b)[0] == a[0] && (a + b)[1..] == a[1..] + b;
      RenderConcat(lib, sym, a[1..], b, fuel);
      ThenAssoc(RenderNode(lib, sym, a[0], fuel), RenderNodes(lib, sym, a[1..], fuel), RenderNodes(lib, sym, b, fuel));
    }
  }

  /** Of an ifdef and an ifndef section on the same key, exactly one walks its body. */
  lemma {:induction false} IfdefIfndefExclusive(lib: Library, sym: SymTab, name: string, body: seq<Node>, fuel: nat)
    ensures var both := RenderNodes(lib, sym, body, fuel);
            var yes := RenderNode(lib, sym, IfdefSection(name, body), fuel);
            var no := RenderNode(lib, sym, IfndefSection(name, body), fuel);
            (yes == both && no == Done) || (yes == Done && no == both)
    ensures RenderNode(lib, sym, IfdefSection(name, body), fuel) == RenderNodes(lib, sym, body, fuel)
            <== Ifdef(sym, name)
  {
  }

  /** An include of a name the set does not hold, or without a set, writes nothing. */
  lemma {:induction false} IncludeMissing(lib: Library, sym: SymTab, name: string, fuel: nat)
    requires lib.None? || name !in lib.value
    ensures RenderNode(lib, sym, Include(name), fuel) == Done
  {
  }

  /** An include of a name the set holds walks that template's tree in place. */
  lemma {:induction false} IncludeFound(lib: Library, sym: SymTab, name: string, fuel: nat)
    requires lib.Some? && name in lib.value && fuel > 0
    ensures RenderNode(lib, sym, Include(name), fuel) == RenderNodes(lib, sym, lib.value[name], fuel - 1)
  {
  }

  /**
   * Without a set the fuel plays no part: includes write nothing, the walk
   * never runs out of fuel and its trace is the same for every fuel.
   */
  lemma {:induction false} NoLibraryNodes(sym: SymTab, ns: seq<Node>, fuel: nat)
    ensures RenderNodes(None, sym, ns, fuel) == RenderNodes(None, sym, ns, 0)
    ensures RenderNodes(None, sym, ns, fuel).stop != Some(OutOfFuel)
    decreases ns, 1
  {
    if ns != [] {
      NoLibraryNode(sym, ns[0], fuel);
      NoLibraryNodes(sym, ns[1..], fuel);
    }
  }

  lemma {:induction false} NoLibraryNode(sym: SymTab, n: Node, fuel: nat)
    ensures RenderNode(None, sym, n, fuel) == RenderNode(None, sym, n, 0)
    ensures RenderNode(None, sym, n, fuel).stop != Some(OutOfFuel)
    decreases n, 1
  {
    match n
    case ArraySection(name, body) =>
      if Array(sym, name).Some? {
        NoLibraryElems(sym, n, Array(sym, name).value, 0, fuel);
      }
    case IfdefSection(name, body) => NoLibraryNodes(sym, body, fuel);
    case IfndefSection(name, body) => NoLibraryNodes(sym, body, fuel);
    case ObjectSection(name, body) =>
      if Object(sym, name).Some? {
        NoLibraryNodes(EnterObject(sym, Object(sym, name).value), body, fuel);
      }
    case Include(_) =>
    case Print(_) =>
    case StringLit(_) =>
  }

  lemma {:induction false} NoLibraryElems(sym: SymTab, n: Node, items: seq<Value>, i: nat, fuel: nat)
    requires n.ArraySection? && i <= |items|
    ensures RenderElems(None, sym, n, items, i, fuel) == RenderElems(None, sym, n, items, i, 0)
    ensures RenderElems(None, sym, n, items, i, fuel).stop != Some(OutOfFuel)
    decreases n, 0, |items| - i
  {
    if i < |items| {
      NoLibraryNodes(ElemScope(sym, items[i]), n.nodes, fuel);
      NoLibraryElems(sym, n, items, i + 1, fuel);
    }
  }

  /**
   * Enough fuel is enough: a walk that does not run out of fuel writes the
   * same with more.
   */
  lemma {:induction false} FuelNodes(lib: Library, sym: SymTab, ns: seq<Node>, fuel: nat)
    requires RenderNodes(lib, sym, ns, fuel).stop != Some(OutOfFuel)
    ensures RenderNodes(lib, sym, ns, fuel + 1) == RenderNodes(lib, sym, ns, fuel)
    decreases fuel, ns, 1
  {
    if ns != [] {
      FuelNode(lib, sym, ns[0], fuel);
      if RenderNode(lib, sym, ns[0], fuel).stop.None? {
        FuelNodes(lib, sym, ns[1..], fuel);
      }
    }
  }

  lemma {:induction false} FuelNode(lib: Library, sym: SymTab, n: Node, fuel: nat)
    requires RenderNode(lib, sym, n, fuel).stop != Some(OutOfFuel)
    ensures RenderNode(lib, sym, n, fuel + 1) == RenderNode(lib, sym, n, fuel)
    decreases fuel, n, 1
  {
    match n
    case ArraySection(name, body) =>
      if Array(sym, name).Some? {
        FuelElems(lib, sym, n, Array(sym, name).value, 0, fuel);
      }
    case IfdefSection(name, body) =>
      if Ifdef(sym, name) { FuelNodes(lib, sym, body, fuel); }
    case IfndefSection(name, body) =>
      if Ifndef(sym, name) { FuelNodes(lib, sym, body, fuel); }
    case ObjectSection(name, body) =>
      if Object(sym, name).Some? {
        FuelNodes(lib, EnterObject(sym, Object(sym, name).value), body, fuel);
      }
    case Include(name) =>
      if lib.Some? && name in lib.value {
        FuelNodes(lib, sym, lib.value[name], fuel - 1);
      }
    case Print(_) =>
    case StringLit(_) =>
  }

  lemma {:induction false} FuelElems(lib: Library, sym: SymTab, n: Node, items: seq<Value>, i: nat, fuel: nat)
    requires n.ArraySection? && i <= |items|
    requires RenderElems(lib, sym, n, items, i, fuel).stop != Some(OutOfFuel)
    ensures RenderElems(lib, sym, n, items, i, fuel + 1) == RenderElems(lib, sym, n, items, i, fuel)
    decreases fuel, n, 0, |items| - i
  {
    if i < |items| {
      FuelNodes(lib, ElemScope(sym, items[i]), n.nodes, fuel);
      if RenderNodes(lib, ElemScope(sym, items[i]), n.nodes, fuel).stop.None? {
        FuelElems(lib, sym, n, items, i + 1, fuel);
      }
    }
  }

  // ---------------------------------------------------------------------
  // Worked examples (template_test.go)
  // ---------------------------------------------------------------------

  /** `0{{+a}}1{{/a}}2` and `0{{-a}}1{{/a}}2` with `a` bound to the empty string. */
  lemma {:induction false} IfdefExamples()
    ensures var sym := NewSymTab(map["a" := Scalar("")]);
            && Run(RenderNodes(None, sym, [StringLit("0"), IfdefSection("a", [StringLit("1")]), StringLit("2")], 0),
                   Sink("", None)) == Outcome(Sink("012", None), None)
            && Run(RenderNodes(None, sym, [StringLit("0"), IfndefSection("a", [StringLit("1")]), StringLit("2")], 0),
                   Sink("", None)) == Outcome(Sink("02", None), None)
  {
    var sym := NewSymTab(map["a" := Scalar("")]);
    var t1 := RenderNodes(None, sym, [StringLit("0"), IfdefSection("a", [StringLit("1")]), StringLit("2")], 0);
    assert t1 == Trace(["0", "1", "2"], None);
    RunOutput(t1, Sink("", None));
    var t2 := RenderNodes(None, sym, [StringLit("0"), IfndefSection("a", [StringLit("1")]), StringLit("2")], 0);
    assert t2 == Trace(["0", "2"], None);
    RunOutput(t2, Sink("", None));
  }

  /** The same template from its source text: parsed, then executed, it writes `012`. */
  lemma {:induction false} IfdefSourceExample()
    ensures Parse("", "0{{+a}}1{{/a}}2").Ok?
    ensures Run(RenderNodes(None, NewSymTab(map["a" := Scalar("")]), Parse("", "0{{+a}}1{{/a}}2").value, 0),
                Sink("", None)) == Outcome(Sink("012", None), None)
  {
    assert "0{{+a}}1{{/a}}2" == "0" + "{{+" + "a" + "}}" + "1" + "{{/" + "a" + "}}" + "2";
    ParseIfdefExample("0", "a", "1", "2");
    IfdefExamples();
  }

  /** `{{$a}}{{$a}}{{*b}}{{/a}}{{/a}}`: the inner `a` is found in the outer frame. */
  lemma {:induction false} ObjectNestExample()
    ensures var sym := NewSymTab(map["a" := Map(map["b" := Scalar("0")])]);
            RenderNodes(None, sym, [ObjectSection("a", [ObjectSection("a", [Print("b")])])], 0) == Trace(["0"], None)
  {
    var sym := NewSymTab(map["a" := Map(map["b" := Scalar("0")])]);
    var once := EnterObject(sym, map["b" := Scalar("0")]);
    assert Object(once, "a") == Some(map["b" := Scalar("0")]);
    var twice := EnterObject(once, map["b" := Scalar("0")]);
    assert Sym.Print(twice, "b") == Some("0");
  }

  /** `{{#a}}{{*}}{{/a}}` over `[0, 1]`: each element is printed in turn. */
  lemma {:induction false} ArrayExample()
    ensures var sym := NewSymTab(map["a" := Seq([Scalar("0"), Scalar("1")])]);
            RenderNodes(None, sym, [ArraySection("a", [Print("")])], 0) == Trace(["0", "1"], None)
  {
    var sym := NewSymTab(map["a" := Seq([Scalar("0"), Scalar("1")])]);
    var n := ArraySection("a", [Print("")]);
    assert Array(sym, "a") == Some([Scalar("0"), Scalar("1")]);
    assert RenderElems(None, sym, n, [Scalar("0"), Scalar("1")], 1, 0) == Trace(["1"], None);
  }

  /** `{{#a}}{{*b}}{{/a}}` over `[{b: 0}, {b: 1}]`: each mapping element becomes the innermost frame. */
  lemma {:induction false} ArrayObjectExample()
    ensures var sym := NewSymTab(map["a" := Seq([Map(map["b" := Scalar("0")]), Map(map["b" := Scalar("1")])])]);
            RenderNodes(None, sym, [ArraySection("a", [Print("b")])], 0) == Trace(["0", "1"], None)
  {
    var items := [Map(map["b" := Scalar("0")]), Map(map["b" := Scalar("1")])];
    var sym := NewSymTab(map["a" := Seq(items)]);
    var n := ArraySection("a", [Print("b")]);
    assert Array(sym, "a") == Some(items);
    assert Sym.Print(ElemScope(sym, items[1]), "b") == Some("1");
    assert RenderElems(None, sym, n, items, 1, 0) == Trace(["1"], None);
    assert Sym.Print(ElemScope(sym, items[0]), "b") == Some("0");
  }

  /** A printed key bound to nil stops the walk with a panic, after what was already written. */
  lemma {:induction false} PrintNilExample()
    ensures var sym := NewSymTab(map["a" := Nil]);
            Run(RenderNodes(None, sym, [StringLit("0"), Print("a"), StringLit("1")], 0), Sink("", None))
            == Outcome(Sink("0", None), Some(PrintPanic))
  {
    var sym := NewSymTab(map["a" := Nil]);
    var t := RenderNodes(None, sym, [StringLit("0"), Print("a"), StringLit("1")], 0);
    assert t == Trace(["0"], Some(PrintPanic));
    RunOutput(t, Sink("", None));
  }

  // ---------------------------------------------------------------------
  // Compiled templates
  // ---------------------------------------------------------------------

  /** A compiled template: its name in a set and its tree. */
  class Template {
    var name: string
    var tree: seq<Node>

    constructor (tree: seq<Node>)
      ensures name == "" && this.tree == tree
    {
      name := "";
      this.tree := tree;
    }

    /** `Parse`: a fresh unnamed template holding the tree, or the parse error. */
    static method Parse(text: string) returns (r: Result<Template, ParseError>)
      ensures r.Ok? <==> Tree.Parse("", text).Ok?
      ensures r.Ok? ==> fresh(r.value) && r.value.name == "" && r.value.tree == Tree.Parse("", text).value
      ensures r.Err? ==> r.error == Tree.Parse("", text).error
    {
      var tree := ParseTemplate("", text);
      if tree.Err? {
        return Err(tree.error);
      }
      var t := new Template(tree.value);
      return Ok(t);
    }

    /** `Execute`: the walk of the tree against `data`, with no set to include from. */
    method Execute(wr: Writer, data: map<string, Value>) returns (err: Option<ExecError>)
      modifies wr
      ensures Outcome(wr.State(), err) == Run(RenderNodes(None, NewSymTab(data), tree, 0), old(wr.State()))
    {
      err := ExecuteRecurse(wr, None, NewSymTab(data), tree, 0);
    }

    /** `Filter`: every string of the tree rewritten by the filters. */
    method Filter(flags: Flags)
      modifies this
      ensures tree == FilterTree(old(tree), flags) && name == old(name)
    {
      tree := FilterPass(tree, flags);
    }

    method SetName(name: string)
      modifies this
      ensures this.name == name && tree == old(tree)
    {
      this.name := name;
    }
  }
}
