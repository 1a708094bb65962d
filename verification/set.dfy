/**
 * Template sets (set.go): templates registered by name, which can include
 * each other.
 *
 * The set holds references to `Template` objects, so a template changed
 * after it was added (renamed, filtered) is seen changed through the set,
 * under the name it was added with.
 */
module Sets {
  import opened Wrappers
  import opened Values
  import opened Tree
  import opened Sym
  import opened Templates

  class Set {
    var cache: map<string, Template>

    /** `NewSet`: an empty set. */
    constructor ()
      ensures cache == map[]
    {
      cache := map[];
    }

    /** `Add`: registers `t` under its current name, replacing any template of that name. */
    method Add(t: Template)
      modifies this
      ensures cache == old(cache)[t.name := t]
    {
      cache := cache[t.name := t];
    }

    /** `Del`: forgets the template of that name, if there is one. */
    method Del(name: string)
      modifies this
      ensures cache == old(cache) - {name}
    {
      cache := cache - {name};
    }

    /** `template`: the template registered under `name`, if any. */
    method Lookup(name: string) returns (t: Option<Template>)
      ensures t.Some? <==> name in cache
      ensures t.Some? ==> t.value == cache[name]
    {
      if name in cache {
        return Some(cache[name]);
      }
      return None;
    }

    /** What includes see while the set executes: the trees of its templates by name. */
    function Trees(): Library
      reads this, cache.Values
    {
      Some(map name | name in cache :: cache[name].tree)
    }

    /**
     * `Execute`: a name the set does not hold is an error and writes nothing;
     * otherwise the template's tree is walked against `data` with the set's
     * templates to include from.
     */
    method Execute(wr: Writer, name: string, data: map<string, Value>, fuel: nat) returns (err: Option<ExecError>)
      modifies wr
      ensures name !in cache ==> err == Some(NotFound(name)) && wr.State() == old(wr.State())
      ensures name in cache ==>
                Outcome(wr.State(), err) == Run(RenderNodes(Trees(), NewSymTab(data), cache[name].tree, fuel), old(wr.State()))
    {
      var t := Lookup(name);
      if t.None? {
        return Some(NotFound(name));
      }
      err := ExecuteRecurse(wr, Trees(), NewSymTab(data), t.value.tree, fuel);
    }
  }

  /** template_test.go: `foo` = `0{{>bar}}2` including `bar` = `1` writes `012`. */
  lemma {:induction false} IncludeExample()
    ensures var lib := Some(map["foo" := [StringLit("0"), Include("bar"), StringLit("2")], "bar" := [StringLit("1")]]);
            Run(RenderNodes(lib, NewSymTab(map[]), [StringLit("0"), Include("bar"), StringLit("2")], 1), Sink("", None))
            == Outcome(Sink("012", None), None)
  {
    var lib := Some(map["foo" := [StringLit("0"), Include("bar"), StringLit("2")], "bar" := [StringLit("1")]]);
    var t := RenderNodes(lib, NewSymTab(map[]), [StringLit("0"), Include("bar"), StringLit("2")], 1);
    assert RenderNode(lib, NewSymTab(map[]), Include("bar"), 1) == Trace(["1"], None);
    assert t == Trace(["0", "1", "2"], None);
    RunOutput(t, Sink("", None));
  }

  /** A template that includes itself runs out of any fuel, having written its prefix each time round. */
  lemma {:induction false} SelfIncludeExample(fuel: nat)
    ensures var lib := Some(map["loop" := [StringLit("x"), Include("loop")]]);
            RenderNodes(lib, NewSymTab(map[]), [StringLit("x"), Include("loop")], fuel).stop == Some(OutOfFuel)
    decreases fuel
  {
    var lib := Some(map["loop" := [StringLit("x"), Include("loop")]]);
    if fuel > 0 {
      SelfIncludeExample(fuel - 1);
      assert RenderNode(lib, NewSymTab(map[]), Include("loop"), fuel)
             == RenderNodes(lib, NewSymTab(map[]), [StringLit("x"), Include("loop")], fuel - 1);
    }
  }
}
