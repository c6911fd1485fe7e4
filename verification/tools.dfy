/**
 * The tool registry: the tool schemas offered to the model (`tools`) and the
 * name → handler table (`getHandlers`), both built from the discovered
 * handler modules in discovery order. Module discovery is an input; a handler
 * already bound to the application state is the opaque value `H`.
 */
module Tools {
  import opened Common

  datatype ToolConfig = ToolConfig(name: string, description: string)

  /** A discovered module: it may export a `config`, a `handler`, both or neither. */
  datatype Module<H> = Module(config: Option<ToolConfig>, handler: Option<H>)

  /** `mod && mod.config && mod.handler`. */
  predicate Usable<H>(m: Module<H>) {
    m.config.Some? && m.handler.Some?
  }

  /** `tools`: the configs of the usable modules, in module order. */
  function ToolList<H>(mods: seq<Module<H>>): (r: seq<ToolConfig>)
    decreases |mods|
    ensures |r| <= |mods|
  {
    if |mods| == 0 then []
    else
      var last := mods[|mods| - 1];
      ToolList(mods[..|mods| - 1]) + (if Usable(last) then [last.config.value] else [])
  }

  /** The tool list holds exactly the configs of the usable modules. */
  lemma {:induction false} ToolListMembers<H>(mods: seq<Module<H>>)
    ensures forall c :: c in ToolList(mods) <==> exists j :: 0 <= j < |mods| && Usable(mods[j]) && mods[j].config.value == c
    decreases |mods|
  {
    if |mods| > 0 {
      var init := mods[..|mods| - 1];
      ToolListMembers(init);
      assert forall j :: 0 <= j < |init| ==> init[j] == mods[j];
    }
  }

  /** The handler of the last usable module named `name`, if any; the reference for `getHandlers`. */
  function LastHandler<H>(mods: seq<Module<H>>, name: string): (r: Option<H>)
    decreases |mods|
  {
    if |mods| == 0 then None
    else
      var last := mods[|mods| - 1];
      if Usable(last) && last.config.value.name == name then Some(last.handler.value)
      else LastHandler(mods[..|mods| - 1], name)
  }

  /** Registers under `name` the handler of the last usable module with that name, and nothing when there is none. */
  lemma {:induction false} LastHandlerIsLast<H>(mods: seq<Module<H>>, name: string)
    ensures var r := LastHandler(mods, name);
      && (r.Some? ==>
          exists j :: (&& 0 <= j < |mods| && Usable(mods[j]) && mods[j].config.value.name == name
                       && mods[j].handler.value == r.value
                       && forall k :: j < k < |mods| ==> !(Usable(mods[k]) && mods[k].config.value.name == name)))
      && (r.None? <==> forall j :: 0 <= j < |mods| ==> !(Usable(mods[j]) && mods[j].config.value.name == name))
    decreases |mods|
  {
    if |mods| > 0 {
      var init := mods[..|mods| - 1];
      LastHandlerIsLast(init, name);
      assert forall j :: 0 <= j < |init| ==> init[j] == mods[j];
    }
  }

  /** Whether some tool in the list has this name. */
  predicate Named(tools: seq<ToolConfig>, name: string) {
    exists j :: 0 <= j < |tools| && tools[j].name == name
  }

  /**
   * `getHandlers`: registers every usable module's handler under its config
   * name, a later module overwriting an earlier one of the same name.
   */
  method GetHandlers<H>(mods: seq<Module<H>>) returns (handlers: map<string, H>)
    ensures forall n :: n in handlers <==> Named(ToolList(mods), n)
    ensures forall n :: n in handlers ==> LastHandler(mods, n) == Some(handlers[n])
  {
    handlers := map[];
    var i := 0;
    while i < |mods|
      invariant 0 <= i <= |mods|
      invariant forall n :: n in handlers <==> Named(ToolList(mods[..i]), n)
      invariant forall n :: n in handlers ==> LastHandler(mods[..i], n) == Some(handlers[n])
    {
      var m := mods[i];
      RegisterStep(mods, i, handlers);
      if m.config.Some? && m.handler.Some? {
        handlers := handlers[m.config.value.name := m.handler.value];
      }
      i := i + 1;
    }
    assert mods[..|mods|] == mods;
  }

  /** One turn of the registration loop keeps both of its invariants. */
  lemma RegisterStep<H>(mods: seq<Module<H>>, i: nat, handlers: map<string, H>)
    requires i < |mods|
    requires forall n :: n in handlers <==> Named(ToolList(mods[..i]), n)
    requires forall n :: n in handlers ==> LastHandler(mods[..i], n) == Some(handlers[n])
    ensures var m := mods[i];
      var next := if Usable(m) then handlers[m.config.value.name := m.handler.value] else handlers;
      && (forall n :: n in next <==> Named(ToolList(mods[..i + 1]), n))
      && (forall n :: n in next ==> LastHandler(mods[..i + 1], n) == Some(next[n]))
  {
    var m := mods[i];
    assert mods[..i + 1] == mods[..i] + [m];
    ToolListSnoc(mods[..i], m);
    LastHandlerSnoc(mods[..i], m);
    if Usable(m) {
      var old_tools := ToolList(mods[..i]);
      NamedSnoc(old_tools, m.config.value);
      assert ToolList(mods[..i + 1]) == old_tools + [m.config.value];
      var next := handlers[m.config.value.name := m.handler.value];
      forall n ensures n in next <==> Named(ToolList(mods[..i + 1]), n) {
        assert n in next <==> n in handlers || n == m.config.value.name;
      }
    } else {
      assert ToolList(mods[..i + 1]) == ToolList(mods[..i]) + [];
      assert ToolList(mods[..i]) + [] == ToolList(mods[..i]);
    }
  }

  /** A further module adds its config to the tool list exactly when it is usable. */
  lemma ToolListSnoc<H>(mods: seq<Module<H>>, m: Module<H>)
    ensures ToolList(mods + [m]) == ToolList(mods) + (if Usable(m) then [m.config.value] else [])
  {
    assert (mods + [m])[..|mods|] == mods;
  }

  /** A further usable module takes over its own name and no other. */
  lemma LastHandlerSnoc<H>(mods: seq<Module<H>>, m: Module<H>)
    ensures forall n ::
      LastHandler(mods + [m], n) == (if Usable(m) && m.config.value.name == n then Some(m.handler.value) else LastHandler(mods, n))
  {
    assert (mods + [m])[..|mods|] == mods;
  }

  /** A further config adds exactly its own name. */
  lemma NamedSnoc(tools: seq<ToolConfig>, c: ToolConfig)
    ensures forall n :: Named(tools + [c], n) <==> Named(tools, n) || n == c.name
  {
    forall n ensures Named(tools + [c], n) <==> Named(tools, n) || n == c.name {
      if n == c.name {
        assert (tools + [c])[|tools|].name == n;
      }
      if Named(tools + [c], n) {
        var j :| 0 <= j < |tools + [c]| && (tools + [c])[j].name == n;
        if j < |tools| {
          assert tools[j].name == n;
        }
      }
      if Named(tools, n) {
        var j :| 0 <= j < |tools| && tools[j].name == n;
        assert (tools + [c])[j].name == n;
      }
    }
  }

  /** Every tool offered to the model has a handler registered under its name. */
  lemma EveryToolHasHandler<H>(mods: seq<Module<H>>, j: nat)
    requires j < |ToolList(mods)|
    ensures LastHandler(mods, ToolList(mods)[j].name).Some?
  {
    var c := ToolList(mods)[j];
    ToolListMembers(mods);
    assert c in ToolList(mods);
    LastHandlerIsLast(mods, c.name);
  }

  /** A module lacking a config or a handler changes neither the tool list nor any registered handler. */
  lemma {:induction false} IncompleteModuleIgnored<H>(before: seq<Module<H>>, m: Module<H>, after: seq<Module<H>>)
    requires !Usable(m)
    ensures ToolList(before + [m] + after) == ToolList(before + after)
    ensures forall n :: LastHandler(before + [m] + after, n) == LastHandler(before + after, n)
    decreases |after|
  {
    if |after| == 0 {
      assert before + [m] + after == before + [m];
      assert (before + [m])[..|before|] == before;
      assert before + after == before;
    } else {
      var a0 := after[..|after| - 1];
      IncompleteModuleIgnored(before, m, a0);
      assert (before + [m] + after)[..|before + [m] + after| - 1] == before + [m] + a0;
      assert (before + after)[..|before + after| - 1] == before + a0;
    }
  }
}
