/** Properties of the injection pass that relate several calls, or that
    spell out what happens when configured attribute names collide. */
module InjectionProperties {
  import opened Slashes
  import opened Html
  import opened Settings
  import opened DomManipulator

  /** The pass writes neither `src` nor the alternative source attribute,
      so nothing it writes feeds back into a node's key. */
  predicate KeyUntouched(cfg: Config) {
    && TargetAttribute(cfg) != "src"
    && (Truthy(cfg.alternativeSrc) ==> cfg.alternativeSrc !in Written(cfg))
  }

  /** Nodes without an entry come out of the pass identical to how they went in. */
  lemma UnmatchedNodesUnchanged<E>(cfg: Config, table: map<string, E>, fmt: Formatter<E>, nodes: seq<Node>)
    ensures var r := AddSrcSetAttributes(cfg, table, fmt, nodes);
      forall i :: 0 <= i < |nodes| && SrcKey(cfg, nodes[i]) !in table ==> r[i] == nodes[i]
  {
  }

  /** An attribute the step does not write reads the same afterwards. */
  lemma InjectNodeFrame<E>(cfg: Config, table: map<string, E>, fmt: Formatter<E>, node: Node, a: string)
    requires a !in Written(cfg)
    ensures Attr(InjectNode(cfg, table, fmt, node), a) == Attr(node, a)
  {
  }

  /** The key depends on nothing but `src` and the alternative source attribute. */
  lemma SrcKeyReadsOnlySources(cfg: Config, n: Node, m: Node)
    requires Attr(n, "src") == Attr(m, "src")
    requires Truthy(cfg.alternativeSrc) ==> Attr(n, cfg.alternativeSrc) == Attr(m, cfg.alternativeSrc)
    ensures SrcKey(cfg, n) == SrcKey(cfg, m)
  {
    assert UsesAlternativeSrc(cfg, n) == UsesAlternativeSrc(cfg, m);
  }

  /** When the pass writes neither `src` nor the alternative source
      attribute, it never changes what a node resolves to. */
  lemma InjectNodeKeepsKey<E>(cfg: Config, table: map<string, E>, fmt: Formatter<E>, node: Node)
    requires KeyUntouched(cfg)
    ensures SrcKey(cfg, InjectNode(cfg, table, fmt, node)) == SrcKey(cfg, node)
  {
    if SrcKey(cfg, node) in table {
      var e := table[SrcKey(cfg, node)];
      InjectNodeMatched(cfg, table, fmt, node);
      ApplyEntryKeepsKey(cfg, fmt, node, e);
    }
  }

  /** The three setters leave `src` and the alternative source attribute
      alone when neither is written, and with them the key. */
  lemma ApplyEntryKeepsKey<E>(cfg: Config, fmt: Formatter<E>, node: Node, e: E)
    requires KeyUntouched(cfg)
    ensures SrcKey(cfg, ApplyEntry(cfg, fmt, node, e)) == SrcKey(cfg, node)
  {
    var r := ApplyEntry(cfg, fmt, node, e);
    assert "src" !in Written(cfg);
    assert Attr(r, "src") == Attr(node, "src");
    if Truthy(cfg.alternativeSrc) {
      assert Attr(r, cfg.alternativeSrc) == Attr(node, cfg.alternativeSrc);
    }
    SrcKeyReadsOnlySources(cfg, node, r);
  }

  /** After one step on a matched node, filling the srcset target again
      with the same entry changes nothing. */
  lemma RefillSrcSetChangesNothing<E>(cfg: Config, table: map<string, E>, fmt: Formatter<E>, node: Node)
    requires SrcKey(cfg, node) in table
    ensures var r1 := InjectNode(cfg, table, fmt, node);
      SetSrcSetAttribute(cfg, fmt, r1, table[SrcKey(cfg, node)]) == r1
  {
    InjectNodeMatched(cfg, table, fmt, node);
    ApplyEntryRefillSrcSet(cfg, fmt, node, table[SrcKey(cfg, node)]);
  }

  /** The srcset setter, run again with the same entry on the setters'
      output, finds the target filled and keeps it: the later setters never
      empty a non-empty target, so an empty one means the srcset string is
      empty too. This holds whatever the target is. */
  lemma ApplyEntryRefillSrcSet<E>(cfg: Config, fmt: Formatter<E>, node: Node, e: E)
    ensures var r1 := ApplyEntry(cfg, fmt, node, e);
      SetSrcSetAttribute(cfg, fmt, r1, e) == r1
  {
    var t := TargetAttribute(cfg);
    var n1 := SetSrcSetAttribute(cfg, fmt, node, e);
    var n2 := SetSizesAttribute(fmt, n1, e);
    var r1 := SetClassAttribute(cfg, n2);
    assert ApplyEntry(cfg, fmt, node, e) == r1;
    ApplyEntryRules(cfg, fmt, node, e);
    if Attr(n1, t) != "" {
      // the sizes setter keeps a non-empty value; the class setter only appends
      assert Attr(n2, t) != "";
      assert |Attr(r1, t)| >= |Attr(n2, t)|;
    } else if Attr(r1, t) == "" {
      assert fmt.srcSet(e) == "";
      assert r1[t := ""] == r1;
    }
  }

  /** After one step on a matched node, filling `sizes` again with the same
      entry changes nothing. */
  lemma RefillSizesChangesNothing<E>(cfg: Config, table: map<string, E>, fmt: Formatter<E>, node: Node)
    requires SrcKey(cfg, node) in table
    ensures var r1 := InjectNode(cfg, table, fmt, node);
      SetSizesAttribute(fmt, r1, table[SrcKey(cfg, node)]) == r1
  {
    InjectNodeMatched(cfg, table, fmt, node);
    ApplyEntryRefillSizes(cfg, fmt, node, table[SrcKey(cfg, node)]);
  }

  /** The sizes setter, run again with the same entry on the setters'
      output, finds `sizes` filled and keeps it: neither `sizes` nor `width`
      changes after the sizes setter, so an empty `sizes` is what the entry
      gives for that `width`. This holds whatever the target is. */
  lemma ApplyEntryRefillSizes<E>(cfg: Config, fmt: Formatter<E>, node: Node, e: E)
    ensures var r1 := ApplyEntry(cfg, fmt, node, e);
      SetSizesAttribute(fmt, r1, e) == r1
  {
    var n1 := SetSrcSetAttribute(cfg, fmt, node, e);
    var n2 := SetSizesAttribute(fmt, n1, e);
    var r1 := SetClassAttribute(cfg, n2);
    assert ApplyEntry(cfg, fmt, node, e) == r1;
    ApplyEntryRules(cfg, fmt, node, e);
    assert Attr(n2, "width") == Attr(n1, "width");
    assert Attr(r1, "width") == Attr(n2, "width");
    assert Attr(r1, "sizes") == Attr(n2, "sizes");
    if Attr(r1, "sizes") == "" {
      assert r1["sizes" := fmt.sizes(e, Attr(r1, "width"))] == r1;
    }
  }

  /** Running the three setters a second time with the same entry only
      appends the class once more, whatever the srcset target is. */
  lemma ApplyEntryTwice<E>(cfg: Config, fmt: Formatter<E>, node: Node, e: E)
    ensures var r1 := ApplyEntry(cfg, fmt, node, e);
      ApplyEntry(cfg, fmt, r1, e) == SetClassAttribute(cfg, r1)
  {
    var r1 := ApplyEntry(cfg, fmt, node, e);
    ApplyEntryRefillSrcSet(cfg, fmt, node, e);
    ApplyEntryRefillSizes(cfg, fmt, node, e);
    assert ApplyEntry(cfg, fmt, r1, e) == SetClassAttribute(cfg, SetSizesAttribute(fmt, SetSrcSetAttribute(cfg, fmt, r1, e), e));
  }

  /** Running the step a second time on a matched node only appends the
      class once more: the key is the same, so the same entry is found, and
      the srcset target and `sizes` are left as the first run made them. */
  lemma SecondPassOnlyAppendsClass<E>(cfg: Config, table: map<string, E>, fmt: Formatter<E>, node: Node)
    requires KeyUntouched(cfg)
    requires SrcKey(cfg, node) in table
    ensures var r1 := InjectNode(cfg, table, fmt, node);
      InjectNode(cfg, table, fmt, r1) == SetClassAttribute(cfg, r1)
  {
    var e := table[SrcKey(cfg, node)];
    var r1 := InjectNode(cfg, table, fmt, node);
    InjectNodeMatched(cfg, table, fmt, node);
    InjectNodeKeepsKey(cfg, table, fmt, node);
    InjectNodeMatched(cfg, table, fmt, r1);
    ApplyEntryTwice(cfg, fmt, node, e);
  }

  /** The class is appended on every pass, without deduplication: two passes
      over a matched node append it twice. */
  lemma ClassAppendedOncePerPass<E>(cfg: Config, table: map<string, E>, fmt: Formatter<E>, nodes: seq<Node>)
    requires KeyUntouched(cfg) && TargetAttribute(cfg) != "class" && Truthy(cfg.addClass)
    ensures var twice := AddSrcSetAttributes(cfg, table, fmt, AddSrcSetAttributes(cfg, table, fmt, nodes));
      forall i :: 0 <= i < |nodes| && SrcKey(cfg, nodes[i]) in table ==>
        Attr(twice[i], "class") == Attr(nodes[i], "class") + " " + cfg.addClass + " " + cfg.addClass
  {
    var once := AddSrcSetAttributes(cfg, table, fmt, nodes);
    var twice := AddSrcSetAttributes(cfg, table, fmt, once);
    forall i | 0 <= i < |nodes| && SrcKey(cfg, nodes[i]) in table
      ensures Attr(twice[i], "class") == Attr(nodes[i], "class") + " " + cfg.addClass + " " + cfg.addClass
    {
      InjectNodeRules(cfg, table, fmt, nodes[i]);
      SecondPassOnlyAppendsClass(cfg, table, fmt, nodes[i]);
    }
  }

  /** Without a class to add, a second pass changes nothing. */
  lemma IdempotentWithoutClass<E>(cfg: Config, table: map<string, E>, fmt: Formatter<E>, nodes: seq<Node>)
    requires KeyUntouched(cfg) && !Truthy(cfg.addClass)
    ensures var once := AddSrcSetAttributes(cfg, table, fmt, nodes);
      AddSrcSetAttributes(cfg, table, fmt, once) == once
  {
    var once := AddSrcSetAttributes(cfg, table, fmt, nodes);
    var twice := AddSrcSetAttributes(cfg, table, fmt, once);
    forall i | 0 <= i < |nodes|
      ensures twice[i] == once[i]
    {
      if SrcKey(cfg, nodes[i]) in table {
        SecondPassOnlyAppendsClass(cfg, table, fmt, nodes[i]);
      }
    }
  }

  /** When the srcset target is `sizes` itself, the srcset step runs first
      and fills an empty `sizes` with the srcset string; the sizes step then
      keeps it, unless that string is empty. */
  lemma TargetIsSizes<E>(cfg: Config, table: map<string, E>, fmt: Formatter<E>, node: Node)
    requires TargetAttribute(cfg) == "sizes"
    requires SrcKey(cfg, node) in table
    ensures var e := table[SrcKey(cfg, node)];
      var r := InjectNode(cfg, table, fmt, node);
      Attr(r, "sizes") ==
        if Attr(node, "sizes") != "" then Attr(node, "sizes")
        else if fmt.srcSet(e) != "" then fmt.srcSet(e)
        else fmt.sizes(e, Attr(node, "width"))
  {
    var e := table[SrcKey(cfg, node)];
    InjectNodeMatched(cfg, table, fmt, node);
    ApplyEntryTargetIsSizes(cfg, fmt, node, e);
  }

  /** The three setters with target `sizes`: the srcset string fills an
      empty `sizes` first, and the sizes string is used only if it is empty. */
  lemma ApplyEntryTargetIsSizes<E>(cfg: Config, fmt: Formatter<E>, node: Node, e: E)
    requires TargetAttribute(cfg) == "sizes"
    ensures Attr(ApplyEntry(cfg, fmt, node, e), "sizes") ==
        if Attr(node, "sizes") != "" then Attr(node, "sizes")
        else if fmt.srcSet(e) != "" then fmt.srcSet(e)
        else fmt.sizes(e, Attr(node, "width"))
  {
    var n1 := SetSrcSetAttribute(cfg, fmt, node, e);
    var n2 := SetSizesAttribute(fmt, n1, e);
    assert Attr(n1, "width") == Attr(node, "width");
    assert ApplyEntry(cfg, fmt, node, e) == SetClassAttribute(cfg, n2);
    assert Attr(SetClassAttribute(cfg, n2), "sizes") == Attr(n2, "sizes");
  }

  /** When the srcset target is `class`, an empty `class` first receives the
      srcset string, and the configured class is then appended to that. */
  lemma TargetIsClass<E>(cfg: Config, table: map<string, E>, fmt: Formatter<E>, node: Node)
    requires TargetAttribute(cfg) == "class"
    requires SrcKey(cfg, node) in table
    ensures var e := table[SrcKey(cfg, node)];
      var r := InjectNode(cfg, table, fmt, node);
      var base := if Attr(node, "class") != "" then Attr(node, "class") else fmt.srcSet(e);
      Attr(r, "class") == if Truthy(cfg.addClass) then base + " " + cfg.addClass else base
  {
    var e := table[SrcKey(cfg, node)];
    InjectNodeMatched(cfg, table, fmt, node);
    ApplyEntryTargetIsClass(cfg, fmt, node, e);
  }

  /** The three setters with target `class`: the srcset string fills an
      empty `class` first, and the configured class is appended to that. */
  lemma ApplyEntryTargetIsClass<E>(cfg: Config, fmt: Formatter<E>, node: Node, e: E)
    requires TargetAttribute(cfg) == "class"
    ensures var base := if Attr(node, "class") != "" then Attr(node, "class") else fmt.srcSet(e);
      Attr(ApplyEntry(cfg, fmt, node, e), "class") == if Truthy(cfg.addClass) then base + " " + cfg.addClass else base
  {
    var n1 := SetSrcSetAttribute(cfg, fmt, node, e);
    var n2 := SetSizesAttribute(fmt, n1, e);
    assert Attr(n1, "class") == if Attr(node, "class") != "" then Attr(node, "class") else fmt.srcSet(e);
    assert Attr(n2, "class") == Attr(n1, "class");
    assert ApplyEntry(cfg, fmt, node, e) == SetClassAttribute(cfg, n2);
  }
}
