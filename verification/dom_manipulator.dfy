/** The attribute-rewriting passes of the DOM manipulator, over the sequence
    of `<img>` elements found in the document. */
module DomManipulator {
  import opened Slashes
  import opened Html
  import opened Settings

  /** The two formatting operations of a source-set entry of type `E`,
      whose internals are not part of this model. */
  datatype Formatter<!E> = Formatter(
    /** The entry's `srcset` string. */
    srcSet: E -> string,
    /** The entry's `sizes` string for a given `width` attribute value. */
    sizes: (E, string) -> string)

  /** True iff the node's key is read from the alternative source attribute. */
  predicate UsesAlternativeSrc(cfg: Config, node: Node) {
    Truthy(cfg.alternativeSrc) && Attr(node, cfg.alternativeSrc) != ""
  }

  /** The alternative source attribute is used exactly when the setting is
      truthy and the node holds a non-empty value in that attribute. */
  lemma UsesAlternativeSrcExactly(cfg: Config, node: Node)
    ensures UsesAlternativeSrc(cfg, node) <==>
      Truthy(cfg.alternativeSrc) && cfg.alternativeSrc in node && node[cfg.alternativeSrc] != ""
  {
  }

  /** The node's normalised source: the alternative source attribute when it
      is configured and non-empty on the node, `src` otherwise, with its
      outer slashes removed. */
  function SrcKey(cfg: Config, node: Node): (k: string)
    ensures NoEdgeSlash(k)
  {
    var src := if UsesAlternativeSrc(cfg, node) then Attr(node, cfg.alternativeSrc) else Attr(node, "src");
    TrimSlashes(src)
  }

  /** The key is the chosen attribute's value with its outer slashes removed
      and nothing else changed, and no other text is: the alternative source
      attribute when it is configured and non-empty, `src` otherwise (also
      when the alternative attribute is present but empty). */
  lemma SrcKeyResolution(cfg: Config, node: Node, r: string)
    ensures UsesAlternativeSrc(cfg, node) ==> (IsTrimOf(Attr(node, cfg.alternativeSrc), r) <==> r == SrcKey(cfg, node))
    ensures !UsesAlternativeSrc(cfg, node) ==> (IsTrimOf(Attr(node, "src"), r) <==> r == SrcKey(cfg, node))
  {
    var src := if UsesAlternativeSrc(cfg, node) then Attr(node, cfg.alternativeSrc) else Attr(node, "src");
    TrimSlashesCharacterized(src, r);
  }

  /** The keys of all image nodes, one per node, in document order. */
  method GetImageSources(cfg: Config, nodes: seq<Node>) returns (images: seq<string>)
    ensures |images| == |nodes|
    ensures forall i :: 0 <= i < |nodes| ==> images[i] == SrcKey(cfg, nodes[i])
    ensures forall i :: 0 <= i < |images| ==> NoEdgeSlash(images[i])
  {
    images := [];
    var j := 0;
    while j < |nodes|
      invariant 0 <= j <= |nodes|
      invariant |images| == j
      invariant forall i :: 0 <= i < j ==> images[i] == SrcKey(cfg, nodes[i])
    {
      var key := SrcKey(cfg, nodes[j]);
      images := images + [key];
      j := j + 1;
    }
    forall i | 0 <= i < |images|
      ensures NoEdgeSlash(images[i])
    {
      assert images[i] == SrcKey(cfg, nodes[i]);
    }
  }

  /** Fills the srcset target attribute from the entry unless it already
      holds a non-empty value. */
  function SetSrcSetAttribute<E>(cfg: Config, fmt: Formatter<E>, node: Node, entry: E): (r: Node)
    ensures var t := TargetAttribute(cfg);
      && Attr(r, t) == (if Attr(node, t) != "" then Attr(node, t) else fmt.srcSet(entry))
      && AgreeExcept(node, r, {t})
      && node.Keys <= r.Keys
    ensures Attr(node, TargetAttribute(cfg)) != "" ==> r == node
  {
    var t := TargetAttribute(cfg);
    if Attr(node, t) != "" then node else SetAttr(node, t, fmt.srcSet(entry))
  }

  /** Fills `sizes` from the entry and the node's `width` unless it already
      holds a non-empty value. */
  function SetSizesAttribute<E>(fmt: Formatter<E>, node: Node, entry: E): (r: Node)
    ensures Attr(r, "sizes") == (if Attr(node, "sizes") != "" then Attr(node, "sizes") else fmt.sizes(entry, Attr(node, "width")))
    ensures AgreeExcept(node, r, {"sizes"})
    ensures node.Keys <= r.Keys
    ensures Attr(node, "sizes") != "" ==> r == node
  {
    if Attr(node, "sizes") != "" then node else SetAttr(node, "sizes", fmt.sizes(entry, Attr(node, "width")))
  }

  /** Appends the configured class, after a single space, to `class`;
      leaves the node alone when no class is configured. */
  function SetClassAttribute(cfg: Config, node: Node): (r: Node)
    ensures Truthy(cfg.addClass) ==> Attr(r, "class") == Attr(node, "class") + " " + cfg.addClass
    ensures !Truthy(cfg.addClass) ==> r == node
    ensures AgreeExcept(node, r, {"class"})
    ensures node.Keys <= r.Keys
  {
    if !Truthy(cfg.addClass) then node else SetAttr(node, "class", Attr(node, "class") + " " + cfg.addClass)
  }

  /** The attributes the injection pass may write. */
  function Written(cfg: Config): set<string> {
    {TargetAttribute(cfg), "sizes", "class"}
  }

  /** The three setters, in the order the injection loop calls them, for
      the entry found for the node: the srcset target, then `sizes`, then
      `class`; no other attribute changes or disappears. */
  function ApplyEntry<E>(cfg: Config, fmt: Formatter<E>, node: Node, e: E): (r: Node)
    ensures AgreeExcept(node, r, Written(cfg)) && node.Keys <= r.Keys
  {
    var n1 := SetSrcSetAttribute(cfg, fmt, node, e);
    var n2 := SetSizesAttribute(fmt, n1, e);
    var n3 := SetClassAttribute(cfg, n2);
    AgreeExceptGrows(node, n1, {TargetAttribute(cfg)}, Written(cfg));
    AgreeExceptGrows(n1, n2, {"sizes"}, Written(cfg));
    AgreeExceptGrows(n2, n3, {"class"}, Written(cfg));
    AgreeExceptTrans(node, n1, n2, Written(cfg));
    AgreeExceptTrans(node, n2, n3, Written(cfg));
    n3
  }

  /** When the srcset target is none of `sizes`, `class` and `width`, each
      attribute the setters write follows its own rule: a non-empty srcset
      target or `sizes` is kept, an empty one is filled from the entry
      (`sizes` from the node's `width`), and the configured class is
      appended to `class`. Whatever the target, the node ends up carrying
      both the srcset target and `sizes`. */
  lemma ApplyEntryRules<E>(cfg: Config, fmt: Formatter<E>, node: Node, e: E)
    ensures var r := ApplyEntry(cfg, fmt, node, e); TargetAttribute(cfg) in r && "sizes" in r
    ensures TargetAttribute(cfg) !in {"sizes", "class"} ==>
      var t := TargetAttribute(cfg);
      var r := ApplyEntry(cfg, fmt, node, e);
      Attr(r, t) == (if Attr(node, t) != "" then Attr(node, t) else fmt.srcSet(e))
    ensures TargetAttribute(cfg) !in {"sizes", "width"} ==>
      var r := ApplyEntry(cfg, fmt, node, e);
      Attr(r, "sizes") == (if Attr(node, "sizes") != "" then Attr(node, "sizes") else fmt.sizes(e, Attr(node, "width")))
    ensures TargetAttribute(cfg) != "class" ==>
      var r := ApplyEntry(cfg, fmt, node, e);
      Attr(r, "class") == (if Truthy(cfg.addClass) then Attr(node, "class") + " " + cfg.addClass else Attr(node, "class"))
  {
    var t := TargetAttribute(cfg);
    var n1 := SetSrcSetAttribute(cfg, fmt, node, e);
    var n2 := SetSizesAttribute(fmt, n1, e);
    var n3 := SetClassAttribute(cfg, n2);
    assert ApplyEntry(cfg, fmt, node, e) == n3;
    if t != "sizes" && t != "class" {
      assert Attr(n3, t) == Attr(n2, t) == Attr(n1, t);
    }
    if t != "sizes" && t != "width" {
      assert Attr(n1, "sizes") == Attr(node, "sizes");
      assert Attr(n1, "width") == Attr(node, "width");
      assert Attr(n3, "sizes") == Attr(n2, "sizes");
    }
    if t != "class" {
      assert Attr(n2, "class") == Attr(n1, "class") == Attr(node, "class");
    }
  }

  /** One step of the injection loop: a node whose key has no entry is left
      as it is; otherwise only the srcset target, `sizes` and `class` may
      change, and no attribute disappears. */
  function InjectNode<E>(cfg: Config, table: map<string, E>, fmt: Formatter<E>, node: Node): (r: Node)
    ensures SrcKey(cfg, node) !in table ==> r == node
    ensures SrcKey(cfg, node) in table ==> AgreeExcept(node, r, Written(cfg)) && node.Keys <= r.Keys
  {
    var src := SrcKey(cfg, node);
    if src !in table then node else ApplyEntry(cfg, fmt, node, table[src])
  }

  /** A matched node goes through the three setters with its own entry. */
  lemma InjectNodeMatched<E>(cfg: Config, table: map<string, E>, fmt: Formatter<E>, node: Node)
    requires SrcKey(cfg, node) in table
    ensures InjectNode(cfg, table, fmt, node) == ApplyEntry(cfg, fmt, node, table[SrcKey(cfg, node)])
  {
    var src := SrcKey(cfg, node);
    assert InjectNode(cfg, table, fmt, node) == if src !in table then node else ApplyEntry(cfg, fmt, node, table[src]);
  }

  /** On a matched node the setters' rules hold with the node's own entry. */
  lemma InjectNodeRules<E>(cfg: Config, table: map<string, E>, fmt: Formatter<E>, node: Node)
    requires SrcKey(cfg, node) in table
    ensures var r := InjectNode(cfg, table, fmt, node); TargetAttribute(cfg) in r && "sizes" in r
    ensures TargetAttribute(cfg) !in {"sizes", "class"} ==>
      var t := TargetAttribute(cfg);
      var r := InjectNode(cfg, table, fmt, node);
      Attr(r, t) == (if Attr(node, t) != "" then Attr(node, t) else fmt.srcSet(table[SrcKey(cfg, node)]))
    ensures TargetAttribute(cfg) !in {"sizes", "width"} ==>
      var r := InjectNode(cfg, table, fmt, node);
      Attr(r, "sizes") == (if Attr(node, "sizes") != "" then Attr(node, "sizes") else fmt.sizes(table[SrcKey(cfg, node)], Attr(node, "width")))
    ensures TargetAttribute(cfg) != "class" ==>
      var r := InjectNode(cfg, table, fmt, node);
      Attr(r, "class") == (if Truthy(cfg.addClass) then Attr(node, "class") + " " + cfg.addClass else Attr(node, "class"))
  {
    var e := table[SrcKey(cfg, node)];
    InjectNodeMatched(cfg, table, fmt, node);
    ApplyEntryRules(cfg, fmt, node, e);
  }

  /** The injection pass over all image nodes (without the serialisation
      of the document that follows it): one result per node, in order, each
      the injection step applied to that node alone. */
  function AddSrcSetAttributes<E>(cfg: Config, table: map<string, E>, fmt: Formatter<E>, nodes: seq<Node>): (r: seq<Node>)
    ensures |r| == |nodes|
    ensures forall i :: 0 <= i < |nodes| ==> r[i] == InjectNode(cfg, table, fmt, nodes[i])
  {
    seq(|nodes|, i requires 0 <= i < |nodes| => InjectNode(cfg, table, fmt, nodes[i]))
  }
}
