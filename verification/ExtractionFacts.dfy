/** The placement of a device in terms of its attributes and the rules of its driver. */
module ExtractionFacts {
  import opened Collections
  import opened Topology
  import opened Extraction

  /** Some rule of the driver maps the attribute onto the field. */
  ghost predicate RuleMaps(ctx: Context, name: AttributeName, target: MapsTo) {
    exists r :: r in ctx.rules && r.driver == ctx.driver && r.attribute == name && r.mapsTo == target
  }

  ghost predicate RuleNames(ctx: Context, name: AttributeName) {
    exists r :: r in ctx.rules && r.driver == ctx.driver && r.attribute == name
  }

  /** The standard name, or another name that a rule maps onto the field. */
  ghost predicate Strong(ctx: Context, name: AttributeName, standard: AttributeName, target: MapsTo) {
    name == standard || (name.Named? && RuleMaps(ctx, name, target))
  }

  lemma {:induction false} MappedByIff(rules: seq<TopologyRule>, driver: string, name: AttributeName, target: MapsTo)
    ensures MappedBy(rules, driver, name, target) <==>
      exists r :: r in rules && r.driver == driver && r.attribute == name && r.mapsTo == target
    ensures NamedBy(rules, driver, name) <==> exists r :: r in rules && r.driver == driver && r.attribute == name
  {
    if rules != [] {
      var init, last := rules[..|rules| - 1], rules[|rules| - 1];
      assert rules == init + [last];
      MappedByIff(init, driver, name, target);
    }
  }

  /** The integer value of an attribute of the device. */
  predicate HasInt(attrs: Attributes, name: AttributeName, v: int) {
    name in attrs && attrs[name].intValue == Some(v)
  }

  predicate HasText(attrs: Attributes, name: AttributeName, v: string) {
    name in attrs && attrs[name].stringValue == Some(v)
  }

  /** A field that integers fill: a strong value if there is one, else an alias value if there is one, else nothing. */
  ghost predicate IntField(ctx: Context, attrs: Attributes, standard: AttributeName, target: MapsTo,
                           aliases: seq<AttributeName>, field: Option<int>) {
    if exists name, v :: Strong(ctx, name, standard, target) && HasInt(attrs, name, v)
    then field.Some? && exists name :: Strong(ctx, name, standard, target) && HasInt(attrs, name, field.value)
    else if exists name, v :: name in aliases && name.Named? && HasInt(attrs, name, v)
    then field.Some? && exists name :: name in aliases && name.Named? && HasInt(attrs, name, field.value)
    else field.None?
  }

  ghost predicate TextField(ctx: Context, attrs: Attributes, standard: AttributeName, target: MapsTo,
                            field: Option<string>) {
    if exists name, v :: Strong(ctx, name, standard, target) && HasText(attrs, name, v)
    then field.Some? && exists name :: Strong(ctx, name, standard, target) && HasText(attrs, name, field.value)
    else field.None?
  }

  lemma StrongIs(ctx: Context, name: AttributeName, standard: AttributeName, target: MapsTo)
    ensures IsStrong(ctx, name, standard, target) <==> Strong(ctx, name, standard, target)
  {
    MappedByIff(ctx.rules, ctx.driver, name, target);
  }

  lemma IntPublished(attrs: Attributes, source: Source<int>, counts: AttributeName -> bool)
    requires forall n :: source(n) == IntOf(attrs, n, counts(n))
    ensures Publishes(attrs.Keys, source) <==> exists n, v :: counts(n) && HasInt(attrs, n, v)
  {
    if Publishes(attrs.Keys, source) {
      var a :| a in attrs.Keys && source(a).Some?;
      assert counts(a) && HasInt(attrs, a, source(a).value);
    }
    if n, v :| counts(n) && HasInt(attrs, n, v) {
      assert n in attrs.Keys && source(n).Some?;
    }
  }

  lemma IntFound(attrs: Attributes, source: Source<int>, counts: AttributeName -> bool, r: Option<int>)
    requires forall n :: source(n) == IntOf(attrs, n, counts(n))
    requires r.Some? && exists a :: a in attrs.Keys && source(a) == r
    ensures exists n :: counts(n) && HasInt(attrs, n, r.value)
  {
    var a :| a in attrs.Keys && source(a) == r;
    assert counts(a) && HasInt(attrs, a, r.value);
  }

  ghost function StrongIn(ctx: Context, standard: AttributeName, target: MapsTo): AttributeName -> bool {
    n => Strong(ctx, n, standard, target)
  }

  function AliasIn(aliases: seq<AttributeName>): AttributeName -> bool {
    (n: AttributeName) => n.Named? && n in aliases
  }

  lemma ResolvedInt(ctx: Context, attrs: Attributes, order: seq<AttributeName>, standard: AttributeName, target: MapsTo,
                    aliases: seq<AttributeName>, strong: Source<int>, weak: Source<int>)
    requires ListsSet(order, attrs.Keys)
    requires forall n :: strong(n) == IntOf(attrs, n, IsStrong(ctx, n, standard, target))
    requires forall n: AttributeName :: weak(n) == IntOf(attrs, n, n.Named? && n in aliases)
    ensures IntField(ctx, attrs, standard, target, aliases, Resolve(order, strong, weak))
  {
    hide IsStrong, Strong, IntOf, HasInt, Resolve, Publishes;
    var counts, known, r := StrongIn(ctx, standard, target), AliasIn(aliases), Resolve(order, strong, weak);
    forall n ensures strong(n) == IntOf(attrs, n, counts(n)) { StrongIs(ctx, n, standard, target); }
    ResolveSource(order, strong, weak);
    assert (set n | n in order) == attrs.Keys;
    IntPublished(attrs, strong, counts);
    IntPublished(attrs, weak, known);
    if Publishes(attrs.Keys, strong) {
      IntFound(attrs, strong, counts, r);
    } else if Publishes(attrs.Keys, weak) {
      IntFound(attrs, weak, known, r);
    }
  }

  lemma TextPublished(attrs: Attributes, source: Source<string>, counts: AttributeName -> bool, r: Option<string>)
    requires forall n :: source(n) == StringOf(attrs, n, counts(n))
    requires Publishes(attrs.Keys, source) ==> r.Some? && exists a :: a in attrs.Keys && source(a) == r
    ensures Publishes(attrs.Keys, source) <==> exists n, v :: counts(n) && HasText(attrs, n, v)
    ensures Publishes(attrs.Keys, source) ==> exists n :: counts(n) && HasText(attrs, n, r.value)
  {
    if Publishes(attrs.Keys, source) {
      var a :| a in attrs.Keys && source(a) == r;
      assert counts(a) && HasText(attrs, a, r.value);
    }
    if n, v :| counts(n) && HasText(attrs, n, v) {
      assert n in attrs.Keys && source(n).Some?;
    }
  }

  lemma ResolvedText(ctx: Context, attrs: Attributes, order: seq<AttributeName>, standard: AttributeName,
                     target: MapsTo,
                     strong: Source<string>)
    requires ListsSet(order, attrs.Keys)
    requires forall n :: strong(n) == StringOf(attrs, n, IsStrong(ctx, n, standard, target))
    ensures TextField(ctx, attrs, standard, target, Resolve(order, strong, NoSource()))
  {
    hide IsStrong, Strong, StringOf, HasText, Resolve;
    var counts, r := StrongIn(ctx, standard, target), Resolve(order, strong, NoSource());
    forall n ensures strong(n) == StringOf(attrs, n, counts(n)) { StrongIs(ctx, n, standard, target); }
    ResolveSource(order, strong, NoSource());
    assert (set n | n in order) == attrs.Keys;
    TextPublished(attrs, strong, counts, r);
  }

  /** What every extraction gives: the NUMA node and the socket from a standard or rule-mapped name, else from an alias;
      the PCIe root from a standard or rule-mapped name; and all attributes that a rule of the driver names. */
  lemma ExtractedPlacement(ctx: Context, attrs: Attributes, p: Placement)
    requires Extracts(ctx, attrs, p)
    ensures IntField(ctx, attrs, NumaNodeName, MapsToNumaNode, ctx.aliases.numa, p.numaNode)
    ensures TextField(ctx, attrs, PcieRootName, MapsToPcieRoot, p.pcieRoot)
    ensures IntField(ctx, attrs, SocketName, MapsToSocket, ctx.aliases.socket, p.socket)
    ensures forall name :: name in p.extended <==> name in attrs && name.Named? && RuleNames(ctx, name)
    ensures forall name :: name in p.extended ==> p.extended[name] == attrs[name]
  {
    hide IntField, TextField, IsStrong, Resolve, Fold;
    var o :| ListsSet(o, attrs.Keys) && p == Fold(ctx, attrs, o);
    FoldFields(ctx, attrs, o);
    ResolvedInt(ctx, attrs, o, NumaNodeName, MapsToNumaNode, ctx.aliases.numa, StrongNuma(ctx, attrs),
      WeakNuma(ctx, attrs));
    ResolvedText(ctx, attrs, o, PcieRootName, MapsToPcieRoot, StrongPcie(ctx, attrs));
    ResolvedInt(ctx, attrs, o, SocketName, MapsToSocket, ctx.aliases.socket, StrongSocket(ctx, attrs),
      WeakSocket(ctx, attrs));
    forall name ensures NamedBy(ctx.rules, ctx.driver, name) <==> RuleNames(ctx, name) {
      MappedByIff(ctx.rules, ctx.driver, name, MapsToNothing);
    }
  }

  /** The names that other drivers use. */
  lemma KnownAliases(text: string)
    ensures Named(text) in KNOWN_ALIASES.numa <==>
      text in {"nodepartition.dra.k8s.io/numaNode", "dra.net/numaNode", "dra.cpu/numaNodeID", "dra.memory/numaNode",
               "dra.nvme/numaNode", "numaNode", "numa"}
    ensures Named(text) in KNOWN_ALIASES.socket <==>
      text in {"resource.kubernetes.io/cpuSocketID", "dra.cpu/cpuSocketID", "dra.memory/cpuSocketID", "cpuSocketID",
        "socket"}
  {
  }
}
