/** Attribute extraction folds over a Go map, so it may visit the attributes of a device in any
    order.  This module says exactly when the visiting order cannot be observed. */
module Extraction {
  import opened Collections
  import opened Topology

  type Attributes = map<AttributeName, AttributeValue>

  /** The attribute names that other drivers are known to use for a topology field. */
  datatype Aliases = Aliases(numa: seq<AttributeName>, socket: seq<AttributeName>)

  const KNOWN_ALIASES := Aliases(
    [Named("nodepartition.dra.k8s.io/numaNode"), Named("dra.net/numaNode"), Named("dra.cpu/numaNodeID"),
     Named("dra.memory/numaNode"), Named("dra.nvme/numaNode"), Named("numaNode"), Named("numa")],
    [Named("resource.kubernetes.io/cpuSocketID"), Named("dra.cpu/cpuSocketID"), Named("dra.memory/cpuSocketID"),
     Named("cpuSocketID"), Named("socket")])

  /** What extraction reads besides the attributes: the driver, its rules and the alias lists. */
  datatype Context = Context(driver: string, rules: seq<TopologyRule>, aliases: Aliases)

  /** The fields of a device that extraction sets. */
  datatype Placement = Placement(
    numaNode: Option<int>, pcieRoot: Option<string>, socket: Option<int>, extended: Attributes)

  const BLANK := Placement(None, None, None, map[])

  // ---------------------------------------------------------------------
  // One visited attribute
  // ---------------------------------------------------------------------

  predicate Applies(rule: TopologyRule, driver: string, name: AttributeName) {
    rule.attribute == name && rule.driver == driver
  }

  function Prefer<V>(a: Option<V>, b: Option<V>): Option<V> {
    if a.Some? then a else b
  }

  function ApplyRule(p: Placement, rule: TopologyRule, name: AttributeName, attr: AttributeValue): Placement {
    var mapped :=
      match rule.mapsTo
      case MapsToNumaNode => if attr.intValue.Some? then p.(numaNode := attr.intValue) else p
      case MapsToPcieRoot => if attr.stringValue.Some? then p.(pcieRoot := attr.stringValue) else p
      case MapsToSocket => if attr.intValue.Some? then p.(socket := attr.intValue) else p
      case MapsToNothing => p;
    mapped.(extended := mapped.extended[name := attr])
  }

  function ApplyRules(p: Placement, driver: string, rules: seq<TopologyRule>, name: AttributeName,
                      attr: AttributeValue): Placement {
    if rules == [] then p else
      var before, rule := ApplyRules(p, driver, rules[..|rules| - 1], name, attr), rules[|rules| - 1];
      if Applies(rule, driver, name) then ApplyRule(before, rule, name, attr) else before
  }

  function ApplyAliases(p: Placement, aliases: Aliases, name: AttributeName, attr: AttributeValue): Placement {
    var q := if p.numaNode.None? && name in aliases.numa then p.(numaNode := attr.intValue) else p;
    if q.socket.None? && name in aliases.socket then q.(socket := attr.intValue) else q
  }

  function Visit(p: Placement, ctx: Context, name: AttributeName, attr: AttributeValue): Placement {
    match name
    case NumaNodeName => if attr.intValue.Some? then p.(numaNode := attr.intValue) else p
    case PcieRootName => if attr.stringValue.Some? then p.(pcieRoot := attr.stringValue) else p
    case SocketName => if attr.intValue.Some? then p.(socket := attr.intValue) else p
    case Named(_) => ApplyRules(ApplyAliases(p, ctx.aliases, name, attr), ctx.driver, ctx.rules, name, attr)
  }

  // ---------------------------------------------------------------------
  // A whole extraction, for one visiting order
  // ---------------------------------------------------------------------

  function Fold(ctx: Context, attrs: Attributes, order: seq<AttributeName>): Placement
    requires forall name :: name in order ==> name in attrs
  {
    if order == [] then BLANK else
      var name := order[|order| - 1];
      Visit(Fold(ctx, attrs, order[..|order| - 1]), ctx, name, attrs[name])
  }

  /** Some visiting order of the attributes produces `p`. */
  ghost predicate Extracts(ctx: Context, attrs: Attributes, p: Placement) {
    exists order :: ListsSet(order, attrs.Keys) && p == Fold(ctx, attrs, order)
  }

  method ExtractTopologyDevice(ctx: Context, attrs: Attributes) returns (p: Placement)
    ensures Extracts(ctx, attrs, p)
  {
    p := BLANK;
    var todo := attrs.Keys;
    ghost var order: seq<AttributeName> := [];
    while todo != {}
      invariant todo <= attrs.Keys
      invariant ListsSet(order, attrs.Keys - todo)
      invariant p == Fold(ctx, attrs, order)
      decreases |todo|
    {
      var name :| name in todo;
      var attr := attrs[name];
      assert (order + [name])[..|order|] == order;
      assert attrs.Keys - (todo - {name}) == (attrs.Keys - todo) + {name};
      order := order + [name];
      todo := todo - {name};
      match name {
        case NumaNodeName => if attr.intValue.Some? { p := p.(numaNode := attr.intValue); }
        case PcieRootName => if attr.stringValue.Some? { p := p.(pcieRoot := attr.stringValue); }
        case SocketName => if attr.intValue.Some? { p := p.(socket := attr.intValue); }
        case Named(_) => p := VisitNamed(p, ctx, name, attr);
      }
    }
    assert attrs.Keys - todo == attrs.Keys;
  }

  /** The alias loops and the rule loop for one attribute that has no standard name. */
  method VisitNamed(p: Placement, ctx: Context, name: AttributeName, attr: AttributeValue) returns (r: Placement)
    requires name.Named?
    ensures r == Visit(p, ctx, name, attr)
  {
    r := p;
    if r.numaNode.None? {
      var hit := FindAlias(ctx.aliases.numa, name, attr);
      if hit { r := r.(numaNode := attr.intValue); }
    }
    if r.socket.None? {
      var hit := FindAlias(ctx.aliases.socket, name, attr);
      if hit { r := r.(socket := attr.intValue); }
    }
    ghost var aliased := r;
    assert aliased == ApplyAliases(p, ctx.aliases, name, attr);
    for i := 0 to |ctx.rules|
      invariant r == ApplyRules(aliased, ctx.driver, ctx.rules[..i], name, attr)
    {
      assert ctx.rules[..i + 1][..i] == ctx.rules[..i];
      if Applies(ctx.rules[i], ctx.driver, name) {
        r := ApplyRule(r, ctx.rules[i], name, attr);
      }
    }
    assert ctx.rules[..|ctx.rules|] == ctx.rules;
  }

  method FindAlias(aliases: seq<AttributeName>, name: AttributeName, attr: AttributeValue) returns (hit: bool)
    ensures hit <==> name in aliases && attr.intValue.Some?
  {
    for i := 0 to |aliases|
      invariant name !in aliases[..i] || attr.intValue.None?
    {
      if name == aliases[i] && attr.intValue.Some? { return true; }
    }
    hit := false;
  }

  // ---------------------------------------------------------------------
  // Each topology field as a race between strong and weak sources
  // ---------------------------------------------------------------------

  type Source<V> = AttributeName -> Option<V>

  /** A strong source always overwrites; a weak one only fills an empty field. */
  function Resolve<V>(order: seq<AttributeName>, strong: Source<V>, weak: Source<V>): Option<V> {
    if order == [] then None else
      var name := order[|order| - 1];
      Prefer(strong(name), Prefer(Resolve(order[..|order| - 1], strong, weak), weak(name)))
  }

  /** Some rule of this driver names the attribute and maps it onto the target field. */
  predicate MappedBy(rules: seq<TopologyRule>, driver: string, name: AttributeName, target: MapsTo) {
    rules != [] &&
    (MappedBy(rules[..|rules| - 1], driver, name, target) ||
     (Applies(rules[|rules| - 1], driver, name) && rules[|rules| - 1].mapsTo == target))
  }

  predicate NamedBy(rules: seq<TopologyRule>, driver: string, name: AttributeName) {
    rules != [] &&
    (NamedBy(rules[..|rules| - 1], driver, name) || Applies(rules[|rules| - 1], driver, name))
  }

  function IntOf(attrs: Attributes, name: AttributeName, when: bool): Option<int> {
    if when && name in attrs then attrs[name].intValue else None
  }

  function StringOf(attrs: Attributes, name: AttributeName, when: bool): Option<string> {
    if when && name in attrs then attrs[name].stringValue else None
  }

  /** The standard name itself, or a non-standard name that a rule of the driver maps onto the field. */
  predicate IsStrong(ctx: Context, name: AttributeName, standard: AttributeName, target: MapsTo) {
    name == standard || (name.Named? && MappedBy(ctx.rules, ctx.driver, name, target))
  }

  function StrongNuma(ctx: Context, attrs: Attributes): Source<int> {
    name => IntOf(attrs, name, IsStrong(ctx, name, NumaNodeName, MapsToNumaNode))
  }

  function WeakNuma(ctx: Context, attrs: Attributes): Source<int> {
    (name: AttributeName) => IntOf(attrs, name, name.Named? && name in ctx.aliases.numa)
  }

  function StrongPcie(ctx: Context, attrs: Attributes): Source<string> {
    name => StringOf(attrs, name, IsStrong(ctx, name, PcieRootName, MapsToPcieRoot))
  }

  function NoSource<V>(): Source<V> {
    name => None
  }

  function StrongSocket(ctx: Context, attrs: Attributes): Source<int> {
    name => IntOf(attrs, name, IsStrong(ctx, name, SocketName, MapsToSocket))
  }

  function WeakSocket(ctx: Context, attrs: Attributes): Source<int> {
    (name: AttributeName) => IntOf(attrs, name, name.Named? && name in ctx.aliases.socket)
  }

  /** The effect on a placement of an attribute that rules map onto the marked fields. */
  function Mapped(p: Placement, name: AttributeName, attr: AttributeValue, numa: bool, pcie: bool, socket: bool,
                  named: bool): Placement {
    Placement(
      if numa then Prefer(attr.intValue, p.numaNode) else p.numaNode,
      if pcie then Prefer(attr.stringValue, p.pcieRoot) else p.pcieRoot,
      if socket then Prefer(attr.intValue, p.socket) else p.socket,
      if named then p.extended[name := attr] else p.extended)
  }

  lemma MappedOnce(p: Placement, rule: TopologyRule, name: AttributeName, attr: AttributeValue, numa: bool, pcie: bool,
                   socket: bool, named: bool)
    ensures ApplyRule(Mapped(p, name, attr, numa, pcie, socket, named), rule, name, attr) ==
      Mapped(p, name, attr, numa || rule.mapsTo.MapsToNumaNode?, pcie || rule.mapsTo.MapsToPcieRoot?,
             socket || rule.mapsTo.MapsToSocket?, true)
  {
    assert p.extended[name := attr][name := attr] == p.extended[name := attr];
  }

  lemma {:induction false} ApplyRulesFields(p: Placement, driver: string, rules: seq<TopologyRule>,
                                            name: AttributeName, attr: AttributeValue)
    ensures ApplyRules(p, driver, rules, name, attr) == Mapped(p, name, attr,
      MappedBy(rules, driver, name, MapsToNumaNode), MappedBy(rules, driver, name, MapsToPcieRoot),
      MappedBy(rules, driver, name, MapsToSocket), NamedBy(rules, driver, name))
  {
    if rules != [] {
      var init := rules[..|rules| - 1];
      ApplyRulesFields(p, driver, init, name, attr);
      MappedOnce(p, rules[|rules| - 1], name, attr,
        MappedBy(init, driver, name, MapsToNumaNode), MappedBy(init, driver, name, MapsToPcieRoot),
        MappedBy(init, driver, name, MapsToSocket), NamedBy(init, driver, name));
    }
  }

  lemma VisitFields(p: Placement, ctx: Context, attrs: Attributes, name: AttributeName)
    requires name in attrs
    ensures Visit(p, ctx, name, attrs[name]) == Placement(
      Prefer(StrongNuma(ctx, attrs)(name), Prefer(p.numaNode, WeakNuma(ctx, attrs)(name))),
      Prefer(StrongPcie(ctx, attrs)(name), p.pcieRoot),
      Prefer(StrongSocket(ctx, attrs)(name), Prefer(p.socket, WeakSocket(ctx, attrs)(name))),
      if name.Named? && NamedBy(ctx.rules, ctx.driver, name) then p.extended[name := attrs[name]] else p.extended)
  {
    if name.Named? {
      ApplyRulesFields(ApplyAliases(p, ctx.aliases, name, attrs[name]), ctx.driver, ctx.rules, name, attrs[name]);
    }
  }

  function ExtendedOf(ctx: Context, attrs: Attributes, names: set<AttributeName>): Attributes {
    map name | name in names && name in attrs && name.Named? && NamedBy(ctx.rules, ctx.driver, name) :: attrs[name]
  }

  lemma ExtendedOfStep(ctx: Context, attrs: Attributes, names: set<AttributeName>, name: AttributeName)
    requires name in attrs
    ensures ExtendedOf(ctx, attrs, names + {name}) ==
      if name.Named? && NamedBy(ctx.rules, ctx.driver, name)
      then ExtendedOf(ctx, attrs, names)[name := attrs[name]] else ExtendedOf(ctx, attrs, names)
  {
  }

  /** What every extraction computes, field by field, for a given visiting order. */
  lemma {:induction false} FoldFields(ctx: Context, attrs: Attributes, order: seq<AttributeName>)
    requires forall name :: name in order ==> name in attrs
    ensures Fold(ctx, attrs, order) == Placement(
      Resolve(order, StrongNuma(ctx, attrs), WeakNuma(ctx, attrs)),
      Resolve(order, StrongPcie(ctx, attrs), NoSource()),
      Resolve(order, StrongSocket(ctx, attrs), WeakSocket(ctx, attrs)),
      ExtendedOf(ctx, attrs, set name | name in order))
  {
    if order != [] {
      var init, name := order[..|order| - 1], order[|order| - 1];
      FoldFields(ctx, attrs, init);
      VisitFields(Fold(ctx, attrs, init), ctx, attrs, name);
      ExtendedOfStep(ctx, attrs, (set n | n in init), name);
      assert (set n | n in order) == (set n | n in init) + {name} by {
        assert order == init + [name];
      }
    }
  }

  // ---------------------------------------------------------------------
  // Confluence
  // ---------------------------------------------------------------------

  ghost predicate Publishes<V(!new)>(names: set<AttributeName>, source: Source<V>) {
    exists a :: a in names && source(a).Some?
  }

  ghost predicate Agree<V(!new)>(names: set<AttributeName>, source: Source<V>) {
    forall a, b :: a in names && b in names && source(a).Some? && source(b).Some? ==> source(a) == source(b)
  }

  /** The condition for an order-free outcome: strong sources agree, and if there are none, weak ones do. */
  ghost predicate Settled<V(!new)>(names: set<AttributeName>, strong: Source<V>, weak: Source<V>) {
    Agree(names, strong) && (Publishes(names, strong) || Agree(names, weak))
  }

  /** A strong source beats every weak one, whatever the order. */
  lemma {:induction false} ResolveSource<V(!new)>(order: seq<AttributeName>, strong: Source<V>, weak: Source<V>)
    ensures var r, names := Resolve(order, strong, weak), (set name | name in order);
      if Publishes(names, strong) then r.Some? && exists a :: a in names && strong(a) == r
      else if Publishes(names, weak) then r.Some? && exists a :: a in names && weak(a) == r
      else r.None?
  {
    if order != [] {
      var init, name := order[..|order| - 1], order[|order| - 1];
      assert order == init + [name];
      ResolveSource(init, strong, weak);
      assert (set n | n in order) == (set n | n in init) + {name};
    }
  }

  lemma SettledResolve<V(!new)>(names: set<AttributeName>, strong: Source<V>, weak: Source<V>, o: seq<AttributeName>,
                         o': seq<AttributeName>)
    requires Settled(names, strong, weak) && ListsSet(o, names) && ListsSet(o', names)
    ensures Resolve(o, strong, weak) == Resolve(o', strong, weak)
  {
    assert (set n | n in o) == names == (set n | n in o');
    ResolveSource(o, strong, weak);
    ResolveSource(o', strong, weak);
  }

  /** Any finite set of names can be visited in some order. */
  lemma {:induction false} OrderExists(names: set<AttributeName>) returns (order: seq<AttributeName>)
    ensures ListsSet(order, names)
    decreases |names|
  {
    if names == {} {
      order := [];
    } else {
      var a :| a in names;
      order := OrderExists(names - {a});
      order := order + [a];
    }
  }

  lemma {:induction false} ResolveWeakFirst<V(!new)>(name: AttributeName, order: seq<AttributeName>, strong: Source<V>,
                                              weak: Source<V>)
    requires strong(name).None? && weak(name).Some?
    requires forall a :: a in order ==> strong(a).None?
    ensures Resolve([name] + order, strong, weak) == weak(name)
  {
    var all := [name] + order;
    if order == [] {
      assert all[..0] == [];
    } else {
      var init := order[..|order| - 1];
      ResolveWeakFirst(name, init, strong, weak);
      assert all[..|all| - 1] == [name] + init;
      assert all[|all| - 1] in order;
    }
  }

  /** Two conflicting sources can each be made to win, by visiting them last (strong) or first (weak). */
  lemma UnsettledWitness<V(!new)>(names: set<AttributeName>, strong: Source<V>, weak: Source<V>)
    returns (o: seq<AttributeName>, o': seq<AttributeName>)
    requires !Settled(names, strong, weak)
    ensures ListsSet(o, names) && ListsSet(o', names)
    ensures Resolve(o, strong, weak) != Resolve(o', strong, weak)
  {
    if !Agree(names, strong) {
      var a, b :| a in names && b in names && strong(a).Some? && strong(b).Some? && strong(a) != strong(b);
      o := OrderExists(names - {a});
      o' := OrderExists(names - {b});
      o, o' := o + [a], o' + [b];
    } else {
      var a, b :| a in names && b in names && weak(a).Some? && weak(b).Some? && weak(a) != weak(b);
      o := OrderExists(names - {a});
      o' := OrderExists(names - {b});
      ResolveWeakFirst(a, o, strong, weak);
      ResolveWeakFirst(b, o', strong, weak);
      o, o' := [a] + o, [b] + o';
    }
  }

  /** The three topology fields of a device are all settled. */
  ghost predicate Unambiguous(ctx: Context, attrs: Attributes) {
    && Settled(attrs.Keys, StrongNuma(ctx, attrs), WeakNuma(ctx, attrs))
    && Settled(attrs.Keys, StrongPcie(ctx, attrs), NoSource())
    && Settled(attrs.Keys, StrongSocket(ctx, attrs), WeakSocket(ctx, attrs))
  }

  /** Every visiting order gives the same placement. */
  ghost predicate OrderFree(ctx: Context, attrs: Attributes) {
    forall p, p' :: Extracts(ctx, attrs, p) && Extracts(ctx, attrs, p') ==> p == p'
  }

  /** Extraction gives one answer for every visiting order exactly when the attributes are unambiguous. */
  lemma ExtractionConfluent(ctx: Context, attrs: Attributes)
    ensures OrderFree(ctx, attrs) <==> Unambiguous(ctx, attrs)
  {
    if Unambiguous(ctx, attrs) {
      forall p, p' | Extracts(ctx, attrs, p) && Extracts(ctx, attrs, p') ensures p == p' {
        UnambiguousExtracts(ctx, attrs, p, p');
      }
    } else {
      AmbiguousExtracts(ctx, attrs);
    }
  }

  lemma UnambiguousExtracts(ctx: Context, attrs: Attributes, p: Placement, p': Placement)
    requires Unambiguous(ctx, attrs) && Extracts(ctx, attrs, p) && Extracts(ctx, attrs, p')
    ensures p == p'
  {
    var names := attrs.Keys;
    var o :| ListsSet(o, names) && p == Fold(ctx, attrs, o);
    var o' :| ListsSet(o', names) && p' == Fold(ctx, attrs, o');
    FoldFields(ctx, attrs, o);
    FoldFields(ctx, attrs, o');
    SettledResolve(names, StrongNuma(ctx, attrs), WeakNuma(ctx, attrs), o, o');
    SettledResolve(names, StrongPcie(ctx, attrs), NoSource(), o, o');
    SettledResolve(names, StrongSocket(ctx, attrs), WeakSocket(ctx, attrs), o, o');
    assert (set n | n in o) == names == (set n | n in o');
  }

  lemma AmbiguousExtracts(ctx: Context, attrs: Attributes)
    requires !Unambiguous(ctx, attrs)
    ensures !OrderFree(ctx, attrs)
  {
    var names := attrs.Keys;
    var o, o';
    if !Settled(names, StrongNuma(ctx, attrs), WeakNuma(ctx, attrs)) {
      o, o' := UnsettledWitness(names, StrongNuma(ctx, attrs), WeakNuma(ctx, attrs));
    } else if !Settled(names, StrongPcie(ctx, attrs), NoSource()) {
      o, o' := UnsettledWitness(names, StrongPcie(ctx, attrs), NoSource());
    } else {
      o, o' := UnsettledWitness(names, StrongSocket(ctx, attrs), WeakSocket(ctx, attrs));
    }
    FoldFields(ctx, attrs, o);
    FoldFields(ctx, attrs, o');
    assert Extracts(ctx, attrs, Fold(ctx, attrs, o)) && Extracts(ctx, attrs, Fold(ctx, attrs, o'));
  }

  /** The standard name, or a rule-mapped one, decides the NUMA node even when aliases are present. */
  lemma StrongNumaWins(ctx: Context, attrs: Attributes, p: Placement)
    requires Extracts(ctx, attrs, p)
    requires Publishes(attrs.Keys, StrongNuma(ctx, attrs))
    ensures p.numaNode.Some? && exists n :: n in attrs && p.numaNode == StrongNuma(ctx, attrs)(n)
  {
    var o :| ListsSet(o, attrs.Keys) && p == Fold(ctx, attrs, o);
    FoldFields(ctx, attrs, o);
    assert (set n | n in o) == attrs.Keys;
    ResolveSource(o, StrongNuma(ctx, attrs), WeakNuma(ctx, attrs));
  }
}
