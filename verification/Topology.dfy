/** The entities of the coordinator: devices with their topology attributes, rules that give
    vendor attributes a meaning, and the attribute lookups every later stage relies on. */
module Topology {
  import opened Collections
  import opened Text

  /** A qualified attribute name: one of the three standard names, or another text.  `Named` is for texts that
      differ from the standard ones, so that a name has one form. */
  datatype AttributeName = NumaNodeName | PcieRootName | SocketName | Named(text: string)
  {
    function Text(): string {
      match this
      case NumaNodeName => "resource.kubernetes.io/numaNode"
      case PcieRootName => "resource.kubernetes.io/pcieRoot"
      case SocketName => "nodepartition.dra.k8s.io/socket"
      case Named(text) => text
    }
  }

  /** A typed attribute value; a driver sets one of the three fields. */
  datatype AttributeValue = AttributeValue(intValue: Option<int>, stringValue: Option<string>, boolValue: Option<bool>)
  {
    /** `DeviceAttributeValue.String`. */
    function Render(): string {
      if intValue.Some? then Decimal(intValue.value)
      else if stringValue.Some? then stringValue.value
      else if boolValue.Some? then (if boolValue.value then "true" else "false")
      else "<nil>"
    }
  }

  /** A reference to a shared counter set with the amounts drawn from its counters. */
  datatype CounterConsumption = CounterConsumption(counterSet: string, amounts: seq<int>)

  /** A capacity: `units` is the integer `Value()` of a well-formed Kubernetes quantity. */
  datatype Quantity = Quantity(units: int) | Unparsable(text: string)

  datatype TopologyDevice = TopologyDevice(
    driverName: string,
    deviceName: string,
    nodeName: string,
    poolName: string,
    numaNode: Option<int>,
    numaNodes: seq<int>,
    pcieRoot: Option<string>,
    pcieRoots: seq<string>,
    socket: Option<int>,
    extended: map<AttributeName, AttributeValue>,
    capacity: map<string, Quantity>,
    consumes: seq<CounterConsumption>)

  datatype MapsTo = MapsToNumaNode | MapsToPcieRoot | MapsToSocket | MapsToNothing
  datatype Partitioning = PartitionByGroup | PartitionInfoOnly
  datatype Constraint = ConstraintMatch | ConstraintNone
  datatype Enforcement = Required | Preferred | Unset

  datatype TopologyRule = TopologyRule(
    name: string,
    attribute: AttributeName,
    driver: string,
    mapsTo: MapsTo,
    partitioning: Partitioning,
    constraint: Constraint,
    enforcement: Enforcement,
    fallbackAttribute: Option<AttributeName>,
    deviceClass: string)

  /** The driver part of a driver/pool key: everything before the first '/'. */
  function BaseDriver(name: string): string {
    if name == [] || name[0] == '/' then [] else [name[0]] + BaseDriver(name[1..])
  }

  function Base(d: TopologyDevice): string {
    BaseDriver(d.driverName)
  }

  function Decimals(ns: seq<int>): (r: seq<string>)
    ensures |r| == |ns|
  {
    seq(|ns|, i requires 0 <= i < |ns| => Decimal(ns[i]))
  }

  /** All values a device carries for an attribute: a list form beats the scalar form. */
  function AttributeValues(d: TopologyDevice, attribute: AttributeName): seq<string> {
    match attribute
    case NumaNodeName =>
      if d.numaNodes != [] then Decimals(d.numaNodes)
      else if d.numaNode.Some? then [Decimal(d.numaNode.value)] else []
    case PcieRootName =>
      if d.pcieRoots != [] then d.pcieRoots
      else if d.pcieRoot.Some? then [d.pcieRoot.value] else []
    case SocketName => if d.socket.Some? then [Decimal(d.socket.value)] else []
    case Named(_) => if attribute in d.extended then [d.extended[attribute].Render()] else []
  }

  /** The first value, or "" when there is none. */
  function AttributeValueString(d: TopologyDevice, attribute: AttributeName): string {
    var vals := AttributeValues(d, attribute);
    if vals != [] then vals[0] else ""
  }

  predicate HasScalarAttribute(d: TopologyDevice, attribute: AttributeName) {
    match attribute
    case NumaNodeName => d.numaNode.Some?
    case PcieRootName => d.pcieRoot.Some?
    case SocketName => d.socket.Some?
    case Named(_) => attribute in d.extended
  }

  /** The key functions passed to groupDevicesByAttribute. */
  function NumaKey(d: TopologyDevice): string {
    if d.numaNode.Some? then Decimal(d.numaNode.value) else ""
  }

  function PcieKey(d: TopologyDevice): string {
    if d.pcieRoot.Some? then d.pcieRoot.value else ""
  }

  function SocketKey(d: TopologyDevice): string {
    if d.socket.Some? then Decimal(d.socket.value) else ""
  }
}
