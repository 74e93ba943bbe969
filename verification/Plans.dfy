/** The rendered plan, as far as the health overlay and the backups view read it. */
module Plans {
  datatype ComponentKind = Agent | Application | Group | OtherKind

  /** `application` and `namespace` are empty when the plan leaves them out. */
  datatype Instance = Instance(id: string, application: string, namespace: string)

  /** `profile` is the bound profile, empty when there is none. */
  datatype Component = Component(
    id: string, kind: ComponentKind, profile: string, resolved: bool, instances: seq<Instance>)

  /** A node of the canvas view; `parent` is empty at the top. */
  datatype Node = Node(ref: string, parent: string)

  datatype Plan = Plan(components: seq<Component>, nodes: seq<Node>)

  predicate IsWorkload(c: Component) { c.kind.Agent? || c.kind.Application? }

  /** The workload namespaces of a component's instances; only membership matters. */
  function Namespaces(instances: seq<Instance>): seq<string>
    decreases |instances|
  {
    if instances == [] then []
    else
      var last := instances[|instances| - 1];
      Namespaces(instances[..|instances| - 1]) + if last.namespace != "" then [last.namespace] else []
  }

  /** `_component_namespaces`: the keys in order of first mention, the last mention's value. */
  function WorkloadIds(cs: seq<Component>): seq<string>
    decreases |cs|
  {
    if cs == [] then []
    else
      var front, last := WorkloadIds(cs[..|cs| - 1]), cs[|cs| - 1];
      if IsWorkload(last) && last.id !in front then front + [last.id] else front
  }

  function NamespacesOf(cs: seq<Component>, id: string): seq<string>
    decreases |cs|
  {
    if cs == [] then []
    else if IsWorkload(cs[|cs| - 1]) && cs[|cs| - 1].id == id then Namespaces(cs[|cs| - 1].instances)
    else NamespacesOf(cs[..|cs| - 1], id)
  }

  predicate IsAgent(cs: seq<Component>, id: string)
    decreases |cs|
  {
    cs != [] && (if cs[|cs| - 1].id == id then cs[|cs| - 1].kind.Agent? else IsAgent(cs[..|cs| - 1], id))
  }

  /** The bound profile of a component, or its own id. */
  function ProfileOf(cs: seq<Component>, id: string): string
    decreases |cs|
  {
    if cs == [] then id
    else if cs[|cs| - 1].id == id then if cs[|cs| - 1].profile != "" then cs[|cs| - 1].profile else id
    else ProfileOf(cs[..|cs| - 1], id)
  }

  /** The last parent the view gives a component; empty when it gives none. */
  function ParentOf(nodes: seq<Node>, ref: string): string
    decreases |nodes|
  {
    if nodes == [] then ""
    else if nodes[|nodes| - 1].ref == ref && nodes[|nodes| - 1].parent != "" then nodes[|nodes| - 1].parent
    else ParentOf(nodes[..|nodes| - 1], ref)
  }
}
