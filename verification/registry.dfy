/** The read-only inputs of the projection: what the resource registration
    reports about the resource at hand, and the collaborators whose code is
    not part of this model. */
module Registry {
  import opened Wrappers
  import opened Dmr
  import opened OpenMBean

  /** One element of a resource address, `key=value`; the value `*` stands
      for every child of that type. */
  datatype PathElement = PathElement(key: string, value: string) {
    predicate IsWildcard() {
      value == "*"
    }
  }

  type PathAddress = seq<PathElement>

  datatype AccessType = ReadOnly | ReadWrite | Metric

  /** An operation registered directly on the resource, with the document its
      description provider returns. */
  datatype OperationEntry = OperationEntry(name: string, description: Node)

  /** One result of the child-add finder: the key of the finder's map, the
      child's own path element, and the description of the child's `add`
      operation. */
  datatype ChildAddEntry = ChildAddEntry(pathElement: PathElement, element: PathElement, description: Node)

  /** The registration handle, queried at the resource's own (empty
      relative) address:
      - `description`: the resource's description document, or `None` when
        no description provider is registered;
      - `operations`: the non-inherited operation entries, in iteration order;
      - `attributeAccess`: the access entry of an attribute, if any;
      - `childAdds`: the child-add finder's entries, in iteration order. */
  datatype Registration = Registration(
    description: Option<Node>,
    operations: seq<OperationEntry>,
    attributeAccess: string -> Option<AccessType>,
    childAdds: seq<ChildAddEntry>)

  /** Code the projection calls but that is not part of this model:
      `NameConverter.convertToCamelCase`,
      `NameConverter.createValidAddOperationName`,
      `TypeConverter.convertToMBeanType`, DMR's textual form of a non-string
      node, and the MBean class name constant. */
  datatype Collaborators = Collaborators(
    camelCase: string -> string,
    addOperationName: PathElement -> string,
    toOpenType: Node -> OpenType,
    render: Node -> string,
    className: string)
}
