/** The projection of a management resource onto an Open MBean info: the
    description text, one attribute per described attribute, the explicit
    operations the address exposes, and one synthesized "add child"
    operation per child type the child-add finder reports. */
module MBeanInfoFactory {
  import opened Wrappers
  import opened Dmr
  import opened Descriptions
  import opened OpenMBean
  import opened Registry

  /** The DMR conversion that refused a node of the wrong shape (DMR raises
      an `IllegalArgumentException`, which aborts the whole projection). */
  datatype ConversionError =
    | AttributesWithoutKeys               // `keys()` of the `attributes` node
    | RequestPropertiesNotAPropertyList   // `asPropertyList()` of `request-properties`
    | ReplyPropertiesNotAList             // `asList()` of `reply-properties`

  /** The factory's state: the registration, the resource's own description
      document, and the address of the resource. */
  datatype Factory = Factory(registration: Registration, providedDescription: Node, pathAddress: PathAddress)

  /** A resource without a description provider is described by an empty
      (undefined) document. */
  function NewFactory(address: PathAddress, registration: Registration): (f: Factory)
    ensures f.registration == registration
    ensures f.pathAddress == address
    ensures registration.description.None? ==> f.providedDescription == Undefined
    ensures registration.description.Some? ==> f.providedDescription == registration.description.value
  {
    Factory(registration, registration.description.GetOr(Undefined), address)
  }

  /** The `description` text of a document, or the placeholder "-". */
  function DescriptionOr(n: Node, render: Node -> string): (r: string)
    ensures !HasDefined(n, DESCRIPTION) ==> r == "-"
    ensures Get(n, DESCRIPTION).StringValue? ==> r == Get(n, DESCRIPTION).s
  {
    if HasDefined(n, DESCRIPTION) then AsString(Get(n, DESCRIPTION), render) else "-"
  }

  /** The MBean's description: the resource's `description` text, or "-"
      when the document does not define one. */
  function Description(f: Factory, env: Collaborators): (r: string)
    ensures !HasDefined(f.providedDescription, DESCRIPTION) ==> r == "-"
    ensures Get(f.providedDescription, DESCRIPTION).StringValue? ==>
              r == Get(f.providedDescription, DESCRIPTION).s
  {
    DescriptionOr(f.providedDescription, env.render)
  }

  // ---------------------------------------------------------------- attributes

  /** The info of the attribute `name`: its camel-case name, always readable,
      never an `is` getter, writable exactly when its access entry is
      read-write, typed and described from its attribute document. */
  function Attribute(f: Factory, env: Collaborators, name: string): (r: AttributeInfo)
    ensures r.name == env.camelCase(name)
    ensures r.isReadable && !r.isIs
    ensures r.isWritable <==> f.registration.attributeAccess(name) == Some(ReadWrite)
    ensures r.description == DescriptionOr(Get(Get(f.providedDescription, ATTRIBUTES), name), env.render)
    ensures r.openType == env.toOpenType(Get(Get(f.providedDescription, ATTRIBUTES), name))
  {
    var attribute := Get(Get(f.providedDescription, ATTRIBUTES), name);
    var access := f.registration.attributeAccess(name);
    AttributeInfo(
      env.camelCase(name),
      DescriptionOr(attribute, env.render),
      env.toOpenType(attribute),
      true,
      if access.Some? then access.value == ReadWrite else false,
      false)
  }

  /** One attribute info per name, in order. */
  function AttributeInfos(f: Factory, env: Collaborators, names: seq<string>): (r: seq<AttributeInfo>)
    ensures |r| == |names|
    ensures forall i :: 0 <= i < |names| ==> r[i] == Attribute(f, env, names[i])
  {
    seq(|names|, i requires 0 <= i < |names| => Attribute(f, env, names[i]))
  }

  /** The attribute list: empty when the document defines no `attributes`,
      otherwise one info per key of the `attributes` node, in key order (an
      object's keys, or the one name of a property node). Any other
      `attributes` node makes DMR refuse. */
  function Attributes(f: Factory, env: Collaborators): (r: Result<seq<AttributeInfo>, ConversionError>)
    ensures !HasDefined(f.providedDescription, ATTRIBUTES) ==> r == Success([])
    ensures r.Success? <==>
              !HasDefined(f.providedDescription, ATTRIBUTES)
              || Get(f.providedDescription, ATTRIBUTES).ObjectValue?
              || Get(f.providedDescription, ATTRIBUTES).PropertyValue?
    ensures r.Failure? ==> r.error == AttributesWithoutKeys
    ensures r.Success? && Get(f.providedDescription, ATTRIBUTES).ObjectValue? ==>
              var entries := Get(f.providedDescription, ATTRIBUTES).entries;
              |r.value| == |entries|
              && forall i :: 0 <= i < |entries| ==> r.value[i] == Attribute(f, env, entries[i].name)
    ensures r.Success? && Get(f.providedDescription, ATTRIBUTES).PropertyValue? ==>
              r.value == [Attribute(f, env, Get(f.providedDescription, ATTRIBUTES).property.name)]
  {
    if !HasDefined(f.providedDescription, ATTRIBUTES) then Success([])
    else
      match Keys(Get(f.providedDescription, ATTRIBUTES))
      case None => Failure(AttributesWithoutKeys)
      case Some(names) => Success(AttributeInfos(f, env, names))
  }

  // ---------------------------------------------------------------- operations

  /** The parameter info of one request property. */
  function ParameterOf(env: Collaborators, p: Property): (r: ParameterInfo)
    ensures r.name == env.camelCase(p.name)
    ensures r.description == DescriptionOr(p.value, env.render)
    ensures r.openType == env.toOpenType(p.value)
  {
    ParameterInfo(env.camelCase(p.name), DescriptionOr(p.value, env.render), env.toOpenType(p.value))
  }

  /** One parameter info per request property, in order. */
  function ParametersOf(env: Collaborators, props: seq<Property>): (r: seq<ParameterInfo>)
    ensures |r| == |props|
    ensures forall i :: 0 <= i < |props| ==> r[i] == ParameterOf(env, props[i])
  {
    seq(|props|, i requires 0 <= i < |props| => ParameterOf(env, props[i]))
  }

  /** The parameters of an operation: none when its document defines no
      `request-properties`, otherwise one per request property, in order. */
  function ParameterInfos(env: Collaborators, opNode: Node): (r: Result<seq<ParameterInfo>, ConversionError>)
    ensures !HasDefined(opNode, REQUEST_PROPERTIES) ==> r == Success([])
    ensures r.Success? <==>
              !HasDefined(opNode, REQUEST_PROPERTIES) || ConvertsToPropertyList(Get(opNode, REQUEST_PROPERTIES))
    ensures r.Failure? ==> r.error == RequestPropertiesNotAPropertyList
    ensures r.Success? && HasDefined(opNode, REQUEST_PROPERTIES) ==>
              var props := PropertyList(Get(opNode, REQUEST_PROPERTIES), env.render).value;
              |r.value| == |props|
              && forall i :: 0 <= i < |props| ==> r.value[i] == ParameterOf(env, props[i])
  {
    if !HasDefined(opNode, REQUEST_PROPERTIES) then Success([])
    else
      match PropertyList(Get(opNode, REQUEST_PROPERTIES), env.render)
      case None => Failure(RequestPropertiesNotAPropertyList)
      case Some(props) => Success(ParametersOf(env, props))
  }

  /** The return type of an operation: VOID when its document defines no
      `reply-properties` or an empty list or object there, otherwise the
      converted type of the `reply-properties` node (a non-empty list or
      object, or a property node). A scalar there makes DMR refuse. */
  function ReturnType(env: Collaborators, opNode: Node): (r: Result<OpenType, ConversionError>)
    ensures !HasDefined(opNode, REPLY_PROPERTIES) ==> r == Success(VOID)
    ensures Get(opNode, REPLY_PROPERTIES) in {ListValue([]), ObjectValue([])} ==> r == Success(VOID)
    ensures var reply := Get(opNode, REPLY_PROPERTIES);
            (reply.ListValue? && |reply.items| > 0) || (reply.ObjectValue? && |reply.entries| > 0)
            || reply.PropertyValue? ==>
              r == Success(env.toOpenType(reply))
    ensures r.Failure? <==>
              HasDefined(opNode, REPLY_PROPERTIES)
              && !Get(opNode, REPLY_PROPERTIES).ListValue? && !Get(opNode, REPLY_PROPERTIES).ObjectValue?
              && !Get(opNode, REPLY_PROPERTIES).PropertyValue?
    ensures r.Failure? ==> r.error == ReplyPropertiesNotAList
  {
    if !HasDefined(opNode, REPLY_PROPERTIES) then Success(VOID)
    else
      match ListView(Get(opNode, REPLY_PROPERTIES))
      case None => Failure(ReplyPropertiesNotAList)
      case Some(items) =>
        if |items| == 0 then Success(VOID)
        else Success(env.toOpenType(Get(opNode, REPLY_PROPERTIES)))
  }

  /** An operation info built from the operation's description document,
      with `leading` (the instance-name parameter of a wildcard child add)
      placed before the document's own parameters. */
  function Operation(env: Collaborators, name: string, leading: Option<ParameterInfo>, opNode: Node)
    : (r: Result<OperationInfo, ConversionError>)
    ensures r.Success? <==> ParameterInfos(env, opNode).Success? && ReturnType(env, opNode).Success?
    ensures ParameterInfos(env, opNode).Failure? ==> r == Failure(ParameterInfos(env, opNode).error)
    ensures ParameterInfos(env, opNode).Success? && ReturnType(env, opNode).Failure? ==>
              r == Failure(ReturnType(env, opNode).error)
    ensures r.Success? ==>
              && r.value.name == name
              && r.value.description == DescriptionOr(opNode, env.render)
              && r.value.returnOpenType == ReturnType(env, opNode).value
              && r.value.impact == Unknown
    ensures r.Success? && leading.None? ==> r.value.signature == ParameterInfos(env, opNode).value
    ensures r.Success? && leading.Some? ==>
              |r.value.signature| == |ParameterInfos(env, opNode).value| + 1
              && r.value.signature[0] == leading.value
              && r.value.signature[1..] == ParameterInfos(env, opNode).value
  {
    var params :- ParameterInfos(env, opNode);
    var signature := if leading.Some? then [leading.value] + params else params;
    var returnType :- ReturnType(env, opNode);
    Success(OperationInfo(name, DescriptionOr(opNode, env.render), signature, returnType, Unknown))
  }

  /** Whether an explicitly registered operation is exposed: `add` and
      `describe` never are, and the root resource hides the global
      operations of `RootExcluded`. */
  predicate Exposed(opName: string, root: bool): (r: bool)
    ensures r <==> opName !in {ADD, DESCRIBE} + (if root then RootExcluded else {})
  {
    opName != ADD && opName != DESCRIBE && !(root && opName in RootExcluded)
  }

  /** `a` is `b` with some elements left out, order kept. */
  ghost predicate Subsequence<T>(a: seq<T>, b: seq<T>)
    decreases |b|
  {
    if |a| == 0 then true
    else if |b| == 0 then false
    else if a[0] == b[0] then Subsequence(a[1..], b[1..])
    else Subsequence(a, b[1..])
  }

  /** The registered operations the address exposes, in the iteration
      order of the registration's operation map. */
  function SelectOperations(entries: seq<OperationEntry>, root: bool): (r: seq<OperationEntry>)
    ensures forall e :: e in r ==> e in entries && e.name != ADD && e.name != DESCRIBE
    ensures root ==> forall e :: e in r ==> e.name !in RootExcluded
    ensures forall e :: e in entries && Exposed(e.name, root) ==> e in r
    ensures Subsequence(r, entries)
    decreases |entries|
  {
    if |entries| == 0 then []
    else
      var rest := SelectOperations(entries[1..], root);
      if Exposed(entries[0].name, root) then [entries[0]] + rest else rest
  }

  /** The explicit operations, named by camel-casing their registered names. */
  function ExplicitOperations(env: Collaborators, entries: seq<OperationEntry>)
    : (r: seq<Result<OperationInfo, ConversionError>>)
    ensures |r| == |entries|
    ensures forall i :: 0 <= i < |entries| ==>
              r[i] == Operation(env, env.camelCase(entries[i].name), None, entries[i].description)
  {
    seq(|entries|, i requires 0 <= i < |entries| =>
      Operation(env, env.camelCase(entries[i].name), None, entries[i].description))
  }

  /** The instance-name parameter a wildcard child's add operation starts with. */
  function WildcardNameParameter(element: PathElement): (r: Option<ParameterInfo>)
    ensures r.Some? <==> element.IsWildcard()
    ensures r.Some? ==> r.value.name == "name" && r.value.openType == STRING
    ensures r.Some? ==> r.value.description == "The name of the " + element.key + " to add."
  {
    if element.IsWildcard() then
      Some(ParameterInfo("name", "The name of the " + element.key + " to add.", STRING))
    else None
  }

  /** One synthesized add operation per child-add entry, in the finder's order. */
  function ChildAddOperations(env: Collaborators, children: seq<ChildAddEntry>)
    : (r: seq<Result<OperationInfo, ConversionError>>)
    ensures |r| == |children|
    ensures forall j :: 0 <= j < |children| ==>
              r[j] == Operation(env, env.addOperationName(children[j].pathElement),
                                WildcardNameParameter(children[j].element), children[j].description)
  {
    seq(|children|, j requires 0 <= j < |children| =>
      Operation(env, env.addOperationName(children[j].pathElement),
                WildcardNameParameter(children[j].element), children[j].description))
  }

  /** The exposed explicit operations followed by the synthesized add
      operations, with no de-duplication. The first operation whose
      document DMR refuses aborts the list. */
  function OperationList(env: Collaborators, selected: seq<OperationEntry>, children: seq<ChildAddEntry>)
    : (r: Result<seq<OperationInfo>, ConversionError>)
    ensures var explicit := ExplicitOperations(env, selected);
            var derived := ChildAddOperations(env, children);
            && (r.Success? <==>
                  (forall i :: 0 <= i < |explicit| ==> explicit[i].Success?)
                  && (forall j :: 0 <= j < |derived| ==> derived[j].Success?))
            && (r.Success? ==> |r.value| == |selected| + |children|)
            && (r.Success? ==> forall i :: 0 <= i < |selected| ==> explicit[i] == Success(r.value[i]))
            && (r.Success? ==> forall j :: 0 <= j < |children| ==> derived[j] == Success(r.value[|selected| + j]))
  {
    CollectBoth(ExplicitOperations(env, selected), ChildAddOperations(env, children))
  }

  /** The operation list of the resource: its explicit operations, filtered
      by the address, then one add operation per child-add entry. */
  function Operations(f: Factory, env: Collaborators): (r: Result<seq<OperationInfo>, ConversionError>)
    ensures r.Success? ==>
              |r.value| == |SelectOperations(f.registration.operations, |f.pathAddress| == 0)|
                           + |f.registration.childAdds|
  {
    OperationList(env, SelectOperations(f.registration.operations, |f.pathAddress| == 0), f.registration.childAdds)
  }

  /** The MBean declares no constructors: the array is null. */
  function Constructors(): (r: Option<seq<ConstructorInfo>>)
    ensures r.None?
  {
    None
  }

  /** The MBean declares no notifications: the array is null. */
  function Notifications(): (r: Option<seq<NotificationInfo>>)
    ensures r.None?
  {
    None
  }

  /** The MBean info of the resource at `address`. */
  function CreateMBeanInfo(address: PathAddress, registration: Registration, env: Collaborators)
    : (r: Result<MBeanInfo, ConversionError>)
    ensures var f := NewFactory(address, registration);
            && (r.Success? <==> Attributes(f, env).Success? && Operations(f, env).Success?)
            && (Attributes(f, env).Failure? ==> r == Failure(Attributes(f, env).error))
            && (Attributes(f, env).Success? && Operations(f, env).Failure? ==>
                  r == Failure(Operations(f, env).error))
            && (r.Success? ==>
                  && r.value.className == env.className
                  && r.value.description == Description(f, env)
                  && r.value.attributes == Attributes(f, env).value
                  && r.value.constructors.None?
                  && r.value.operations == Operations(f, env).value
                  && r.value.notifications.None?)
  {
    var f := NewFactory(address, registration);
    var attributes :- Attributes(f, env);
    var operations :- Operations(f, env);
    Success(MBeanInfo(env.className, Description(f, env), attributes, Constructors(), operations, Notifications()))
  }
}
