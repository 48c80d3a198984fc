/** Properties of the whole projection, stated on `CreateMBeanInfo`: what the
    description, the attribute list and the operation list of the produced
    MBean info are, in terms of the registration it was built from. */
module FactoryProperties {
  import opened Wrappers
  import opened Dmr
  import opened Descriptions
  import opened OpenMBean
  import opened Registry
  import opened MBeanInfoFactory

  /** An operation document whose request and reply properties DMR can
      convert: `request-properties`, when defined, converts to a property
      list, and
      `reply-properties`, when defined, is a list, an object or a property. */
  ghost predicate WellShaped(opNode: Node) {
    && (!HasDefined(opNode, REQUEST_PROPERTIES) || ConvertsToPropertyList(Get(opNode, REQUEST_PROPERTIES)))
    && (!HasDefined(opNode, REPLY_PROPERTIES)
        || Get(opNode, REPLY_PROPERTIES).ListValue? || Get(opNode, REPLY_PROPERTIES).ObjectValue?
        || Get(opNode, REPLY_PROPERTIES).PropertyValue?)
  }

  /** Building an operation fails exactly when DMR cannot convert its
      document's request or reply properties. */
  lemma OperationSucceedsIffWellShaped(env: Collaborators, name: string, leading: Option<ParameterInfo>, opNode: Node)
    ensures Operation(env, name, leading, opNode).Success? <==> WellShaped(opNode)
  {
  }

  /** An operation is selected exactly when it is registered and exposed. */
  lemma SelectedIffExposed(entries: seq<OperationEntry>, root: bool, e: OperationEntry)
    ensures e in SelectOperations(entries, root) <==> e in entries && Exposed(e.name, root)
  {
  }

  /** The explicit operations built from `selected` all succeed exactly when
      every selected entry has a well-shaped document. */
  lemma ExplicitOperationsOfSucceedIffWellShaped(env: Collaborators, selected: seq<OperationEntry>)
    ensures var explicit := ExplicitOperations(env, selected);
            (forall i :: 0 <= i < |explicit| ==> explicit[i].Success?)
            <==> (forall e :: e in selected ==> WellShaped(e.description))
  {
    var explicit := ExplicitOperations(env, selected);
    forall i | 0 <= i < |selected|
      ensures explicit[i].Success? <==> WellShaped(selected[i].description)
    {
      OperationSucceedsIffWellShaped(env, env.camelCase(selected[i].name), None, selected[i].description);
    }
    if forall i :: 0 <= i < |explicit| ==> explicit[i].Success? {
      forall e | e in selected ensures WellShaped(e.description) {
        var i :| 0 <= i < |selected| && selected[i] == e;
        assert explicit[i].Success?;
      }
    }
  }

  /** The explicit operations can all be built exactly when every exposed
      registered operation has a well-shaped document. */
  lemma ExplicitOperationsSucceedIffWellShaped(env: Collaborators, entries: seq<OperationEntry>, root: bool)
    ensures var explicit := ExplicitOperations(env, SelectOperations(entries, root));
            (forall i :: 0 <= i < |explicit| ==> explicit[i].Success?)
            <==> (forall e :: e in entries && Exposed(e.name, root) ==> WellShaped(e.description))
  {
    var selected := SelectOperations(entries, root);
    ExplicitOperationsOfSucceedIffWellShaped(env, selected);
    if forall e :: e in selected ==> WellShaped(e.description) {
      forall e | e in entries && Exposed(e.name, root) ensures WellShaped(e.description) {
        SelectedIffExposed(entries, root, e);
      }
    } else {
      var e :| e in selected && !WellShaped(e.description);
      SelectedIffExposed(entries, root, e);
    }
  }

  /** The synthesized add operations can all be built exactly when every
      child add description is well shaped. */
  lemma ChildAddOperationsSucceedIffWellShaped(env: Collaborators, children: seq<ChildAddEntry>)
    ensures var derived := ChildAddOperations(env, children);
            (forall j :: 0 <= j < |derived| ==> derived[j].Success?)
            <==> (forall c :: c in children ==> WellShaped(c.description))
  {
    var derived := ChildAddOperations(env, children);
    forall j | 0 <= j < |children|
      ensures derived[j].Success? <==> WellShaped(children[j].description)
    {
      var c := children[j];
      OperationSucceedsIffWellShaped(env, env.addOperationName(c.pathElement), WildcardNameParameter(c.element), c.description);
    }
  }

  /** The projection fails only on a document DMR cannot convert: it
      succeeds exactly when the `attributes` node, if defined, is an object
      or a property node, and the documents of every exposed operation and of every child add
      operation are well shaped. */
  lemma ProjectionSucceedsIffWellShaped(address: PathAddress, registration: Registration, env: Collaborators)
    ensures var doc := registration.description.GetOr(Undefined);
            var root := |address| == 0;
            CreateMBeanInfo(address, registration, env).Success?
            <==> && (!HasDefined(doc, ATTRIBUTES)
                     || Get(doc, ATTRIBUTES).ObjectValue? || Get(doc, ATTRIBUTES).PropertyValue?)
                 && (forall e :: e in registration.operations && Exposed(e.name, root) ==> WellShaped(e.description))
                 && (forall c :: c in registration.childAdds ==> WellShaped(c.description))
  {
    ExplicitOperationsSucceedIffWellShaped(env, registration.operations, |address| == 0);
    ChildAddOperationsSucceedIffWellShaped(env, registration.childAdds);
  }

  /** A resource whose registration has no description provider gets the
      placeholder description "-" and no attributes. */
  lemma MissingProviderGivesPlaceholder(address: PathAddress, registration: Registration, env: Collaborators)
    requires registration.description.None?
    ensures var r := CreateMBeanInfo(address, registration, env);
            && (r.Success? <==> Operations(NewFactory(address, registration), env).Success?)
            && (r.Success? ==> r.value.description == "-" && r.value.attributes == [])
  {
  }

  /** The MBean description is the document's `description` string when it
      defines one, and "-" when it does not. */
  lemma MBeanDescription(address: PathAddress, registration: Registration, env: Collaborators)
    ensures var r := CreateMBeanInfo(address, registration, env);
            var doc := registration.description.GetOr(Undefined);
            && (r.Success? && !HasDefined(doc, DESCRIPTION) ==> r.value.description == "-")
            && (r.Success? && Get(doc, DESCRIPTION).StringValue? ==>
                  r.value.description == Get(doc, DESCRIPTION).s)
  {
  }

  /** With an `attributes` object (whose keys are, as DMR keeps them,
      distinct), the attribute list has exactly one entry per key, in key
      order: the camel-case name, readable, not an `is` getter, writable
      exactly when the access entry is read-write, typed and described from
      that key's own attribute document. */
  lemma AttributeList(address: PathAddress, registration: Registration, env: Collaborators)
    requires registration.description.Some?
    requires Get(registration.description.value, ATTRIBUTES).ObjectValue?
    requires UniqueKeys(Get(registration.description.value, ATTRIBUTES).entries)
    ensures var r := CreateMBeanInfo(address, registration, env);
            var entries := Get(registration.description.value, ATTRIBUTES).entries;
            && (r.Success? <==> Operations(NewFactory(address, registration), env).Success?)
            && (r.Success? ==> |r.value.attributes| == |entries|)
            && (r.Success? ==> forall i :: 0 <= i < |entries| ==>
                  && r.value.attributes[i].name == env.camelCase(entries[i].name)
                  && r.value.attributes[i].isReadable
                  && !r.value.attributes[i].isIs
                  && (r.value.attributes[i].isWritable
                      <==> registration.attributeAccess(entries[i].name) == Some(ReadWrite))
                  && r.value.attributes[i].description == DescriptionOr(entries[i].value, env.render)
                  && r.value.attributes[i].openType == env.toOpenType(entries[i].value))
  {
    var f := NewFactory(address, registration);
    var entries := Get(registration.description.value, ATTRIBUTES).entries;
    forall i | 0 <= i < |entries|
      ensures Get(Get(f.providedDescription, ATTRIBUTES), entries[i].name) == entries[i].value
    {
      GetNthKey(entries, i);
    }
  }

  /** An `attributes` node that is a single property yields exactly one
      attribute, named, typed and described from that property. */
  lemma PropertyAttributeIsOneAttribute(address: PathAddress, registration: Registration, env: Collaborators)
    requires registration.description.Some?
    requires Get(registration.description.value, ATTRIBUTES).PropertyValue?
    ensures var r := CreateMBeanInfo(address, registration, env);
            var p := Get(registration.description.value, ATTRIBUTES).property;
            && (r.Success? <==> Operations(NewFactory(address, registration), env).Success?)
            && (r.Success? ==>
                  && |r.value.attributes| == 1
                  && r.value.attributes[0].name == env.camelCase(p.name)
                  && r.value.attributes[0].isReadable
                  && (r.value.attributes[0].isWritable
                      <==> registration.attributeAccess(p.name) == Some(ReadWrite))
                  && r.value.attributes[0].description == DescriptionOr(p.value, env.render)
                  && r.value.attributes[0].openType == env.toOpenType(p.value))
  {
  }

  /** When the name converter keeps distinct attribute keys distinct, the
      attribute names of the MBean are pairwise distinct. */
  lemma AttributeNamesDistinct(address: PathAddress, registration: Registration, env: Collaborators)
    requires registration.description.Some?
    requires Get(registration.description.value, ATTRIBUTES).ObjectValue?
    requires UniqueKeys(Get(registration.description.value, ATTRIBUTES).entries)
    requires forall a, b ::
               (a in Names(Get(registration.description.value, ATTRIBUTES).entries)
                && b in Names(Get(registration.description.value, ATTRIBUTES).entries)
                && a != b) ==> env.camelCase(a) != env.camelCase(b)
    ensures var r := CreateMBeanInfo(address, registration, env);
            r.Success? ==>
              forall i, j :: 0 <= i < j < |r.value.attributes| ==>
                r.value.attributes[i].name != r.value.attributes[j].name
  {
    var r := CreateMBeanInfo(address, registration, env);
    var f := NewFactory(address, registration);
    var entries := Get(registration.description.value, ATTRIBUTES).entries;
    var names := Names(entries);
    if r.Success? {
      var attributes := Attributes(f, env).value;
      assert r.value.attributes == attributes;
      forall i, j | 0 <= i < j < |attributes|
        ensures attributes[i].name != attributes[j].name
      {
        assert attributes[i] == Attribute(f, env, entries[i].name);
        assert attributes[j] == Attribute(f, env, entries[j].name);
        assert names[i] in names && names[j] in names && names[i] != names[j];
      }
    }
  }

  /** Every explicit operation of the MBean comes from a registered operation
      that is neither `add` nor `describe` and, at the root address, is not
      one of the hidden global operations; it is that operation's info under
      its camel-case name. The synthesized add operations fill the rest. */
  lemma ExplicitOperationsAreExposed(address: PathAddress, registration: Registration, env: Collaborators)
    ensures var r := CreateMBeanInfo(address, registration, env);
            r.Success? ==>
              && |r.value.operations| >= |registration.childAdds|
              && forall i :: 0 <= i < |r.value.operations| - |registration.childAdds| ==>
                   exists e :: e in registration.operations
                               && e.name != ADD && e.name != DESCRIBE
                               && (|address| == 0 ==> e.name !in RootExcluded)
                               && Success(r.value.operations[i])
                                  == Operation(env, env.camelCase(e.name), None, e.description)
  {
    var r := CreateMBeanInfo(address, registration, env);
    var selected := SelectOperations(registration.operations, |address| == 0);
    if r.Success? {
      forall i | 0 <= i < |r.value.operations| - |registration.childAdds|
        ensures exists e :: e in registration.operations
                            && e.name != ADD && e.name != DESCRIBE
                            && (|address| == 0 ==> e.name !in RootExcluded)
                            && Success(r.value.operations[i])
                               == Operation(env, env.camelCase(e.name), None, e.description)
      {
        assert selected[i] in selected;
      }
    }
  }

  /** Away from the root, every registered operation other than `add` and
      `describe` appears among the explicit operations of the MBean. */
  lemma NonRootExposesEveryOperation(address: PathAddress, registration: Registration, env: Collaborators, e: OperationEntry)
    requires |address| > 0
    requires e in registration.operations
    requires e.name != ADD && e.name != DESCRIBE
    ensures var r := CreateMBeanInfo(address, registration, env);
            r.Success? ==>
              exists i :: 0 <= i < |r.value.operations| - |registration.childAdds|
                          && Success(r.value.operations[i])
                             == Operation(env, env.camelCase(e.name), None, e.description)
  {
    var selected := SelectOperations(registration.operations, false);
    assert e in selected;
    var i :| 0 <= i < |selected| && selected[i] == e;
    var r := CreateMBeanInfo(address, registration, env);
    if r.Success? {
      assert Success(r.value.operations[i]) == Operation(env, env.camelCase(e.name), None, e.description);
    }
  }

  /** Away from the root, a registration without `add` or `describe` is
      exposed in full and in iteration order. */
  lemma {:induction false} NonRootKeepsIterationOrder(entries: seq<OperationEntry>)
    requires forall e :: e in entries ==> e.name != ADD && e.name != DESCRIBE
    ensures SelectOperations(entries, false) == entries
    decreases |entries|
  {
    if |entries| > 0 {
      NonRootKeepsIterationOrder(entries[1..]);
      assert entries == [entries[0]] + entries[1..];
    }
  }

  /** Away from the root, with no `add` or `describe` registered, the MBean's
      operations are the registered operations in order, under their
      camel-case names, followed by the synthesized add operations. */
  lemma NonRootOperationsInOrder(address: PathAddress, registration: Registration, env: Collaborators)
    requires |address| > 0
    requires forall e :: e in registration.operations ==> e.name != ADD && e.name != DESCRIBE
    ensures var r := CreateMBeanInfo(address, registration, env);
            r.Success? ==>
              && |r.value.operations| == |registration.operations| + |registration.childAdds|
              && forall i :: 0 <= i < |registration.operations| ==>
                   r.value.operations[i].name == env.camelCase(registration.operations[i].name)
                   && Success(r.value.operations[i])
                      == Operation(env, env.camelCase(registration.operations[i].name), None,
                                   registration.operations[i].description)
  {
    NonRootKeepsIterationOrder(registration.operations);
  }

  /** The operation list holds the exposed explicit operations followed by
      exactly one operation per child-add entry: nothing is merged or
      dropped. */
  lemma OperationCount(address: PathAddress, registration: Registration, env: Collaborators)
    ensures var r := CreateMBeanInfo(address, registration, env);
            r.Success? ==>
              |r.value.operations|
              == |SelectOperations(registration.operations, |address| == 0)| + |registration.childAdds|
  {
  }

  /** In an operation list, the j-th child-add entry yields the j-th
      operation after the explicit ones. */
  lemma ChildAddOperationAt(env: Collaborators, selected: seq<OperationEntry>, children: seq<ChildAddEntry>, j: nat)
    requires j < |children|
    ensures var r := OperationList(env, selected, children);
            var c := children[j];
            r.Success? ==>
              && |r.value| >= |children|
              && Success(r.value[|r.value| - |children| + j])
                 == Operation(env, env.addOperationName(c.pathElement), WildcardNameParameter(c.element), c.description)
  {
    var r := OperationList(env, selected, children);
    if r.Success? {
      assert |r.value| == |selected| + |children|;
      assert ChildAddOperations(env, children)[j] == Success(r.value[|selected| + j]);
    }
  }

  /** The j-th child-add entry yields the j-th operation of the synthesized
      tail of the operation list, built from the child's add description
      under the add-operation name of the entry's key. */
  lemma ChildAddOperationPosition(address: PathAddress, registration: Registration, env: Collaborators, j: nat)
    requires j < |registration.childAdds|
    ensures var r := CreateMBeanInfo(address, registration, env);
            var c := registration.childAdds[j];
            r.Success? ==>
              && |r.value.operations| >= |registration.childAdds|
              && Success(r.value.operations[|r.value.operations| - |registration.childAdds| + j])
                 == Operation(env, env.addOperationName(c.pathElement), WildcardNameParameter(c.element), c.description)
  {
    var r := CreateMBeanInfo(address, registration, env);
    if r.Success? {
      var ops := Operations(NewFactory(address, registration), env);
      assert r.value.operations == ops.value;
      ChildAddOperationAt(env, SelectOperations(registration.operations, |address| == 0), registration.childAdds, j);
    }
  }

  /** A synthesized add operation is named by the add-operation naming
      convention, has impact UNKNOWN, and is described and typed from the
      child's add description. Its parameters are the description's request
      parameters, unchanged and in order, preceded for a wildcard child by
      the string parameter `name`. */
  lemma ChildAddOperationSignature(env: Collaborators, c: ChildAddEntry)
    ensures var r := Operation(env, env.addOperationName(c.pathElement), WildcardNameParameter(c.element), c.description);
            var params := ParameterInfos(env, c.description);
            r.Success? ==>
              && params.Success?
              && r.value.name == env.addOperationName(c.pathElement)
              && r.value.impact == Unknown
              && r.value.description == DescriptionOr(c.description, env.render)
              && Success(r.value.returnOpenType) == ReturnType(env, c.description)
              && (c.element.IsWildcard() ==>
                    && |r.value.signature| == |params.value| + 1
                    && r.value.signature[0]
                       == ParameterInfo("name", "The name of the " + c.element.key + " to add.", STRING)
                    && r.value.signature[1..] == params.value)
              && (!c.element.IsWildcard() ==> r.value.signature == params.value)
  {
  }

  /** A `request-properties` list gives one parameter per item, in order,
      each from the property its item converts to: a property node, a
      one-key object, or a (name, value) pair. */
  lemma ParametersFromRequestList(env: Collaborators, opNode: Node)
    requires Get(opNode, REQUEST_PROPERTIES).ListValue?
    ensures var items := Get(opNode, REQUEST_PROPERTIES).items;
            var r := ParameterInfos(env, opNode);
            && (r.Success? <==> forall i :: 0 <= i < |items| ==> ConvertsToProperty(items[i]))
            && (r.Success? ==>
                  && |r.value| == |items|
                  && forall i :: 0 <= i < |items| ==>
                       r.value[i] == ParameterOf(env, AsProperty(items[i], env.render).value))
  {
  }

  /** An explicit operation whose document declares no `reply-properties`
      and no `request-properties` takes no parameters and returns VOID. */
  lemma OperationWithoutPropertiesIsVoid(env: Collaborators, name: string, opNode: Node)
    requires !HasDefined(opNode, REQUEST_PROPERTIES) && !HasDefined(opNode, REPLY_PROPERTIES)
    ensures var r := Operation(env, name, None, opNode);
            r.Success? && r.value.signature == [] && r.value.returnOpenType == VOID
  {
  }

  /** The projection does not de-duplicate operation names: an explicit
      operation whose camel-case name equals a synthesized add operation's
      name yields two operations of that name. */
  lemma DuplicateOperationNamesAreKept()
    ensures var env := Collaborators(s => s, p => "addConnector", n => OtherType(""), n => "", "");
            var connector := PathElement("connector", "*");
            var registration := Registration(
              None, [OperationEntry("addConnector", Undefined)], a => None,
              [ChildAddEntry(connector, connector, Undefined)]);
            var r := CreateMBeanInfo([PathElement("subsystem", "web")], registration, env);
            && r.Success?
            && |r.value.operations| == 2
            && r.value.operations[0].name == r.value.operations[1].name == "addConnector"
  {
    var env := Collaborators(s => s, p => "addConnector", n => OtherType(""), n => "", "");
    var connector := PathElement("connector", "*");
    var entry := OperationEntry("addConnector", Undefined);
    var child := ChildAddEntry(connector, connector, Undefined);
    var registration := Registration(None, [entry], a => None, [child]);
    assert SelectOperations(registration.operations, false) == [entry];
    var explicit := Operation(env, "addConnector", None, Undefined);
    var derived := Operation(env, "addConnector", WildcardNameParameter(connector), Undefined);
    assert explicit.Success? && explicit.value.name == "addConnector";
    assert derived.Success? && derived.value.name == "addConnector";
    assert ExplicitOperations(env, [entry]) == [explicit];
    assert ChildAddOperations(env, [child]) == [derived];
  }

  /** A registered `read-resource` operation is hidden at the root address
      and exposed, under its converted name, anywhere else. */
  lemma ReadResourceHiddenOnlyAtRoot()
    ensures var env := Collaborators(s => s, p => "", n => OtherType(""), n => "", "");
            var registration := Registration(None, [OperationEntry(READ_RESOURCE_OPERATION, Undefined)], a => None, []);
            var atRoot := CreateMBeanInfo([], registration, env);
            var below := CreateMBeanInfo([PathElement("subsystem", "naming")], registration, env);
            && atRoot.Success? && atRoot.value.operations == []
            && below.Success? && |below.value.operations| == 1
            && below.value.operations[0].name == READ_RESOURCE_OPERATION
  {
    var entry := OperationEntry(READ_RESOURCE_OPERATION, Undefined);
    assert SelectOperations([entry], true) == [];
    assert SelectOperations([entry], false) == [entry];
  }
}
