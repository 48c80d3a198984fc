# JMX projection of a management resource (`MBeanInfoFactory`)

This project models how the application server's JMX layer describes one
management resource as an Open MBean. The input is the resource's generic
description document (a DMR `ModelNode`) and what its registration reports:
the operations registered on it, the access type of each attribute, and the
child types that can be added. The output is an `MBeanInfo` with these parts:

- the description text, or `"-"` when the document has none;
- one attribute per key of the document's `attributes` object, in key order;
  each is readable, never an `is` getter, and writable exactly when its
  access entry is read-write;
- the explicit operations. `add` and `describe` are never exposed, and the
  root address also hides the global read/write/introspection operations.
  Each kept operation is renamed to camel case. Its parameters come from
  `request-properties`. Its return type comes from `reply-properties`, and
  is VOID when that is undefined or empty;
- one synthesized add operation per child-add entry. For a wildcard child it
  starts with a string parameter `name`;
- null constructor and notification arrays.

Modules:

- `Wrappers` (wrappers.dfy): `Option`, `Result`, and `Collect`. `Collect`
  runs a sequence of computations that may fail and stops at the first
  failure, the way a Java loop over a throwing call does.
- `Dmr` (dmr.dfy): the description document as a tagged union `Node`, with
  `get`, `hasDefined`, `keys`, `asString`, `asPropertyList` and `asList`.
- `Descriptions` (descriptions.dfy): document keys, operation names, and the
  root exclusion set `RootExcluded`.
- `OpenMBean` (open_mbean.dfy): the Open MBean info records.
- `Registry` (registry.dfy): the registration handle as plain inputs. It also
  holds `Collaborators`, the code the factory calls but that is not modelled:
  `NameConverter.convertToCamelCase`,
  `NameConverter.createValidAddOperationName`,
  `TypeConverter.convertToMBeanType`, DMR's text form of a non-string node,
  and the MBean class name. These are function-valued parameters, so every
  property holds for any of them.
- `MBeanInfoFactory` (mbean_info_factory.dfy): the factory itself.
- `FactoryProperties` (factory_properties.dfy): properties of the whole
  projection.

Some DMR conversions raise `IllegalArgumentException` on a node of the wrong
shape: `keys()` of an `attributes` node that is neither an object nor a
property, `asPropertyList()` of a `request-properties` node that is a
scalar or a list with an item that does not convert to a property, and `asList()` of a scalar
`reply-properties` node. In Java that exception aborts `createMBeanInfo`.
Here it is a `Failure` of the `ConversionError` type. The first failing
conversion, in Java evaluation order, decides the error.

On these points the model follows `MBeanInfoFactory.java` exactly:

- Operation names are not de-duplicated (lines 168-181). An explicit
  operation and a synthesized add operation can share a name
  (`FactoryProperties.DuplicateOperationNamesAreKept`).
- A defined but empty `description` string is returned as it is (lines
  110-113 test `hasDefined`, not emptiness).
- Attributes keep the key order of the `attributes` node (line 119).
- The explicit operations do not depend on the resource's description
  document (lines 150-168). A resource with no document still exposes its
  registered operations.
- `createMBeanInfo` never raises `InstanceNotFoundException`, although it
  declares it (lines 92-98).
- The whole `reply-properties` node is converted to the return type (lines
  228-229).

## Model

| member | source | states |
|---|---|---|
| Wrappers.Collect | jmx/src/main/java/org/jboss/as/jmx/model/MBeanInfoFactory.java:149-171 | A loop that builds each operation in turn succeeds exactly when every step succeeds, and then yields all values in order. Otherwise it fails with the error of the first failing step, and every earlier step succeeded. |
| MBeanInfoFactory.NewFactory | jmx/src/main/java/org/jboss/as/jmx/model/MBeanInfoFactory.java:85-90 | With no description provider, the factory works on the undefined (empty) document. Otherwise it uses the provider's document. The address is kept. |
| MBeanInfoFactory.DescriptionOr | jmx/src/main/java/org/jboss/as/jmx/model/MBeanInfoFactory.java:196 | A document's description text is `"-"` when it has no defined `description`, and is the string itself when `description` holds a string. |
| MBeanInfoFactory.Description | jmx/src/main/java/org/jboss/as/jmx/model/MBeanInfoFactory.java:109-114 | The MBean description is `"-"` when the resource document defines no `description`, and is that string otherwise. |
| MBeanInfoFactory.Attribute | jmx/src/main/java/org/jboss/as/jmx/model/MBeanInfoFactory.java:126-137 | An attribute info has the camel-case name of its key and is readable and not `is`. It is writable iff the access entry exists and is READ_WRITE. Its description (default `"-"`) and type come from the attribute's own document. |
| MBeanInfoFactory.AttributeInfos | jmx/src/main/java/org/jboss/as/jmx/model/MBeanInfoFactory.java:119-121 | One attribute info per key, the i-th for the i-th key. |
| MBeanInfoFactory.Attributes | jmx/src/main/java/org/jboss/as/jmx/model/MBeanInfoFactory.java:116-124 | The list is empty when `attributes` is undefined. Otherwise it has one entry per key of the `attributes` object, in key order. A property node gives the one attribute of its name. Any other `attributes` node is refused. |
| MBeanInfoFactory.Constructors | jmx/src/main/java/org/jboss/as/jmx/model/MBeanInfoFactory.java:140-143 | The MBean declares no constructors: the array is null. |
| MBeanInfoFactory.Exposed | jmx/src/main/java/org/jboss/as/jmx/model/MBeanInfoFactory.java:152-166 | An operation is exposed iff its name is neither `add` nor `describe` and, at the root, not in `RootExcluded`. |
| MBeanInfoFactory.SelectOperations | jmx/src/main/java/org/jboss/as/jmx/model/MBeanInfoFactory.java:146-167 | Kept operations are registered ones, never `add` or `describe`. At the root none is in `RootExcluded`. Every operation the rule allows is kept, and iteration order is preserved (subsequence). |
| MBeanInfoFactory.ExplicitOperations | jmx/src/main/java/org/jboss/as/jmx/model/MBeanInfoFactory.java:168 | Each kept operation is built from its own description document under the camel-case form of its registered name, with no leading parameter. |
| MBeanInfoFactory.WildcardNameParameter | jmx/src/main/java/org/jboss/as/jmx/model/MBeanInfoFactory.java:176-179 | There is a leading parameter exactly for a wildcard child element. It is a STRING parameter named `name`. |
| MBeanInfoFactory.ChildAddOperations | jmx/src/main/java/org/jboss/as/jmx/model/MBeanInfoFactory.java:174-183 | One operation per child-add entry, in the finder's order. Each is named by the add-operation naming convention for the entry's key, and wildcard children get the `name` parameter. |
| MBeanInfoFactory.OperationList | jmx/src/main/java/org/jboss/as/jmx/model/MBeanInfoFactory.java:149-183 | The list is the kept explicit operations, in order, followed by one synthesized operation per child-add entry, with length (#kept + #children). It succeeds iff every one of them can be built. |
| MBeanInfoFactory.Operations | jmx/src/main/java/org/jboss/as/jmx/model/MBeanInfoFactory.java:145-172 | The resource's operation count is the number of registered operations its address exposes plus the number of child-add entries. |
| MBeanInfoFactory.Operation | jmx/src/main/java/org/jboss/as/jmx/model/MBeanInfoFactory.java:185-200 | An operation keeps its given name, has impact UNKNOWN, and has its document's description (default `"-"`) and return type. Its signature is the document's parameters, preceded by the leading parameter when one is given. Parameter errors come before return-type errors. |
| MBeanInfoFactory.ParameterOf | jmx/src/main/java/org/jboss/as/jmx/model/MBeanInfoFactory.java:208-214 | A request property becomes a parameter with the property's camel-case name, its converted type, and its description (default `"-"`). |
| MBeanInfoFactory.ParametersOf | jmx/src/main/java/org/jboss/as/jmx/model/MBeanInfoFactory.java:207-215 | One parameter per request property, the i-th for the i-th property. |
| MBeanInfoFactory.ParameterInfos | jmx/src/main/java/org/jboss/as/jmx/model/MBeanInfoFactory.java:202-217 | No parameters when `request-properties` is undefined. Otherwise one parameter per property of its property list (an object's entries, a property node, or one property per convertible list item), in order. Any other node is refused. |
| MBeanInfoFactory.ReturnType | jmx/src/main/java/org/jboss/as/jmx/model/MBeanInfoFactory.java:219-230 | VOID when `reply-properties` is undefined, an empty list or an empty object. A non-empty list or object, or a property node (one entry), gives the converted type of the whole node. A scalar is refused. |
| MBeanInfoFactory.Notifications | jmx/src/main/java/org/jboss/as/jmx/model/MBeanInfoFactory.java:232-235 | The MBean declares no notifications: the array is null. |
| MBeanInfoFactory.CreateMBeanInfo | jmx/src/main/java/org/jboss/as/jmx/model/MBeanInfoFactory.java:96-107 | The info has the class name, the description, the attributes, the operations, and null constructors and notifications. It succeeds iff the attributes and operations can be built, and attribute errors come first. |
| FactoryProperties.OperationSucceedsIffWellShaped | jmx/src/main/java/org/jboss/as/jmx/model/MBeanInfoFactory.java:185-230 | Building an operation fails exactly when DMR cannot convert its `request-properties` to a property list or its `reply-properties` to a list. |
| FactoryProperties.SelectedIffExposed | jmx/src/main/java/org/jboss/as/jmx/model/MBeanInfoFactory.java:150-167 | A registered operation is selected exactly when it is neither `add` nor `describe` and, at the root, not in `RootExcluded`. |
| FactoryProperties.ExplicitOperationsOfSucceedIffWellShaped | jmx/src/main/java/org/jboss/as/jmx/model/MBeanInfoFactory.java:168 | The explicit operations built from a selection can all be built iff every selected entry has a well-shaped document. |
| FactoryProperties.ExplicitOperationsSucceedIffWellShaped | jmx/src/main/java/org/jboss/as/jmx/model/MBeanInfoFactory.java:150-169 | All explicit operations can be built iff every exposed registered operation has a well-shaped document. |
| FactoryProperties.ChildAddOperationsSucceedIffWellShaped | jmx/src/main/java/org/jboss/as/jmx/model/MBeanInfoFactory.java:174-183 | All synthesized add operations can be built iff every child add description is well shaped. |
| FactoryProperties.ProjectionSucceedsIffWellShaped | jmx/src/main/java/org/jboss/as/jmx/model/MBeanInfoFactory.java:96-230 | The projection succeeds exactly when the `attributes` node (if defined) is an object or a property node, and every exposed operation and child-add document is well shaped. No other input makes it fail. |
| FactoryProperties.MissingProviderGivesPlaceholder | jmx/src/main/java/org/jboss/as/jmx/model/MBeanInfoFactory.java:87-88 | A registration without a description provider gets description `"-"` and no attributes. |
| FactoryProperties.MBeanDescription | jmx/src/main/java/org/jboss/as/jmx/model/MBeanInfoFactory.java:109-114 | The produced info's description is the document's `description` string, or `"-"` when the document defines none. |
| FactoryProperties.AttributeList | jmx/src/main/java/org/jboss/as/jmx/model/MBeanInfoFactory.java:116-137 | The produced attribute list has exactly one entry per key of `attributes`, in key order. Each entry's name, readability, writability, description and type come from that key's own entry. |
| FactoryProperties.PropertyAttributeIsOneAttribute | jmx/src/main/java/org/jboss/as/jmx/model/MBeanInfoFactory.java:116-137 | An `attributes` node holding a single property gives exactly one attribute, with that property's camel-case name, and its description and type taken from the property's value. |
| FactoryProperties.AttributeNamesDistinct | jmx/src/main/java/org/jboss/as/jmx/model/MBeanInfoFactory.java:119-127 | If camel casing keeps distinct keys distinct, the attribute names are pairwise distinct. |
| FactoryProperties.ExplicitOperationsAreExposed | jmx/src/main/java/org/jboss/as/jmx/model/MBeanInfoFactory.java:146-168 | Every explicit output operation comes from a registered operation that is not `add`/`describe`, and at the root not in `RootExcluded`. It is that operation's info under its camel-case name. |
| FactoryProperties.NonRootExposesEveryOperation | jmx/src/main/java/org/jboss/as/jmx/model/MBeanInfoFactory.java:150-168 | At a non-root address, every registered operation other than `add`/`describe` appears among the explicit output operations. |
| FactoryProperties.NonRootKeepsIterationOrder | jmx/src/main/java/org/jboss/as/jmx/model/MBeanInfoFactory.java:150-168 | At a non-root address with no `add`/`describe` registered, the selection is exactly the registered operations in iteration order. |
| FactoryProperties.NonRootOperationsInOrder | jmx/src/main/java/org/jboss/as/jmx/model/MBeanInfoFactory.java:145-171 | Under the same conditions, the i-th output operation is the i-th registered operation under its camel-case name. The synthesized operations follow. |
| FactoryProperties.OperationCount | jmx/src/main/java/org/jboss/as/jmx/model/MBeanInfoFactory.java:149-171 | The number of operations is the number of kept explicit operations plus the number of child-add entries. Nothing is merged. |
| FactoryProperties.ChildAddOperationAt | jmx/src/main/java/org/jboss/as/jmx/model/MBeanInfoFactory.java:168-181 | In an operation list, the j-th child-add entry gives the j-th operation after the explicit ones. |
| FactoryProperties.ChildAddOperationPosition | jmx/src/main/java/org/jboss/as/jmx/model/MBeanInfoFactory.java:170-183 | The j-th child-add entry gives the j-th operation of the tail that follows the explicit operations. It is built from the child's add description under the add-operation name of the entry's key. |
| FactoryProperties.ChildAddOperationSignature | jmx/src/main/java/org/jboss/as/jmx/model/MBeanInfoFactory.java:176-200 | A synthesized operation is named by the add-operation convention and has impact UNKNOWN. For a wildcard child its first parameter is `name` (STRING, "The name of the <key> to add."), followed by the child description's parameters unchanged. Otherwise it has exactly those parameters. |
| FactoryProperties.ParametersFromRequestList | jmx/src/main/java/org/jboss/as/jmx/model/MBeanInfoFactory.java:202-217 | A `request-properties` list gives parameters iff every item converts to a property (a property node, a one-key object or a two-item list), and then one parameter per item, in order, from that item's property. |
| FactoryProperties.OperationWithoutPropertiesIsVoid | jmx/src/main/java/org/jboss/as/jmx/model/MBeanInfoFactory.java:202-222 | An operation document with neither `request-properties` nor `reply-properties` yields no parameters and a VOID return type. |
| FactoryProperties.ReadResourceHiddenOnlyAtRoot | jmx/src/main/java/org/jboss/as/jmx/model/MBeanInfoFactory.java:155-168 | Example: a registered `read-resource` operation yields no operation at the root address and exactly one operation, of that name, below it. |
| FactoryProperties.DuplicateOperationNamesAreKept | jmx/src/main/java/org/jboss/as/jmx/model/MBeanInfoFactory.java:168-170 | An explicit operation and a synthesized add operation with the same name both appear: the list is not de-duplicated. |

## Left out

- The naming subsystem's boot step (`NamingSubsystemAdd`) is not modelled. It installs runtime services and registers a deployment processor, which is runtime wiring with no data logic.
- `NameConverter`, `TypeConverter` and `ChildAddOperationFinder` are not part of this model. The first two are function-valued parameters. The finder's result is an input sequence of entries (map key, child element, child add description). No property depends on what these functions compute.
- DMR behaviour beyond the shapes used here is not modelled. DMR's own code is not part of this model, so the shapes follow DMR's documented API. DMR's text form of a non-string node is a parameter. `get`, `hasDefined` and `keys()` answer for an object's keys and for a property node's one name. `asPropertyList()` is modelled for objects, single properties and lists whose every item converts by `asProperty()`: a property node, an object with exactly one key, or a two-item list (its first item's text names its second). `asList()` is modelled for lists, objects (one element per key) and property nodes (the node itself as the one element). Every other shape is refused.
- The JMX info classes' own argument validation (`OpenMBeanInfoSupport` and related classes) is not modelled. Their infos are plain records.
- Description providers are called with a null locale. The model takes the document each provider returns as its input.
- Operation-name constants from classes not in this model (`ModelDescriptionConstants`, `GlobalOperationHandlers`, `CompositeOperationHandler`, `DeploymentUploadStreamAttachmentHandler`, `RootResourceHack`) are written with their management-API values. The general properties hold whatever those values are. The two example lemmas (`FactoryProperties.ReadResourceHiddenOnlyAtRoot` and `FactoryProperties.DuplicateOperationNamesAreKept`) need the names to be pairwise distinct and different from `addConnector`.
- `ModelNode.require` failures are not modelled. The keys always come from the node being read, so they cannot fail.
- FactoryProperties.AttributeList: assumes the `attributes` object has distinct keys. DMR objects always do, but the `Node` datatype can also represent repeated keys.
- FactoryProperties.NonRootOperationsInOrder: stated only for registrations with no `add` or `describe`. The general case (kept operations form an order-preserving subsequence) is stated by `MBeanInfoFactory.SelectOperations`.
