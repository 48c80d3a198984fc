/** The Open MBean info values the projection produces, as plain records. */
module OpenMBean {
  import opened Wrappers

  /** An open type. Simple types are identified by their Java class name;
      whatever else the type converter builds is kept abstract. */
  datatype OpenType =
    | SimpleType(className: string)
    | OtherType(typeName: string)

  const STRING: OpenType := SimpleType("java.lang.String")
  const VOID: OpenType := SimpleType("java.lang.Void")

  /** `MBeanOperationInfo` impact codes. */
  datatype Impact = Info | Action | ActionInfo | Unknown

  datatype ParameterInfo = ParameterInfo(name: string, description: string, openType: OpenType)

  datatype AttributeInfo = AttributeInfo(
    name: string,
    description: string,
    openType: OpenType,
    isReadable: bool,
    isWritable: bool,
    isIs: bool)

  datatype OperationInfo = OperationInfo(
    name: string,
    description: string,
    signature: seq<ParameterInfo>,
    returnOpenType: OpenType,
    impact: Impact)

  datatype ConstructorInfo = ConstructorInfo(name: string, description: string, signature: seq<ParameterInfo>)

  datatype NotificationInfo = NotificationInfo(types: seq<string>, name: string, description: string)

  /** An `OpenMBeanInfoSupport`. The constructor and notification arrays may
      be null, hence `Option`. */
  datatype MBeanInfo = MBeanInfo(
    className: string,
    description: string,
    attributes: seq<AttributeInfo>,
    constructors: Option<seq<ConstructorInfo>>,
    operations: seq<OperationInfo>,
    notifications: Option<seq<NotificationInfo>>)
}
