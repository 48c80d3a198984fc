/** The names the projection compares against: the keys of a description
    document and the management operation names. Their definitions live in
    the management controller (ModelDescriptionConstants,
    GlobalOperationHandlers, CompositeOperationHandler,
    DeploymentUploadStreamAttachmentHandler, RootResourceHack), which is not
    part of this model; the values are those of the management API. */
module Descriptions {

  // Keys of a description document.
  const DESCRIPTION: string := "description"
  const ATTRIBUTES: string := "attributes"
  const REQUEST_PROPERTIES: string := "request-properties"
  const REPLY_PROPERTIES: string := "reply-properties"

  // Lifecycle operations that are never exposed directly.
  const ADD: string := "add"
  const DESCRIBE: string := "describe"

  // Global operations registered on the root resource.
  const READ_RESOURCE_OPERATION: string := "read-resource"
  const READ_ATTRIBUTE_OPERATION: string := "read-attribute"
  const READ_RESOURCE_DESCRIPTION_OPERATION: string := "read-resource-description"
  const READ_CHILDREN_NAMES_OPERATION: string := "read-children-names"
  const READ_CHILDREN_TYPES_OPERATION: string := "read-children-types"
  const READ_CHILDREN_RESOURCES_OPERATION: string := "read-children-resources"
  const READ_OPERATION_NAMES_OPERATION: string := "read-operation-names"
  const READ_OPERATION_DESCRIPTION_OPERATION: string := "read-operation-description"
  const WRITE_ATTRIBUTE_OPERATION: string := "write-attribute"
  const VALIDATE_ADDRESS_OPERATION_NAME: string := "validate-address"
  const COMPOSITE_OPERATION_NAME: string := "composite"
  const UPLOAD_DEPLOYMENT_STREAM_OPERATION_NAME: string := "upload-deployment-stream"
  const ROOT_RESOURCE_HACK_NAME: string := "root-resource-details-hack"

  /** The operations the root resource does not expose individually.
      `getOperations` compares against `read-resource` three times; a set
      holds it once. */
  const RootExcluded: set<string> := {
    READ_RESOURCE_OPERATION, READ_ATTRIBUTE_OPERATION,
    READ_RESOURCE_DESCRIPTION_OPERATION, READ_CHILDREN_NAMES_OPERATION,
    READ_CHILDREN_TYPES_OPERATION, READ_CHILDREN_RESOURCES_OPERATION,
    READ_OPERATION_NAMES_OPERATION, READ_OPERATION_DESCRIPTION_OPERATION,
    WRITE_ATTRIBUTE_OPERATION, VALIDATE_ADDRESS_OPERATION_NAME,
    COMPOSITE_OPERATION_NAME, UPLOAD_DEPLOYMENT_STREAM_OPERATION_NAME,
    ROOT_RESOURCE_HACK_NAME
  }
}
