/**
 * The two request bodies the HTTP handlers bind, after JSON decoding. A field the
 * body leaves out holds Go's zero value: "" for a string, a nil map for a
 * fragment; ranging over it visits nothing, so the model uses an empty map.
 */
module Requests {

  /** Body of `GET /config`. */
  datatype GetVectorConfigRequest =
    GetVectorConfigRequest(configMapName: string, configMapNameSpace: string)

  /** Body of `POST /config`: the record to update and the fragments to merge into it. */
  datatype UpdateVectorConfigRequest<V> = UpdateVectorConfigRequest(
    configMapName: string,
    configMapNameSpace: string,
    transforms: map<string, V>,
    sinks: map<string, V>,
    sources: map<string, V>)

  /** `binding:"required"` on a string field: the field must be present and non-empty. */
  predicate RequiredFieldsPresent(configMapName: string, configMapNameSpace: string)
  {
    configMapName != "" && configMapNameSpace != ""
  }

  function RequiredTagError(structName: string, field: string): string
  {
    "Key: '" + structName + "." + field + "' Error:Field validation for '" + field + "' failed on the 'required' tag"
  }

  /**
   * The binding error text: one line per missing required field, in declaration
   * order, as the validator joins them.
   */
  function ValidationMessage(structName: string, configMapName: string, configMapNameSpace: string): (msg: string)
    requires !RequiredFieldsPresent(configMapName, configMapNameSpace)
    ensures msg != ""
  {
    if configMapName == "" && configMapNameSpace == "" then
      RequiredTagError(structName, "ConfigMapName") + "\n" + RequiredTagError(structName, "ConfigMapNameSpace")
    else if configMapName == "" then
      RequiredTagError(structName, "ConfigMapName")
    else
      RequiredTagError(structName, "ConfigMapNameSpace")
  }
}
