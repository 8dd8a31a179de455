/**
 * What a script run hands back to the operations: the exit code, the
 * output values, the out-variables and, when configuration was collected,
 * one `ConfigurationInfo` per configuration item.
 */
module ScriptResults {
  import opened Common
  import opened RuntimeValues

  /** `ExecuteScriptResultConfigurationInfo`. */
  datatype ConfigurationInfo = ConfigurationInfo(
    configType: Option<string>,
    configKey: Option<string>,
    desired: RuntimeValue,
    current: RuntimeValue,
    driftDetected: Option<bool>)

  /** `ExecuteScriptResult`; a null `Configuration` list is `None`. */
  datatype ExecuteScriptResult = ExecuteScriptResult(
    exitCode: Option<int>,
    output: seq<RuntimeValue>,
    outVariables: seq<(string, RuntimeValue)>,
    configuration: Option<seq<ConfigurationInfo>>)

  /** `Output.FirstOrDefault()`. */
  function FirstOutput(output: seq<RuntimeValue>): RuntimeValue
  {
    if output == [] then Default else output[0]
  }
}
