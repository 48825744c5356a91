/**
 * Every `log.Fatalf` of the updater, as a value. The program stops at the
 * first of these; the model returns it as the `Err` of a `Result`.
 */
module Fatal {
  datatype Error =
    | BadEnvironmentVariable(entry: string)  // an environment entry without `=`
    | ConfigLoadFailed                        // the SDK's default configuration did not load
    | TemplateReadFailed(path: string)        // the local template file could not be read
    | TemplateValidationFailed                // ValidateTemplate (by body or by URL) failed
    | StackDescribeFailed(stackName: string)  // DescribeStacks failed
    | StackNotReturned(stackName: string)     // DescribeStacks returned other than one stack
    | UnknownParameter(key: string)           // an override names a parameter the stack lacks
    | WaitBeforeFailed                        // the wait before the update failed or timed out
    | UpdateFailed                            // UpdateStack failed
    | WaitAfterFailed                         // the wait after the update failed or timed out
}
