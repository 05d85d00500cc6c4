/** Optional values and results, as the code's `Option` and `Result`. */
module Options {
  datatype Option<+T> = None | Some(value: T)

  datatype Error =
    | AllocationFailed | VMEntryFailed(code: int) | UnknownVMExitReason
    | VMCLEARFailed | VMREADFailed | VMWRITEFailed

  datatype Result<+T> = Ok(value: T) | Err(error: Error)
}
