/** The kinds of events every run reports in; `OtherKind` stands for those no part of the model tells apart. */
module Events {

  datatype EventKind =
    | Progress | FinalResult | Message | Tool | FatalError | PermissionEvent | Blocking | UsageEvent
    | Artifact | Warning | SessionEvent | NativeExtension | OtherKind(name: string)
}
