/** Identities and descriptors the registry receives from the rest of the
    media server. Only the identities and the origin reference are kept:
    display names serve logging alone. */
module Info {

  datatype Option<+T> = None | Some(value: T)

  type HostId = nat
  type AppId = nat
  type StreamId = nat

  /** A host descriptor (info::Host). */
  datatype HostInfo = HostInfo(id: HostId)

  /** An application descriptor and the host it belongs to (info::Application). */
  datatype AppInfo = AppInfo(id: AppId, host: HostInfo)

  /** A stream descriptor (info::Stream): its application and, for a relayed
      or restreamed stream, the identity of the stream it derives from. */
  datatype StreamInfo = StreamInfo(id: StreamId, app: AppInfo, origin: Option<StreamId>)
}
