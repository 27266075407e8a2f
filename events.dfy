/** What the coordinator does that shows up outside its own fields: help
    dialogs, the URL a secondary process writes to the socket, the stale
    endpoint it deletes, calls into windows (restoreState, slotHome) and
    requests to the window manager (raise, activateWindow). They are kept as
    an ordered log. */
module Events {
  import opened Windows
  import opened Snapshot

  /** Why the constructor showed its help dialog and stopped. */
  datatype HelpReason = InvalidArguments | TooManyArguments | InvalidUrl(url: Url)

  datatype Event =
    | HelpShown(reason: HelpReason)
    | UrlSent(server: string, url: Url)
    | StaleEndpointRemoved(server: string)
    | Restored(window: WinId, state: Blob)
    | WentHome(window: WinId)
    | Raised(window: WinId)
    | Activated(window: WinId)
}
