/**
 * What the link and share handlers do instead of rendering: the route they
 * navigate to, the router state they pass, and the notification they show.
 */
module Navigation {
  import opened Base

  /** A notification: title, message and colour. */
  datatype Notice = Notice(title: string, message: string, color: string)

  /** A navigation: the target path, the `sharedImeis` router state if any, and the notification shown with it if any. */
  datatype Route = Route(path: string, sharedImeis: Option<seq<string>>, notice: Option<Notice>)

  /** A plain navigation with no router state and no notification. */
  function GoTo(path: string): (r: Route)
    ensures r.path == path && r.sharedImeis.None? && r.notice.None?
  {
    Route(path, None, None)
  }
}
