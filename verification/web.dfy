/** What a route handler sees and returns: the server-side session, the
    reply (a JSON payload with its status code, a JSON error, or a redirect
    to a page), and the store and session after the request. */
module Web {
  import opened Values
  import opened Db

  /** The Flask session: `user_id`, `username` and `name` when present. */
  datatype Session = Session(userId: Option<Id>, username: Option<Value>, name: Option<string>)

  /** `session.clear()` */
  const Cleared := Session(None, None, None)

  /** The pages a browser route redirects to. */
  datatype Page = LoginPage | CourseListPage | DashboardPage | EditProfilePage

  datatype Reply<P> =
    | Success(code: int, payload: P)
    | Failure(code: int, message: string)
    | Redirect(to: Page)

  datatype Step<P> = Step(reply: Reply<P>, store: Store, session: Session)

  const Unauthorized := "Unauthorized"

  /** Stands for `str(e)` of a caught exception, whose wording comes from the
      library that raised it. */
  const ExceptionText := "<exception text>"

  /** The 401 every JSON route answers without a logged-in user. */
  function Denied<P>(s: Store, session: Session): Step<P> {
    Step(Failure(401, Unauthorized), s, session)
  }

  /** A failure that leaves store and session as they were. */
  function Fail<P>(code: int, message: string, s: Store, session: Session): Step<P> {
    Step(Failure(code, message), s, session)
  }
}
