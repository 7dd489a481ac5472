/**
 * The two HTTP handlers that reach the core: `POST /signup`, which checks
 * the timezone and upserts, and `POST /test/{which}`, which runs one
 * category's reminder by name.
 */
module Endpoints {
  import opened Results
  import opened Text
  import opened Subscribers
  import opened Reminders

  /** The validated body of `POST /signup`. */
  datatype SignupRequest = SignupRequest(email: string, timezone: string, alerts: Alerts)

  /** The body's defaults: New York time and every category on. */
  function DefaultSignup(email: string): SignupRequest {
    SignupRequest(email, "America/New_York", AllAlerts)
  }

  datatype SignupResponse = Saved(email: string) | HttpError(status: nat, detail: string)

  datatype SignupOutcome = SignupOutcome(table: Table, response: SignupResponse)

  /**
   * `signup`: a timezone without a `/` is answered with 400 and nothing is
   * stored; any other request is upserted and its email echoed back.
   */
  function Signup(t: Table, req: SignupRequest, now: Timestamp): (r: SignupOutcome)
    ensures '/' !in req.timezone <==> r.response.HttpError?
    ensures '/' !in req.timezone ==> r.table == t && r.response == HttpError(400, "Invalid timezone")
    ensures '/' in req.timezone ==>
              && r.response == Saved(req.email)
              && GetUser(r.table, req.email)
                 == Some(UserRow(req.email, req.timezone, req.alerts, req.email in t.rows && t.rows[req.email].unsubscribed))
              && (forall e :: e != req.email ==> GetUser(r.table, e) == GetUser(t, e))
              && r.table == Upsert(t, req.email, req.timezone, req.alerts, now)
  {
    if '/' !in req.timezone then
      SignupOutcome(t, HttpError(400, "Invalid timezone"))
    else
      GetAfterUpsert(t, req.email, req.timezone, req.alerts, now);
      SignupOutcome(Upsert(t, req.email, req.timezone, req.alerts, now), Saved(req.email))
  }

  /** The default body always passes the timezone check. */
  lemma DefaultSignupAccepted(t: Table, email: string, now: Timestamp)
    ensures Signup(t, DefaultSignup(email), now).response == Saved(email)
  {
    assert DefaultSignup(email).timezone[7] == '/';
  }

  /** The name `/test/{which}` accepts for each category. */
  function CategoryName(c: Category): string {
    match c
    case Thu => "thu"
    case Sat => "sat"
    case Sun => "sun"
    case Waiver => "waiver"
  }

  /** The if-chain of the handler, applied to an already lower-cased name. */
  function ParseCategory(name: string): (r: Option<Category>)
    ensures r.None? <==> name !in {"thu", "sat", "sun", "waiver"}
    ensures r.Some? ==> CategoryName(r.value) == name
  {
    if name == "thu" then Some(Thu)
    else if name == "sat" then Some(Sat)
    else if name == "sun" then Some(Sun)
    else if name == "waiver" then Some(Waiver)
    else None
  }

  /** Every category is recognised by its own name. */
  lemma ParseCategoryName(c: Category)
    ensures ParseCategory(CategoryName(c)) == Some(c)
  {
  }

  datatype TestResponse = Ran(which: string) | UseError(error: string)

  datatype TestOutcome = TestOutcome(response: TestResponse, dispatch: Dispatch)

  /**
   * `test`: lower-case the name; one of the four names runs that
   * category's reminder, anything else is answered with an error and
   * sends nothing.
   */
  function RunTest(t: Table, which: string): (r: TestOutcome)
    ensures r.response.Ran? <==> Lower(which) in {"thu", "sat", "sun", "waiver"}
    ensures r.response.Ran? ==>
              && r.response.which == Lower(which)
              && exists c :: CategoryName(c) == Lower(which) && r.dispatch == Fire(t, c)
    ensures r.response.UseError? ==>
              r.response.error == "use thu, sat, sun, waiver" && r.dispatch.sends == [] && r.dispatch.sent == 0
  {
    var name := Lower(which);
    match ParseCategory(name)
    case Some(c) => TestOutcome(Ran(name), Fire(t, c))
    case None => TestOutcome(UseError("use thu, sat, sun, waiver"), Dispatch([], 0))
  }

  /** Case does not matter: a name and its lower-cased form run the same thing. */
  lemma RunTestCaseInsensitive(t: Table, which: string)
    ensures RunTest(t, which) == RunTest(t, Lower(which))
  {
    LowerIdempotent(which);
  }

  /** The upper-case spelling of a category runs that category's reminder. */
  lemma RunTestUpperCase(t: Table)
    ensures RunTest(t, "WAIVER") == TestOutcome(Ran("waiver"), Fire(t, Waiver))
  {
    assert Lower("WAIVER") == "waiver";
  }
}
