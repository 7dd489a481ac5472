/**
 * The reminder fan-out: `send_to_matching_users`, the four category
 * wrappers that call it with a fixed subject and body, and the weekly
 * trigger table the scheduler is built with.
 */
module Reminders {
  import opened Subscribers

  /** The subject and body a category's reminder carries. */
  datatype Message = Message(subject: string, body: string)

  /** One call of `send_email(to, subject, body)`, recorded instead of performed. */
  datatype Send = Send(to: string, subject: string, body: string)

  /** The emails a fan-out sends, in order, and the count it reports. */
  datatype Dispatch = Dispatch(sends: seq<Send>, sent: nat)

  /** The start every reminder subject shares. */
  const SubjectPrefix := "FantasyFrenzy \U{1F514} "

  /** The constants `thursday_reminder` .. `waiver_reminder` pass along. */
  function MessageFor(c: Category): (r: Message)
    ensures |r.subject| > |SubjectPrefix| && r.subject[..|SubjectPrefix|] == SubjectPrefix
    ensures |r.body| > 0
  {
    var (title, body) := match c
      case Thu => ("Thursday Night Lineup Reminder", "TNF is coming up. Set your lineup now.")
      case Sat => ("Saturday Lineup Reminder", "Saturday games are coming up.")
      case Sun => ("Sunday Morning Lineup Reminder", "Final lineup check before kickoffs.")
      case Waiver => ("Waiver Reminder", "Waivers process tonight. Submit claims.");
    assert (SubjectPrefix + title)[..|SubjectPrefix|] == SubjectPrefix;
    Message(SubjectPrefix + title, body)
  }

  /** Each category's reminder is told apart from the others by its subject. */
  lemma SubjectsDistinct(c: Category, d: Category)
    requires c != d
    ensures MessageFor(c).subject != MessageFor(d).subject
  {
  }

  datatype Weekday = Monday | Tuesday | Wednesday | Thursday | Friday | Saturday | Sunday

  /** A weekly cron trigger: the zone it is evaluated in, day of week, hour and minute. */
  datatype CronRule = CronRule(zone: string, day: Weekday, hour: nat, minute: nat)

  /** The zone the scheduler evaluates its triggers in. */
  const SchedulerTimezone := "America/New_York"

  /** The trigger each category's reminder job is registered with. */
  function TriggerFor(c: Category): (r: CronRule)
    ensures r.zone == SchedulerTimezone
    ensures r.hour < 24 && r.minute < 60
  {
    match c
    case Thu => CronRule(SchedulerTimezone, Thursday, 18, 0)
    case Sat => CronRule(SchedulerTimezone, Saturday, 9, 0)
    case Sun => CronRule(SchedulerTimezone, Sunday, 9, 30)
    case Waiver => CronRule(SchedulerTimezone, Tuesday, 22, 0)
  }

  /** A user receives category `c` unless unsubscribed, and then only with the category's flag set. */
  predicate Eligible(u: UserRow, c: Category) {
    !u.unsubscribed && u.alerts.Get(c)
  }

  /** The users of a snapshot that receive category `c`, in snapshot order. */
  function Matching(users: seq<UserRow>, c: Category): seq<UserRow> {
    if users == [] then []
    else (if Eligible(users[0], c) then [users[0]] else []) + Matching(users[1..], c)
  }

  /** The emails of the users of a snapshot that receive category `c`. */
  function EligibleEmails(users: seq<UserRow>, c: Category): set<string> {
    set u | u in users && Eligible(u, c) :: u.email
  }

  /** Matching distributes over concatenation: earlier users are served first. */
  lemma {:induction false} MatchingAppend(a: seq<UserRow>, b: seq<UserRow>, c: Category)
    ensures Matching(a + b, c) == Matching(a, c) + Matching(b, c)
  {
    if a == [] {
      assert a + b == b;
    } else {
      var head := if Eligible(a[0], c) then [a[0]] else [];
      var ab := a + b;
      assert ab[0] == a[0] && ab[1..] == a[1..] + b;
      MatchingAppend(a[1..], b, c);
      assert Matching(ab, c) == head + Matching(a[1..] + b, c);
      assert Matching(a, c) == head + Matching(a[1..], c);
    }
  }

  /** The matched emails are exactly the emails of the eligible users. */
  lemma {:induction false} MatchingEmails(users: seq<UserRow>, c: Category)
    ensures Elements(Emails(Matching(users, c))) == EligibleEmails(users, c)
  {
    if users != [] {
      var u := users[0];
      var rest := users[1..];
      var head := if Eligible(u, c) then [u] else [];
      MatchingEmails(rest, c);
      EmailsAppend(head, Matching(rest, c));
      assert Elements(Emails(head) + Emails(Matching(rest, c)))
             == Elements(Emails(head)) + Elements(Emails(Matching(rest, c)));
      assert users == [u] + rest;
      assert EligibleEmails(users, c)
             == (if Eligible(u, c) then {u.email} else {}) + EligibleEmails(rest, c);
    }
  }

  /** Only emails that occur in a snapshot can be eligible in it. */
  lemma EligibleEmailsOccur(users: seq<UserRow>, c: Category)
    ensures EligibleEmails(users, c) <= Elements(Emails(users))
  {
    forall e | e in EligibleEmails(users, c)
      ensures e in Emails(users)
    {
      var u :| u in users && Eligible(u, c) && u.email == e;
      var i :| 0 <= i < |users| && users[i] == u;
      assert Emails(users)[i] == e;
    }
  }

  /** Prepending a user whose email is new keeps a snapshot's emails distinct. */
  lemma ConsDistinct(u: UserRow, m: seq<UserRow>)
    requires u.email !in Emails(m) && Distinct(Emails(m))
    ensures Distinct(Emails([u] + m))
  {
    EmailsAppend([u], m);
    assert Emails([u] + m) == [u.email] + Emails(m);
    DistinctCons(u.email, Emails(m));
  }

  /** With distinct emails, the first user's email is not matched again further on. */
  lemma HeadNotMatchedAgain(users: seq<UserRow>, c: Category)
    requires users != [] && Distinct(Emails(users))
    ensures users[0].email !in Emails(Matching(users[1..], c))
    ensures Distinct(Emails(users[1..]))
  {
    var u := users[0];
    var rest := users[1..];
    assert users == [u] + rest;
    EmailsAppend([u], rest);
    assert Emails(users) == [u.email] + Emails(rest);
    DistinctCons(u.email, Emails(rest));
    assert u.email !in Elements(Emails(rest));
    MatchingEmails(rest, c);
    EligibleEmailsOccur(rest, c);
    assert u.email !in Elements(Emails(Matching(rest, c)));
  }

  /** Users with distinct emails are matched with distinct emails. */
  lemma {:induction false} MatchingDistinct(users: seq<UserRow>, c: Category)
    requires Distinct(Emails(users))
    ensures Distinct(Emails(Matching(users, c)))
  {
    if users != [] {
      HeadNotMatchedAgain(users, c);
      MatchingDistinct(users[1..], c);
      if Eligible(users[0], c) {
        assert Matching(users, c) == [users[0]] + Matching(users[1..], c);
        ConsDistinct(users[0], Matching(users[1..], c));
      } else {
        assert Matching(users, c) == Matching(users[1..], c);
      }
    }
  }

  lemma MatchingDistinctWhen(users: seq<UserRow>, c: Category)
    ensures Distinct(Emails(users)) ==> Distinct(Emails(Matching(users, c)))
  {
    if Distinct(Emails(users)) {
      MatchingDistinct(users, c);
    }
  }

  /** The emails a dispatch goes to, in sending order. */
  function Recipients(sends: seq<Send>): (r: seq<string>)
    ensures |r| == |sends|
    ensures forall k :: 0 <= k < |sends| ==> r[k] == sends[k].to
  {
    seq(|sends|, k requires 0 <= k < |sends| => sends[k].to)
  }

  /**
   * What `send_to_matching_users` does with a snapshot: one send of the
   * given message per matching user, in snapshot order, and their count.
   */
  function FanOut(users: seq<UserRow>, c: Category, m: Message): (r: Dispatch)
    ensures r.sent == |r.sends| <= |users|
    ensures forall k :: 0 <= k < |r.sends| ==> r.sends[k].subject == m.subject && r.sends[k].body == m.body
    ensures Elements(Recipients(r.sends)) == EligibleEmails(users, c)
    ensures Distinct(Emails(users)) ==> Distinct(Recipients(r.sends))
    ensures Recipients(r.sends) == Emails(Matching(users, c))
  {
    var ms := Matching(users, c);
    var sends := seq(|ms|, k requires 0 <= k < |ms| => Send(ms[k].email, m.subject, m.body));
    assert Recipients(sends) == Emails(ms);
    MatchingLength(users, c);
    MatchingEmails(users, c);
    MatchingDistinctWhen(users, c);
    Dispatch(sends, |ms|)
  }

  lemma MatchingLength(users: seq<UserRow>, c: Category)
    ensures |Matching(users, c)| <= |users|
  {
  }

  /** Serving one more user adds its send at the end, if it matches. */
  lemma FanOutSnoc(users: seq<UserRow>, u: UserRow, c: Category, m: Message)
    ensures FanOut(users + [u], c, m)
            == if Eligible(u, c)
               then Dispatch(FanOut(users, c, m).sends + [Send(u.email, m.subject, m.body)], FanOut(users, c, m).sent + 1)
               else FanOut(users, c, m)
  {
    MatchingAppend(users, [u], c);
    assert Matching([u], c) == if Eligible(u, c) then [u] else [];
  }

  /**
   * `send_to_matching_users` as written: walk the snapshot, skip the
   * unsubscribed, send to those with the category's flag and count.
   */
  method SendToMatching(users: seq<UserRow>, c: Category, subject: string, body: string)
    returns (sends: seq<Send>, sent: nat)
    ensures Dispatch(sends, sent) == FanOut(users, c, Message(subject, body))
  {
    sends := [];
    sent := 0;
    var i := 0;
    while i < |users|
      invariant 0 <= i <= |users|
      invariant Dispatch(sends, sent) == FanOut(users[..i], c, Message(subject, body))
    {
      var u := users[i];
      FanOutSnoc(users[..i], u, c, Message(subject, body));
      assert users[..i + 1] == users[..i] + [u];
      if u.unsubscribed {
        // skip unsubscribed users
      } else if u.alerts.Get(c) {
        sends := sends + [Send(u.email, subject, body)];
        sent := sent + 1;
      }
      i := i + 1;
    }
    assert users[..|users|] == users;
  }

  /** The emails of the table that receive category `c`. */
  function Audience(t: Table, c: Category): set<string> {
    set e | e in t.rows && Eligible(View(t, e), c)
  }

  /** The table's audience is the set of eligible emails of its snapshot. */
  lemma AudienceOfSnapshot(t: Table, c: Category)
    ensures EligibleEmails(Snapshot(t), c) == Audience(t, c)
  {
    var users := Snapshot(t);
    forall e | e in Audience(t, c)
      ensures e in EligibleEmails(users, c)
    {
      assert e in Emails(users);
      var i :| 0 <= i < |users| && Emails(users)[i] == e;
      assert users[i] == View(t, e);
    }
  }

  /**
   * Firing a category's reminder against the table: every subscribed user
   * with the category's flag gets the category's message exactly once, no
   * one else gets anything, and the count is the size of that audience.
   */
  function Fire(t: Table, c: Category): (r: Dispatch)
    ensures forall k :: 0 <= k < |r.sends| ==>
              && r.sends[k].to in t.rows
              && !t.rows[r.sends[k].to].unsubscribed
              && t.rows[r.sends[k].to].alerts.Get(c)
    ensures forall e :: e in Audience(t, c) <==> e in Recipients(r.sends)
    ensures Distinct(Recipients(r.sends))
    ensures forall k :: 0 <= k < |r.sends| ==>
              r.sends[k].subject == MessageFor(c).subject && r.sends[k].body == MessageFor(c).body
    ensures r.sent == |r.sends| == |Audience(t, c)|
    ensures Recipients(r.sends) == Emails(Matching(Snapshot(t), c))
  {
    var r := FanOut(Snapshot(t), c, MessageFor(c));
    AudienceOfSnapshot(t, c);
    DistinctCardinality(Recipients(r.sends));
    assert forall k :: 0 <= k < |r.sends| ==> r.sends[k].to in Audience(t, c);
    r
  }

  /** Once a user is unsubscribed, no category's reminder reaches them. */
  lemma UnsubscribedGetsNothing(t: Table, email: string, c: Category)
    ensures email !in Recipients(Fire(SetUnsubscribed(t, email, true), c).sends)
  {
  }

  /** A user whose only flag is another category's receives nothing from this one. */
  lemma OtherCategoryGetsNothing(t: Table, email: string, c: Category)
    requires email in t.rows && !t.rows[email].alerts.Get(c)
    ensures email !in Recipients(Fire(t, c).sends)
  {
  }

  /** A first signup with every category on, then the waiver reminder: one email, to that user. */
  lemma SignupThenWaiver(now: Timestamp)
    ensures Fire(Upsert(Empty, "bob@x.com", "America/Chicago", AllAlerts, now), Waiver)
            == Dispatch([Send("bob@x.com", MessageFor(Waiver).subject, MessageFor(Waiver).body)], 1)
  {
    var t := Upsert(Empty, "bob@x.com", "America/Chicago", AllAlerts, now);
    var r := Fire(t, Waiver);
    assert t.rows.Keys == {"bob@x.com"};
    assert Audience(t, Waiver) == {"bob@x.com"};
    assert |r.sends| == 1;
    assert "bob@x.com" in Recipients(r.sends);
    assert r.sends[0].to == "bob@x.com";
  }
}
