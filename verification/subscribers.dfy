/**
 * The `users` table: one record per distinct email, kept as a map from
 * email to record together with the order in which the emails were first
 * inserted (the table's rowid order, which is the order a plain
 * `SELECT ... FROM users` returns them in).
 */
module Subscribers {
  import opened Results

  /** The clock value `datetime.now().isoformat()` stored in `created_at`. */
  type Timestamp = string

  /** The four reminder categories, one per `alert_*` column. */
  datatype Category = Thu | Sat | Sun | Waiver

  /** The four `alert_*` flags of a record. */
  datatype Alerts = Alerts(thu: bool, sat: bool, sun: bool, waiver: bool) {
    /** The flag of column `alert_<c>`. */
    function Get(c: Category): bool {
      match c
      case Thu => thu
      case Sat => sat
      case Sun => sun
      case Waiver => waiver
    }
  }

  /** The columns' defaults: every category on. */
  const AllAlerts := Alerts(true, true, true, true)

  /** A stored record, keyed by its email in the table. */
  datatype Subscriber = Subscriber(timezone: string, alerts: Alerts, unsubscribed: bool, createdAt: Timestamp)

  /** The dictionary `get_user` and `get_all_users` build from a row; it omits `created_at`. */
  datatype UserRow = UserRow(email: string, timezone: string, alerts: Alerts, unsubscribed: bool)

  predicate Distinct<T(==)>(s: seq<T>) {
    forall i, j :: 0 <= i < j < |s| ==> s[i] != s[j]
  }

  function Elements<T>(s: seq<T>): set<T> {
    set x | x in s
  }

  /** A sequence is free of repetitions exactly when its head is new and its tail is free of them. */
  lemma DistinctCons<T>(x: T, s: seq<T>)
    ensures Distinct([x] + s) <==> x !in s && Distinct(s)
  {
    var xs := [x] + s;
    if x !in s && Distinct(s) {
      forall i, j | 0 <= i < j < |xs|
        ensures xs[i] != xs[j]
      {
        if i == 0 {
          assert xs[j] == s[j - 1];
        } else {
          assert xs[i] == s[i - 1] && xs[j] == s[j - 1];
        }
      }
    }
    if Distinct(xs) {
      forall i, j | 0 <= i < j < |s|
        ensures s[i] != s[j]
      {
        assert s[i] == xs[i + 1] && s[j] == xs[j + 1];
      }
      forall j | 0 <= j < |s|
        ensures s[j] != x
      {
        assert xs[j + 1] == s[j] && xs[0] == x;
      }
    }
  }

  datatype RawTable = RawTable(rows: map<string, Subscriber>, order: seq<string>)

  /** `email TEXT UNIQUE`: each stored email appears exactly once in the insertion order. */
  predicate WellFormed(t: RawTable) {
    && Distinct(t.order)
    && (forall e :: e in t.rows ==> e in t.order)
    && (forall i :: 0 <= i < |t.order| ==> t.order[i] in t.rows)
  }

  type Table = t: RawTable | WellFormed(t) witness RawTable(map[], [])

  const Empty: Table := RawTable(map[], [])

  /** The dictionary built from the stored row of `email`. */
  function View(t: Table, email: string): UserRow
    requires email in t.rows
  {
    var s := t.rows[email];
    UserRow(email, s.timezone, s.alerts, s.unsubscribed)
  }

  function Emails(users: seq<UserRow>): (r: seq<string>)
    ensures |r| == |users|
    ensures forall i :: 0 <= i < |users| ==> r[i] == users[i].email
  {
    seq(|users|, i requires 0 <= i < |users| => users[i].email)
  }

  lemma EmailsAppend(a: seq<UserRow>, b: seq<UserRow>)
    ensures Emails(a + b) == Emails(a) + Emails(b)
  {
  }

  /** A sequence without repetitions has as many distinct elements as it is long. */
  lemma {:induction false} DistinctCardinality<T>(s: seq<T>)
    requires Distinct(s)
    ensures |Elements(s)| == |s|
  {
    if s != [] {
      DistinctCardinality(s[1..]);
      assert Elements(s) == {s[0]} + Elements(s[1..]);
      assert s[0] !in Elements(s[1..]);
    }
  }

  /** The table holds as many records as its insertion order lists emails. */
  lemma TableSize(t: Table)
    ensures |t.rows| == |t.order|
  {
    assert t.rows.Keys == Elements(t.order);
    DistinctCardinality(t.order);
  }

  /**
   * `upsert_user`: `INSERT ... ON CONFLICT(email) DO UPDATE` that, for a new
   * email, adds a subscribed record created `now`, and for a known email
   * overwrites only the timezone and the four flags.
   */
  function Upsert(t: Table, email: string, timezone: string, alerts: Alerts, now: Timestamp): (r: Table)
    ensures r.rows.Keys == t.rows.Keys + {email}
    ensures r.rows[email].timezone == timezone && r.rows[email].alerts == alerts
    ensures email !in t.rows ==>
              && r.rows[email].unsubscribed == false
              && r.rows[email].createdAt == now
              && r.order == t.order + [email]
              && |r.rows| == |t.rows| + 1
    ensures email in t.rows ==>
              && r.rows[email].unsubscribed == t.rows[email].unsubscribed
              && r.rows[email].createdAt == t.rows[email].createdAt
              && r.order == t.order
              && |r.rows| == |t.rows|
    ensures forall e :: e in t.rows && e != email ==> r.rows[e] == t.rows[e]
  {
    if email in t.rows then
      var s := t.rows[email];
      ReplaceKeepsWellFormed(t, email, s.(timezone := timezone, alerts := alerts));
      RawTable(t.rows[email := s.(timezone := timezone, alerts := alerts)], t.order)
    else
      AppendKeepsWellFormed(t, email, Subscriber(timezone, alerts, false, now));
      RawTable(t.rows[email := Subscriber(timezone, alerts, false, now)], t.order + [email])
  }

  /** Replacing the record of a stored email keeps the table well formed and its size. */
  lemma ReplaceKeepsWellFormed(t: Table, email: string, s: Subscriber)
    requires email in t.rows
    ensures WellFormed(RawTable(t.rows[email := s], t.order))
    ensures |t.rows[email := s]| == |t.rows|
  {
    assert t.rows[email := s].Keys == t.rows.Keys;
  }

  /** Inserting a new email at the end of the order keeps the table well formed and grows it by one. */
  lemma AppendKeepsWellFormed(t: Table, email: string, s: Subscriber)
    requires email !in t.rows
    ensures WellFormed(RawTable(t.rows[email := s], t.order + [email]))
    ensures |t.rows[email := s]| == |t.rows| + 1
  {
    var order := t.order + [email];
    assert email !in t.order;
    forall i, j | 0 <= i < j < |order|
      ensures order[i] != order[j]
    {
      if j == |t.order| {
        assert order[i] == t.order[i];
      }
    }
    assert t.rows[email := s].Keys == t.rows.Keys + {email};
  }

  /** `get_user`: nothing for an unknown email, otherwise the record's columns. */
  function GetUser(t: Table, email: string): (r: Option<UserRow>)
    ensures r.None? <==> email !in t.rows
    ensures r.Some? ==>
              && r.value.email == email
              && r.value.timezone == t.rows[email].timezone
              && r.value.alerts == t.rows[email].alerts
              && r.value.unsubscribed == t.rows[email].unsubscribed
  {
    if email in t.rows then Some(View(t, email)) else None
  }

  /** `get_all_users`: every record once, in insertion order, as `get_user` shows it. */
  function Snapshot(t: Table): (r: seq<UserRow>)
    ensures |r| == |t.rows|
    ensures Emails(r) == t.order
    ensures Distinct(Emails(r))
    ensures forall e :: e in t.rows <==> e in Emails(r)
    ensures forall i :: 0 <= i < |r| ==> r[i].email in t.rows && r[i] == View(t, r[i].email)
  {
    TableSize(t);
    var r := seq(|t.order|, i requires 0 <= i < |t.order| => View(t, t.order[i]));
    assert Emails(r) == t.order;
    r
  }

  /**
   * `set_unsubscribed`: `UPDATE users SET unsubscribed = ? WHERE email = ?`
   * changes one column of one record, and nothing at all for an unknown email.
   */
  function SetUnsubscribed(t: Table, email: string, unsubscribed: bool): (r: Table)
    ensures r.order == t.order && r.rows.Keys == t.rows.Keys
    ensures email !in t.rows ==> r == t
    ensures email in t.rows ==>
              && r.rows[email].unsubscribed == unsubscribed
              && r.rows[email].timezone == t.rows[email].timezone
              && r.rows[email].alerts == t.rows[email].alerts
              && r.rows[email].createdAt == t.rows[email].createdAt
    ensures forall e :: e in t.rows && e != email ==> r.rows[e] == t.rows[e]
  {
    if email in t.rows then
      RawTable(t.rows[email := t.rows[email].(unsubscribed := unsubscribed)], t.order)
    else
      t
  }

  /**
   * Two upserts of one email leave what a single upsert with the second
   * call's timezone and flags leaves, stamped with the first call's clock.
   */
  lemma LastUpsertWins(t: Table, email: string, tz1: string, a1: Alerts, now1: Timestamp,
                       tz2: string, a2: Alerts, now2: Timestamp)
    ensures Upsert(Upsert(t, email, tz1, a1, now1), email, tz2, a2, now2) == Upsert(t, email, tz2, a2, now1)
  {
    if email in t.rows {
      ReUpsertKnown(t, email, tz1, a1, now1, tz2, a2, now2);
    } else {
      ReUpsertNew(t, email, tz1, a1, now1, tz2, a2, now2);
    }
  }

  lemma ReUpsertKnown(t: Table, email: string, tz1: string, a1: Alerts, now1: Timestamp,
                      tz2: string, a2: Alerts, now2: Timestamp)
    requires email in t.rows
    ensures Upsert(Upsert(t, email, tz1, a1, now1), email, tz2, a2, now2) == Upsert(t, email, tz2, a2, now1)
  {
  }

  lemma ReUpsertNew(t: Table, email: string, tz1: string, a1: Alerts, now1: Timestamp,
                    tz2: string, a2: Alerts, now2: Timestamp)
    requires email !in t.rows
    ensures Upsert(Upsert(t, email, tz1, a1, now1), email, tz2, a2, now2) == Upsert(t, email, tz2, a2, now1)
  {
    var s1 := Subscriber(tz1, a1, false, now1);
    var once := Upsert(t, email, tz1, a1, now1);
    assert once == RawTable(t.rows[email := s1], t.order + [email]);
    assert once.rows[email] == s1;
    assert once.rows[email := s1.(timezone := tz2, alerts := a2)] == t.rows[email := Subscriber(tz2, a2, false, now1)];
  }

  /** Retrying an upsert with the same arguments, at any later time, changes nothing. */
  lemma UpsertIdempotent(t: Table, email: string, timezone: string, alerts: Alerts, now1: Timestamp, now2: Timestamp)
    ensures Upsert(Upsert(t, email, timezone, alerts, now1), email, timezone, alerts, now2)
            == Upsert(t, email, timezone, alerts, now1)
  {
    LastUpsertWins(t, email, timezone, alerts, now1, timezone, alerts, now2);
  }

  /** Reading back an upserted email shows the new timezone and flags. */
  lemma GetAfterUpsert(t: Table, email: string, timezone: string, alerts: Alerts, now: Timestamp)
    ensures GetUser(Upsert(t, email, timezone, alerts, now), email)
            == Some(UserRow(email, timezone, alerts, email in t.rows && t.rows[email].unsubscribed))
  {
  }

  /** Signing up again does not undo an unsubscribe: the upsert never touches `unsubscribed`. */
  lemma UpsertKeepsUnsubscribe(t: Table, email: string, timezone: string, alerts: Alerts, now: Timestamp)
    requires email in t.rows
    ensures Upsert(SetUnsubscribed(t, email, true), email, timezone, alerts, now).rows[email].unsubscribed
  {
  }

  /** Setting the flag twice is setting it once. */
  lemma SetUnsubscribedIdempotent(t: Table, email: string, unsubscribed: bool)
    ensures SetUnsubscribed(SetUnsubscribed(t, email, unsubscribed), email, unsubscribed)
            == SetUnsubscribed(t, email, unsubscribed)
  {
  }
}
