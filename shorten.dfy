/**
 * The `shorten` command: a per-user daily quota of ten links kept in the
 * `users` table, charged before the shortening service is called, then the
 * reply built from the service's answer and its "Copy Link" button.
 */
module Shorten {
  import opened Js

  /** A calendar day as `toISOString().split('T')[0]` writes it; only equality matters. */
  type Day = string

  const DailyLimit: int := 10

  /** A row of the `users` table. */
  datatype UserRecord = UserRecord(linkCount: int, lastUsedDate: Day, totalLinks: int)

  /** The quota invariant every stored record keeps. */
  predicate WellFormed(u: UserRecord) {
    1 <= u.linkCount <= DailyLimit && u.linkCount <= u.totalLinks
  }

  /** Whether a request on `today` is turned away. */
  predicate Exhausted(rows: map<string, UserRecord>, userId: string, today: Day) {
    userId in rows && rows[userId].lastUsedDate == today && rows[userId].linkCount >= DailyLimit
  }

  /**
   * The record a request on `today` leaves behind, or `None` when the request
   * is refused. Only a same-day request at the limit is refused. A new user
   * starts at one link; a same-day request counts one more link and keeps the
   * stored date; a request on another day starts the daily count again at one
   * and stores today. Every accepted request adds one to the lifetime total
   * and leaves a well-formed record dated today.
   */
  function NextRecord(existing: Option<UserRecord>, today: Day): (r: Option<UserRecord>)
    ensures r.None? <==> existing.Some? && existing.value.lastUsedDate == today && existing.value.linkCount >= DailyLimit
    ensures existing.None? ==> r == Some(UserRecord(1, today, 1))
    ensures r.Some? ==> r.value.lastUsedDate == today
    ensures r.Some? && existing.Some? ==> r.value.totalLinks == existing.value.totalLinks + 1
    ensures r.Some? && existing.Some? ==>
      r.value.linkCount == (if existing.value.lastUsedDate == today then existing.value.linkCount + 1 else 1)
    ensures r.Some? && (existing.None? || WellFormed(existing.value)) ==> WellFormed(r.value)
  {
    match existing
    case None => Some(UserRecord(1, today, 1))
    case Some(u) =>
      if u.lastUsedDate == today then
        if u.linkCount >= DailyLimit then None
        else Some(u.(linkCount := u.linkCount + 1, totalLinks := u.totalLinks + 1))
      else Some(UserRecord(1, today, u.totalLinks + 1))
  }

  function Get(rows: map<string, UserRecord>, userId: string): Option<UserRecord> {
    if userId in rows then Some(rows[userId]) else None
  }

  /** Requests on the given days, one after another: the final record and how many were accepted. */
  function Replay(u: Option<UserRecord>, days: seq<Day>): (Option<UserRecord>, nat)
    decreases |days|
  {
    if days == [] then (u, 0)
    else
      match NextRecord(u, days[0])
      case None => Replay(u, days[1..])
      case Some(v) =>
        var (w, n) := Replay(Some(v), days[1..]);
        (w, n + 1)
  }

  /** Links a record has already used on day `d`. */
  function UsedOn(u: Option<UserRecord>, d: Day): int {
    if u.Some? && u.value.lastUsedDate == d then u.value.linkCount else 0
  }

  /**
   * The daily cap: however many requests one user makes on one day, no more
   * than the ten links of the day, less those already used, are accepted.
   */
  lemma {:induction false} DailyCap(u: Option<UserRecord>, d: Day, days: seq<Day>)
    requires u.None? || WellFormed(u.value)
    requires forall k :: 0 <= k < |days| ==> days[k] == d
    ensures Replay(u, days).1 <= DailyLimit - UsedOn(u, d)
    decreases |days|
  {
    if days != [] {
      var next := NextRecord(u, d);
      if next.Some? {
        DailyCap(next, d, days[1..]);
      } else {
        DailyCap(u, d, days[1..]);
      }
    }
  }

  /** The `users` table. */
  class UserTable {
    var rows: map<string, UserRecord>

    ghost predicate Valid()
      reads this
    {
      forall id :: id in rows ==> WellFormed(rows[id])
    }

    constructor ()
      ensures Valid() && rows == map[]
    {
      rows := map[];
    }

    /**
     * The daily-limit check and update (the insert for a new user, the two
     * updates otherwise). A refused request leaves the table as it was; an
     * accepted one stores `NextRecord` for this user and touches no other row.
     */
    method Charge(userId: string, today: Day) returns (allowed: bool)
      requires Valid()
      modifies this
      ensures Valid()
      ensures allowed <==> NextRecord(Get(old(rows), userId), today).Some?
      ensures allowed <==> !Exhausted(old(rows), userId, today)
      ensures !allowed ==> rows == old(rows)
      ensures allowed ==> rows == old(rows)[userId := NextRecord(Get(old(rows), userId), today).value]
    {
      if userId !in rows {
        rows := rows[userId := UserRecord(1, today, 1)];
        return true;
      }
      var existing := rows[userId];
      if existing.lastUsedDate == today {
        if existing.linkCount >= DailyLimit {
          return false;
        }
        rows := rows[userId := existing.(linkCount := existing.linkCount + 1,
                                         totalLinks := existing.totalLinks + 1)];
      } else {
        rows := rows[userId := UserRecord(1, today, existing.totalLinks + 1)];
      }
      allowed := true;
    }
  }

  /** What the shortening service answered, if it answered at all. */
  datatype ApiResult = ApiFailed | ApiOk(shortened: Option<string>)

  datatype Reply =
    | LimitReached
    | ShortenFailed
    | Shortened(link: string, copyButtonId: string)

  const CopyPrefix: string := "copy_link_"

  /** `res.data?.shortened || 'Unknown'`: the link shown, never empty. */
  function DisplayedLink(shortened: Option<string>): (r: string)
    ensures r != ""
    ensures Truthy(shortened) ==> r == shortened.value
    ensures !Truthy(shortened) ==> r == "Unknown"
  {
    OrElse(shortened, "Unknown")
  }

  /** The custom id of the "Copy Link" button for `link`. */
  function CopyButtonId(link: string): (id: string)
    ensures StartsWith(id, CopyPrefix)
    ensures id[|CopyPrefix|..] == link
  {
    CopyPrefix + link
  }

  /** The collector's test `btnInt.customId.startsWith('copy_link_')`. */
  predicate CopyCollectorAccepts(customId: string) {
    StartsWith(customId, CopyPrefix)
  }

  /** The button the command builds is always one its own collector answers. */
  lemma CopyButtonAccepted(shortened: Option<string>)
    ensures CopyCollectorAccepts(CopyButtonId(DisplayedLink(shortened)))
  {
  }

  /** Two different links never get the same button id. */
  lemma CopyButtonIdInjective(a: string, b: string)
    requires CopyButtonId(a) == CopyButtonId(b)
    ensures a == b
  {
    assert a == CopyButtonId(a)[|CopyPrefix|..];
  }

  /**
   * `run`: the quota is charged first, so an accepted request that the
   * service then fails still counts; the reply follows from the charge and
   * the service's answer.
   */
  method Run(users: UserTable, userId: string, today: Day, api: ApiResult) returns (reply: Reply)
    requires users.Valid()
    modifies users
    ensures users.Valid()
    ensures reply == LimitReached <==> Exhausted(old(users.rows), userId, today)
    ensures reply == LimitReached ==> users.rows == old(users.rows)
    ensures reply != LimitReached ==>
      users.rows == old(users.rows)[userId := NextRecord(Get(old(users.rows), userId), today).value]
    ensures reply != LimitReached && api.ApiFailed? ==> reply == ShortenFailed
    ensures reply != LimitReached && api.ApiOk? ==>
      reply == Shortened(DisplayedLink(api.shortened), CopyButtonId(DisplayedLink(api.shortened)))
  {
    var allowed := users.Charge(userId, today);
    if !allowed {
      return LimitReached;
    }
    match api {
      case ApiFailed =>
        reply := ShortenFailed;
      case ApiOk(s) =>
        var link := DisplayedLink(s);
        reply := Shortened(link, CopyButtonId(link));
    }
  }
}
