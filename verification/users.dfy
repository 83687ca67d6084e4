/** The `users` table and its repository (`UserRepository` in
    `src/database/repositories.py`). The table is a sequence of rows in insertion order,
    so "the first row of the response" is the first matching row. Every lookup may fail
    at the store; the repository turns such a failure into "no user". */
module Users {
  import opened Wrappers

  /** A registered user (the model's `User`; database timestamps and the row id are not
      kept). */
  datatype User = User(
    telegramId: int,
    studentCode: string,
    username: Option<string>,
    firstName: Option<string>)

  /** The first row satisfying a lookup, if any. */
  function FirstWithId(rows: seq<User>, telegramId: int): (r: Option<User>)
    ensures r.Some? <==> exists k | 0 <= k < |rows| :: rows[k].telegramId == telegramId
    ensures r.Some? ==> r.value in rows && r.value.telegramId == telegramId
  {
    if rows == [] then None
    else if rows[0].telegramId == telegramId then Some(rows[0])
    else FirstWithId(rows[1..], telegramId)
  }

  function FirstWithCode(rows: seq<User>, code: string): (r: Option<User>)
    ensures r.Some? <==> exists k | 0 <= k < |rows| :: rows[k].studentCode == code
    ensures r.Some? ==> r.value in rows && r.value.studentCode == code
  {
    if rows == [] then None
    else if rows[0].studentCode == code then Some(rows[0])
    else FirstWithCode(rows[1..], code)
  }

  /** `get_by_telegram_id`: a store failure reads as "not found". */
  function GetByTelegramId(rows: seq<User>, telegramId: int, fails: bool): (r: Option<User>)
    ensures r.Some? <==> !fails && exists k | 0 <= k < |rows| :: rows[k].telegramId == telegramId
    ensures r.Some? ==> r.value in rows && r.value.telegramId == telegramId
  {
    if fails then None else FirstWithId(rows, telegramId)
  }

  /** `get_by_student_code`: a store failure reads as "not found". */
  function GetByStudentCode(rows: seq<User>, code: string, fails: bool): (r: Option<User>)
    ensures r.Some? <==> !fails && exists k | 0 <= k < |rows| :: rows[k].studentCode == code
    ensures r.Some? ==> r.value in rows && r.value.studentCode == code
  {
    if fails then None else FirstWithCode(rows, code)
  }

  /** `exists`: whether the id lookup returned a user, so a store failure reads as
      "not registered". */
  function Exists(rows: seq<User>, telegramId: int, fails: bool): (b: bool)
    ensures b <==> !fails && exists k | 0 <= k < |rows| :: rows[k].telegramId == telegramId
  {
    GetByTelegramId(rows, telegramId, fails).Some?
  }

  /** `create`: the inserted row, appended to the table, or nothing when the insert fails. */
  function Create(rows: seq<User>, user: User, fails: bool): (Option<User>, seq<User>) {
    if fails then (None, rows) else (Some(user), rows + [user])
  }

  /** At most one row per Telegram id and at most one per student code. */
  predicate Unique(rows: seq<User>) {
    forall i, j | 0 <= i < j < |rows| ::
      rows[i].telegramId != rows[j].telegramId && rows[i].studentCode != rows[j].studentCode
  }
}
