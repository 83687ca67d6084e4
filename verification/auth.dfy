/** The authentication service (`AuthService` in `src/services/auth.py`): the `/login`
    command tokenizer, the student-code validator, and registration over the users table.
    Reply texts are represented by the outcome that selects them. */
module Auth {
  import opened Wrappers
  import opened Strings
  import opened Users

  /** `is_authenticated`: registered exactly when the store answers with a row for the id. */
  function IsAuthenticated(rows: seq<User>, telegramId: int, lookupFails: bool): (b: bool)
    ensures b <==> !lookupFails && exists k | 0 <= k < |rows| :: rows[k].telegramId == telegramId
  {
    Exists(rows, telegramId, lookupFails)
  }

  // ---------------------------------------------------------------------------
  // /login parsing
  // ---------------------------------------------------------------------------

  /** `parse_login_command`: the second whitespace-separated token of the message. */
  function ParseLoginCommand(text: string): (r: Option<string>)
    ensures r.Some? <==> |Words(text)| >= 2
    ensures r.Some? ==> r.value == Words(text)[1] && r.value != "" && NoSpace(r.value)
  {
    if text == "" then None
    else
      var parts := Words(Strip(text));
      WordsOfStrip(text);
      WordsShape(text);
      if |parts| < 2 then None
      else
        StripOfStripped(parts[1]);
        Some(Strip(parts[1]))
  }

  /** The command the bot's help text asks for parses back to the code typed. */
  lemma LoginRoundTrip(code: string)
    requires code != "" && NoSpace(code)
    ensures ParseLoginCommand("/login " + code) == Some(code)
  {
    var cmd := "/login";
    var text := cmd + " " + code;
    assert "/login " + code == text;
    LoginWords(cmd, code);
    assert Words(text)[1] == code;
  }

  lemma LoginWords(cmd: string, code: string)
    requires cmd != "" && NoSpace(cmd) && code != "" && NoSpace(code)
    ensures Words(cmd + " " + code) == [cmd, code]
  {
    assert AllSpace(" ") by { assert IsSpace(' '); }
    WordsThenText(cmd, " ", code);
    WordsOfWord(cmd);
    WordsOfWord(code);
  }

  // ---------------------------------------------------------------------------
  // Student-code validation
  // ---------------------------------------------------------------------------

  /** The validator's verdicts; each rejection has its own reply. */
  datatype CodeCheck = CodeOk | CodeMissing | CodeNotDigits | CodeTooShort | CodeTooLong

  const MinCodeLength := 5
  const MaxCodeLength := 15

  /** `_validate_student_code`: empty, then not all digits after stripping, then too short,
      then too long. */
  function ValidateStudentCode(code: string): (r: CodeCheck)
    ensures r == CodeOk <==> IsDigits(Strip(code)) && MinCodeLength <= |Strip(code)| <= MaxCodeLength
    ensures r == CodeMissing <==> code == ""
    ensures r == CodeNotDigits <==> code != "" && !IsDigits(Strip(code))
    ensures r == CodeTooShort <==> code != "" && IsDigits(Strip(code)) && |Strip(code)| < MinCodeLength
    ensures r == CodeTooLong <==> code != "" && IsDigits(Strip(code)) && |Strip(code)| > MaxCodeLength
  {
    if code == "" then CodeMissing
    else
      var s := Strip(code);
      if !IsDigits(s) then CodeNotDigits
      else if |s| < MinCodeLength then CodeTooShort
      else if |s| > MaxCodeLength then CodeTooLong
      else CodeOk
  }

  /** A code of only whitespace gets the "digits only" reply, not the "empty" one. */
  lemma BlankCodeIsNotDigits(code: string)
    requires code != "" && AllSpace(code)
    ensures ValidateStudentCode(code) == CodeNotDigits
  {
    StripEmptyIff(code);
  }

  /** Persian digits are digits: a ten-digit code typed on a Persian keyboard is accepted. */
  lemma PersianDigitsAccepted()
    ensures ValidateStudentCode("۴۰۲۲۰۲۰۰۳۰") == CodeOk
  {
    var code := "۴۰۲۲۰۲۰۰۳۰";
    assert Stripped(code);
    StripOfStripped(code);
  }

  // ---------------------------------------------------------------------------
  // Registration
  // ---------------------------------------------------------------------------

  /** Which store calls fail during one registration. */
  datatype UserStoreFaults = UserStoreFaults(idLookupFails: bool, codeLookupFails: bool, createFails: bool)

  /** The replies of `register_user`; only `Registered` reports success. */
  datatype Registration =
    | AlreadyRegistered
    | CodeTaken
    | Rejected(reason: CodeCheck)
    | Registered(code: string)
    | CreateFailed

  datatype RegisterResult = RegisterResult(outcome: Registration, rows: seq<User>)

  /** `register_user`: the id check, then the code check on the code as given, then
      validation, then the insert of the code as given. */
  function RegisterUser(rows: seq<User>, telegramId: int, code: string, username: Option<string>,
                        firstName: Option<string>, faults: UserStoreFaults): (r: RegisterResult)
    ensures GetByTelegramId(rows, telegramId, faults.idLookupFails).Some? ==>
              r == RegisterResult(AlreadyRegistered, rows)
    ensures GetByTelegramId(rows, telegramId, faults.idLookupFails).None? &&
            GetByStudentCode(rows, code, faults.codeLookupFails).Some? ==>
              r == RegisterResult(CodeTaken, rows)
    ensures r.outcome.Rejected? ==> r.outcome.reason == ValidateStudentCode(code) != CodeOk
    ensures GetByTelegramId(rows, telegramId, faults.idLookupFails).None? &&
            GetByStudentCode(rows, code, faults.codeLookupFails).None? &&
            ValidateStudentCode(code) != CodeOk ==>
              r == RegisterResult(Rejected(ValidateStudentCode(code)), rows)
    ensures GetByTelegramId(rows, telegramId, faults.idLookupFails).None? &&
            GetByStudentCode(rows, code, faults.codeLookupFails).None? &&
            ValidateStudentCode(code) == CodeOk && faults.createFails ==>
              r == RegisterResult(CreateFailed, rows)
    ensures r.outcome.Registered? <==>
              && GetByTelegramId(rows, telegramId, faults.idLookupFails).None?
              && GetByStudentCode(rows, code, faults.codeLookupFails).None?
              && ValidateStudentCode(code) == CodeOk
              && !faults.createFails
    ensures r.outcome.Registered? ==>
              r.outcome.code == code && r.rows == rows + [User(telegramId, code, username, firstName)]
    ensures !r.outcome.Registered? ==> r.rows == rows
  {
    if GetByTelegramId(rows, telegramId, faults.idLookupFails).Some? then RegisterResult(AlreadyRegistered, rows)
    else if GetByStudentCode(rows, code, faults.codeLookupFails).Some? then RegisterResult(CodeTaken, rows)
    else
      var check := ValidateStudentCode(code);
      if check != CodeOk then RegisterResult(Rejected(check), rows)
      else
        var (created, rows') := Create(rows, User(telegramId, code, username, firstName), faults.createFails);
        if created.Some? then RegisterResult(Registered(code), rows') else RegisterResult(CreateFailed, rows)
  }

  /** With working lookups, registration keeps one row per id and one per code. */
  lemma RegisterKeepsUnique(rows: seq<User>, telegramId: int, code: string, username: Option<string>,
                            firstName: Option<string>, faults: UserStoreFaults)
    requires Unique(rows) && !faults.idLookupFails && !faults.codeLookupFails
    ensures Unique(RegisterUser(rows, telegramId, code, username, firstName, faults).rows)
  {
    var r := RegisterUser(rows, telegramId, code, username, firstName, faults);
    if r.outcome.Registered? {
      var u := User(telegramId, code, username, firstName);
      assert r.rows == rows + [u];
      assert forall i | 0 <= i < |rows| :: r.rows[i] == rows[i];
    }
  }

  /** One `/login` attempt. */
  datatype Request = Request(telegramId: int, code: string, username: Option<string>,
                             firstName: Option<string>, faults: UserStoreFaults)

  /** Registration attempts handled one after another: rows are only ever added, at most
      one per attempt, and never changed or removed. */
  function RegisterAll(rows: seq<User>, requests: seq<Request>): (r: seq<User>)
    ensures |rows| <= |r| <= |rows| + |requests|
    ensures r[..|rows|] == rows
    decreases |requests|
  {
    if requests == [] then rows
    else
      var q := requests[0];
      var next := RegisterUser(rows, q.telegramId, q.code, q.username, q.firstName, q.faults).rows;
      assert next[..|rows|] == rows;
      var r := RegisterAll(next, requests[1..]);
      assert r[..|rows|] == r[..|next|][..|rows|];
      r
  }

  /** Under sequential calls whose lookups succeed, the table never holds two rows for one
      Telegram id or one student code. */
  lemma {:induction false} RegisterAllKeepsUnique(rows: seq<User>, requests: seq<Request>)
    requires Unique(rows)
    requires forall k | 0 <= k < |requests| :: !requests[k].faults.idLookupFails && !requests[k].faults.codeLookupFails
    ensures Unique(RegisterAll(rows, requests))
    decreases |requests|
  {
    if requests != [] {
      var q := requests[0];
      RegisterKeepsUnique(rows, q.telegramId, q.code, q.username, q.firstName, q.faults);
      RegisterAllKeepsUnique(RegisterUser(rows, q.telegramId, q.code, q.username, q.firstName, q.faults).rows, requests[1..]);
    }
  }
}
