/** The extraction loop body of main.go:175-257: one important event to zero, one or two audit records. */
module Extractor {
  import opened Json
  import opened Events
  import opened Importance

  /** One printed audit line; each constructor carries the fields its Printf prints, in printed order.
      Values the source prints straight out of the decoded JSON keep their JSON form. */
  datatype Record =
    | Login(at: string, userId: JsonValue, userText: JsonValue)                       // main.go:185
    | Logout(at: string)                                                              // main.go:187
    | LoginUnlock(at: string, userId: JsonValue, userText: JsonValue)                 // main.go:204
    | LoginAttempt(at: string, userId: JsonValue, userText: JsonValue, outcome: string) // main.go:208
    | NewUser(at: string, name: JsonValue, docId: string, path: string)               // main.go:213
    | PasswordChange(at: string, docId: string, name: JsonValue)                      // main.go:231
    | UserLockChange(at: string, docId: string, name: JsonValue, state: string)       // main.go:236
    | Patient(at: string, name: JsonValue, docId: string, path: string)               // main.go:240
    | ProcedureReview(at: string, userId: JsonValue, userText: JsonValue)             // main.go:243
    | Procedure(at: string, name: JsonValue, docId: string, path: string)             // main.go:245
    | Video(at: string, name: JsonValue, docId: string, path: string)                 // main.go:247
    | Image(at: string, name: JsonValue, docId: string, path: string)                 // main.go:249
    | UserSettingsChange(at: string, name: JsonValue, docId: string, path: string)    // main.go:251
    | Trace(path: string, eventType: string, formText: string)                        // main.go:254

  /** What handling one event does: print some records, or print some and then panic. */
  datatype Step =
    | Emitted(records: seq<Record>)
    | Panicked(before: seq<Record>, site: PanicSite)

  /** The records a step prints, whether or not it then panics. */
  function Output(s: Step): seq<Record>
  {
    if s.Emitted? then s.records else s.before
  }

  /** boolToString: the first text for true, the second for false; with two distinct texts the flag
      can be read back from the result. */
  function BoolToString(booleanValue: bool, trueText: string, falseText: string): (s: string)
    ensures s == trueText || s == falseText
    ensures trueText != falseText ==> (s == trueText <==> booleanValue)
  {
    if booleanValue then trueText else falseText
  }

  /** The branches of the if-else chain at main.go:180-255. */
  datatype Rule =
    | SessionRule | LoginFormRule | UserFormRule | PatientRule | ReviewRule
    | ProcedureRule | VideoRule | ImageRule | UserSettingsRule | TraceRule

  /** First-match dispatch: the session document by id, then the seven forms, then the settings document
      by id. The branches are exactly the importance allow-lists, so only an unimportant document falls
      through to the trace. */
  function RuleOf(doc: Document): (r: Rule)
    ensures doc.id == InstanceLoginId ==> r == SessionRule
    ensures r == LoginFormRule <==> doc.id != InstanceLoginId && doc.form.id == LoginFormId
    ensures r == UserFormRule <==> doc.id != InstanceLoginId && doc.form.id == UserFormId
    ensures r == PatientRule <==> doc.id != InstanceLoginId && doc.form.id == PatientFormId
    ensures r == ReviewRule <==> doc.id != InstanceLoginId && doc.form.id == ReviewFormId
    ensures r == ProcedureRule <==> doc.id != InstanceLoginId && doc.form.id == ProcedureFormId
    ensures r == VideoRule <==> doc.id != InstanceLoginId && doc.form.id == VideoFormId
    ensures r == ImageRule <==> doc.id != InstanceLoginId && doc.form.id == ImageFormId
    ensures r == UserSettingsRule <==> doc.id == UserSettingsId && doc.form.id !in ImportantFormIds
    ensures r == TraceRule <==> !Important(doc)
  {
    if doc.id == InstanceLoginId then SessionRule
    else if doc.form.id == LoginFormId then LoginFormRule
    else if doc.form.id == UserFormId then UserFormRule
    else if doc.form.id == PatientFormId then PatientRule
    else if doc.form.id == ReviewFormId then ReviewRule
    else if doc.form.id == ProcedureFormId then ProcedureRule
    else if doc.form.id == VideoFormId then VideoRule
    else if doc.form.id == ImageFormId then ImageRule
    else if doc.id == UserSettingsId then UserSettingsRule
    else TraceRule
  }

  /** The instance-login document: one LOGOUT when `currentUser.id` is exactly the empty string,
      one LOGIN otherwise (a missing id, nil in Go, is not equal to ""). */
  function SessionRecords(doc: Document): (r: Step)
    ensures var user := Lookup(doc.data, "currentUser");
      && (r.Panicked? <==> !user.JObj?)
      && (r.Panicked? ==> r == Panicked([], CurrentUserNotObject))
      && (r.Emitted? ==> |r.records| == 1)
      && (r.Emitted? ==> (r.records == [Logout(doc.modified.at)] <==> Member(user, "id") == JString("")))
      && (r.Emitted? && Member(user, "id") != JString("") ==>
            r.records == [Login(doc.modified.at, Member(user, "id"), Member(user, "text"))])
  {
    var loggedInUserRef := Lookup(doc.data, "currentUser");
    if !loggedInUserRef.JObj? then Panicked([], CurrentUserNotObject)
    else
      var userId := Lookup(loggedInUserRef.fields, "id");
      if userId != JString("") then
        Emitted([Login(doc.modified.at, userId, Lookup(loggedInUserRef.fields, "text"))])
      else
        Emitted([Logout(doc.modified.at)])
  }

  /** The lockout override of main.go:193-201: only past the initial version, and only when the
      patch (which must then be an object) holds a non-null `lockoutOverride`. */
  predicate LockoutOverridden(doc: Document)
  {
    var patch := Lookup(doc.previous, "patch");
    doc.version != InitialVersion && patch.JObj? && Present(patch.fields, "lockoutOverride")
  }

  /** The login form: an override gives one LOGIN_UNLOCK and no attempt; otherwise a failed login gives
      one LOGIN_ATTEMPT marked FAILED and a successful one gives nothing. The assertions at main.go:190,
      191 and 196 panic, in that order, on a user that is not an object, a success that is not a boolean,
      and a non-initial version whose patch is not an object. */
  function LoginFormRecords(doc: Document): (r: Step)
    ensures var user, success, patch := Lookup(doc.data, "user"), Lookup(doc.data, "success"), Lookup(doc.previous, "patch");
      && (r == Panicked([], LoginUserNotObject) <==> !user.JObj?)
      && (r == Panicked([], SuccessNotBool) <==> user.JObj? && !success.JBool?)
      && (r == Panicked([], LoginPatchNotObject) <==>
            user.JObj? && success.JBool? && doc.version != InitialVersion && !patch.JObj?)
      && (r.Emitted? <==> user.JObj? && success.JBool? && (doc.version == InitialVersion || patch.JObj?))
      && (r.Emitted? ==>
            && ((r.records == [LoginUnlock(doc.modified.at, Member(user, "id"), Member(user, "text"))])
                <==> LockoutOverridden(doc))
            && ((r.records == [LoginAttempt(doc.modified.at, Member(user, "id"), Member(user, "text"), "FAILED")])
                <==> !LockoutOverridden(doc) && !success.b)
            && (r.records == [] <==> !LockoutOverridden(doc) && success.b))
  {
    var loginAttemptByUser := Lookup(doc.data, "user");
    var isLoginSuccessful := Lookup(doc.data, "success");
    if !loginAttemptByUser.JObj? then Panicked([], LoginUserNotObject)
    else if !isLoginSuccessful.JBool? then Panicked([], SuccessNotBool)
    else if doc.version != InitialVersion && !Lookup(doc.previous, "patch").JObj? then Panicked([], LoginPatchNotObject)
    else
      var id, text := Lookup(loginAttemptByUser.fields, "id"), Lookup(loginAttemptByUser.fields, "text");
      if LockoutOverridden(doc) then
        Emitted([LoginUnlock(doc.modified.at, id, text)])
      else if !isLoginSuccessful.b then
        Emitted([LoginAttempt(doc.modified.at, id, text, BoolToString(isLoginSuccessful.b, "SUCCESS", "FAILED"))])
      else
        Emitted([])
  }

  /** `patch["locked"].([]interface{})[1].(bool)` at main.go:235: the state after the change, or the panic. */
  datatype LockRead = LockIs(nowLocked: bool) | LockPanics(site: PanicSite)

  function ReadNewLockState(locked: JsonValue): (s: LockRead)
    ensures s.LockIs? <==> locked.JArr? && |locked.items| >= 2 && locked.items[1].JBool?
    ensures s.LockIs? ==> s.nowLocked == locked.items[1].b
    ensures s == LockPanics(LockedNotArray) <==> !locked.JArr?
    ensures s == LockPanics(LockedTooShort) <==> locked.JArr? && |locked.items| < 2
    ensures s == LockPanics(LockedStateNotBool) <==> locked.JArr? && |locked.items| >= 2 && !locked.items[1].JBool?
  {
    if !locked.JArr? then LockPanics(LockedNotArray)
    else if |locked.items| < 2 then LockPanics(LockedTooShort)
    else if !locked.items[1].JBool? then LockPanics(LockedStateNotBool)
    else LockIs(locked.items[1].b)
  }

  /** The user form: no patch means a new user; otherwise PASSWORD_CHANGE when the patch holds `password`
      and then USER_LOCK_CHANGE when it holds `locked`, with the state after the change. A password
      record is printed before a malformed `locked` pair panics. */
  function UserFormRecords(doc: Document, path: string): (r: Step)
    ensures var patch, at, name := Lookup(doc.previous, "patch"), doc.modified.at, Lookup(doc.data, "name");
      && (patch.JNull? ==> r == Emitted([NewUser(at, name, doc.id, path)]))
      && (r == Panicked([], UserPatchNotObject) <==> !patch.JNull? && !patch.JObj?)
      && (patch.JObj? ==>
            && (PasswordChange(at, doc.id, name) in Output(r) <==> Present(patch.fields, "password"))
            && (r.Emitted? <==> !Present(patch.fields, "locked") || ReadNewLockState(patch.fields["locked"]).LockIs?)
            && (r.Panicked? ==> r.before == if Present(patch.fields, "password") then [PasswordChange(at, doc.id, name)] else [])
            && (r.Emitted? && Present(patch.fields, "locked") ==>
                  |r.records| >= 1 && r.records[|r.records| - 1] == UserLockChange(at, doc.id, name,
                    if ReadNewLockState(patch.fields["locked"]).nowLocked then "LOCKED" else "UNLOCKED"))
            && (!Present(patch.fields, "locked") ==> forall k :: 0 <= k < |Output(r)| ==> !Output(r)[k].UserLockChange?)
            && (r.Emitted? ==>
                  r.records == (if Present(patch.fields, "password") then [PasswordChange(at, doc.id, name)] else [])
                    + (if Present(patch.fields, "locked") then
                         [UserLockChange(at, doc.id, name,
                            if ReadNewLockState(patch.fields["locked"]).nowLocked then "LOCKED" else "UNLOCKED")]
                       else []))
            && (r.Panicked? ==>
                  Present(patch.fields, "locked") && ReadNewLockState(patch.fields["locked"]) == LockPanics(r.site)))
      && |Output(r)| <= 2
      && (|Output(r)| == 2 ==> Output(r)[0].PasswordChange? && Output(r)[1].UserLockChange?)
  {
    var at, name := doc.modified.at, Lookup(doc.data, "name");
    var patch := Lookup(doc.previous, "patch");
    if patch.JNull? then
      Emitted([NewUser(at, name, doc.id, path)])
    else if !patch.JObj? then
      Panicked([], UserPatchNotObject)
    else
      var isPasswordChange := Present(patch.fields, "password");
      var isLockedChange := Present(patch.fields, "locked");
      var passwordRecords := if isPasswordChange then [PasswordChange(at, doc.id, name)] else [];
      if !isLockedChange then
        Emitted(passwordRecords)
      else
        match ReadNewLockState(patch.fields["locked"])
        case LockPanics(site) => Panicked(passwordRecords, site)
        case LockIs(isNowLocked) =>
          Emitted(passwordRecords + [UserLockChange(at, doc.id, name, BoolToString(isNowLocked, "LOCKED", "UNLOCKED"))])
  }

  /** The review form: one PROCEDURE_REVIEW naming the reviewing user; a user that is not an object panics. */
  function ReviewRecords(doc: Document): (r: Step)
    ensures var user := Lookup(doc.data, "user");
      && (r.Panicked? <==> !user.JObj?)
      && (r.Panicked? ==> r == Panicked([], ReviewUserNotObject))
      && (r.Emitted? ==> r.records == [ProcedureReview(doc.modified.at, Member(user, "id"), Member(user, "text"))])
  {
    var user := Lookup(doc.data, "user");
    if !user.JObj? then Panicked([], ReviewUserNotObject)
    else Emitted([ProcedureReview(doc.modified.at, Lookup(user.fields, "id"), Lookup(user.fields, "text"))])
  }

  /** Handling one event of `importantEvents`: only an "updated" event with a document produces anything
      (or panics); it produces at most two records, two only for the user form; every record but the
      trace is stamped with the document's modification time, and the trace only comes from an
      unimportant document. */
  function Extract(e: ChangeEvent): (r: Step)
    ensures Output(r) != [] || r.Panicked? ==> e.document.Some? && e.eventType == UpdatedType
    ensures |Output(r)| <= 2
    ensures |Output(r)| == 2 ==> e.document.Some? && RuleOf(e.document.value) == UserFormRule
    ensures e.document.Some? ==> forall k :: 0 <= k < |Output(r)| ==>
      if Output(r)[k].Trace? then !Important(e.document.value) else Output(r)[k].at == e.document.value.modified.at
  {
    if e.document.Some? && e.eventType == UpdatedType then
      var document := e.document.value;
      var at, name := document.modified.at, Lookup(document.data, "name");
      match RuleOf(document)
      case SessionRule => SessionRecords(document)
      case LoginFormRule => LoginFormRecords(document)
      case UserFormRule => UserFormRecords(document, e.path)
      case PatientRule => Emitted([Patient(at, name, document.id, e.path)])
      case ReviewRule => ReviewRecords(document)
      case ProcedureRule => Emitted([Procedure(at, name, document.id, e.path)])
      case VideoRule => Emitted([Video(at, name, document.id, e.path)])
      case ImageRule => Emitted([Image(at, name, document.id, e.path)])
      case UserSettingsRule => Emitted([UserSettingsChange(at, name, document.id, e.path)])
      case TraceRule => Emitted([Trace(e.path, e.eventType, document.form.text)])
    else
      Emitted([])
  }

  /** The fallback: an updated event yields a trace line exactly when its document is not important. */
  lemma TraceIffUnimportant(e: ChangeEvent)
    requires e.document.Some? && e.eventType == UpdatedType
    ensures Extract(e) == Emitted([Trace(e.path, e.eventType, e.document.value.form.text)]) <==> !Important(e.document.value)
  {
  }

  /** Each updated event is handled by the rule its document dispatches to, and the single-record rules
      print a record of their own kind stamped with the document's time, name, id and path. */
  lemma ExtractDispatch(e: ChangeEvent)
    requires e.document.Some? && e.eventType == UpdatedType
    ensures var d := e.document.value; var at, name := d.modified.at, Lookup(d.data, "name");
      && (RuleOf(d) == SessionRule ==> Extract(e) == SessionRecords(d))
      && (RuleOf(d) == LoginFormRule ==> Extract(e) == LoginFormRecords(d))
      && (RuleOf(d) == UserFormRule ==> Extract(e) == UserFormRecords(d, e.path))
      && (RuleOf(d) == PatientRule ==> Extract(e) == Emitted([Patient(at, name, d.id, e.path)]))
      && (RuleOf(d) == ReviewRule ==> Extract(e) == ReviewRecords(d))
      && (RuleOf(d) == ProcedureRule ==> Extract(e) == Emitted([Procedure(at, name, d.id, e.path)]))
      && (RuleOf(d) == VideoRule ==> Extract(e) == Emitted([Video(at, name, d.id, e.path)]))
      && (RuleOf(d) == ImageRule ==> Extract(e) == Emitted([Image(at, name, d.id, e.path)]))
      && (RuleOf(d) == UserSettingsRule ==> Extract(e) == Emitted([UserSettingsChange(at, name, d.id, e.path)]))
      && (RuleOf(d) == TraceRule ==> Extract(e) == Emitted([Trace(e.path, e.eventType, d.form.text)]))
  {
  }

  /** Every rule other than the session, login-form, user-form and review rules prints exactly one record
      and cannot panic; the session and review rules print exactly one record unless they panic. */
  lemma SingleRecordRules(e: ChangeEvent)
    requires e.document.Some? && e.eventType == UpdatedType
    ensures RuleOf(e.document.value) !in {LoginFormRule, UserFormRule} ==> |Output(Extract(e))| == 1 || Extract(e).Panicked?
    ensures RuleOf(e.document.value) !in {SessionRule, LoginFormRule, UserFormRule, ReviewRule} ==>
      Extract(e).Emitted? && |Extract(e).records| == 1
  {
  }
}
