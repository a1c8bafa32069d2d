/** Wire codes of roles, operations, errors and warnings (crates/vs-protocol/src/codes.rs). */
module Codes {

  import opened Results
  import opened Text
  import opened Tokens
  import opened Trees

  datatype ErrorCode =
    | StaleToken | EngineUnsupported | PolicyDeny | Timeout | NotFound | WrongSession
    | ConfirmRequired | DaemonStartFailed | EngineCrash | BadRequest | UnknownKind
    | EvalError | EvalSyntax

  datatype WarningCode =
    | NavWarning | CaptchaVisible | AuthLoaded | ViewportChanged | IdempotentHit
    | ConsoleError | HiddenTarget | MarkReaimed | StoragePartial

  function RoleCode(r: Role): string
  {
    match r
    case Doc => "doc" case Btn => "btn" case Lnk => "lnk" case Tf => "tf" case Ta => "ta"
    case Sel => "sel" case Chk => "chk" case Rad => "rad" case Img => "img" case Hd => "hd"
    case P => "p" case Li => "li" case Lst => "lst" case Tbl => "tbl" case Row => "row"
    case Cell => "cell" case Hdr => "hdr" case Nav => "nav" case Frm => "frm" case Dlg => "dlg"
    case Itm => "itm" case Sec => "sec" case Art => "art" case Mn => "mn" case Ifr => "ifr"
    case El => "el"
  }

  const ROLES: seq<Role> :=
    [Doc, Btn, Lnk, Tf, Ta, Sel, Chk, Rad, Img, Hd, P, Li, Lst, Tbl, Row, Cell,
     Hdr, Nav, Frm, Dlg, Itm, Sec, Art, Mn, Ifr, El]

  function OpCode(o: Op): string
  {
    match o
    case Click => "click" case Fill => "fill" case Scroll => "scroll" case Key => "key"
    case Submit => "submit" case Hover => "hover" case Focus => "focus"
  }

  /** Operations in the order sets of them are listed. */
  const OPS: seq<Op> := [Click, Fill, Scroll, Key, Submit, Hover, Focus]

  function ErrorText(c: ErrorCode): string
  {
    match c
    case StaleToken => "STALE_TOKEN" case EngineUnsupported => "ENGINE_UNSUPPORTED"
    case PolicyDeny => "POLICY_DENY" case Timeout => "TIMEOUT" case NotFound => "NOT_FOUND"
    case WrongSession => "WRONG_SESSION" case ConfirmRequired => "CONFIRM_REQUIRED"
    case DaemonStartFailed => "DAEMON_START_FAILED" case EngineCrash => "ENGINE_CRASH"
    case BadRequest => "BAD_REQUEST" case UnknownKind => "UNKNOWN_KIND"
    case EvalError => "EVAL_ERROR" case EvalSyntax => "EVAL_SYNTAX"
  }

  const ERRORS: seq<ErrorCode> :=
    [StaleToken, EngineUnsupported, PolicyDeny, Timeout, NotFound, WrongSession, ConfirmRequired,
     DaemonStartFailed, EngineCrash, BadRequest, UnknownKind, EvalError, EvalSyntax]

  function WarningText(c: WarningCode): string
  {
    match c
    case NavWarning => "nav" case CaptchaVisible => "captcha_visible"
    case AuthLoaded => "auth_loaded" case ViewportChanged => "viewport_changed"
    case IdempotentHit => "idempotent_hit" case ConsoleError => "console_error"
    case HiddenTarget => "hidden_target" case MarkReaimed => "mark_reaimed"
    case StoragePartial => "storage_partial"
  }

  const WARNINGS: seq<WarningCode> :=
    [NavWarning, CaptchaVisible, AuthLoaded, ViewportChanged, IdempotentHit, ConsoleError,
     HiddenTarget, MarkReaimed, StoragePartial]

  /** The first of `all` whose code reads `s`. */
  function FirstWith<T>(all: seq<T>, code: T -> string, s: string): (r: Option<T>)
    ensures r.Some? ==> code(r.value) == s
    ensures r.None? ==> forall i :: 0 <= i < |all| ==> code(all[i]) != s
  {
    if all == [] then None
    else if code(all[0]) == s then Some(all[0])
    else FirstWith(all[1..], code, s)
  }

  function ParseRole(s: string): Option<Role> { FirstWith(ROLES, RoleCode, s) }
  function ParseOp(s: string): Option<Op> { FirstWith(OPS, OpCode, s) }
  function ParseError(s: string): Option<ErrorCode> { FirstWith(ERRORS, ErrorText, s) }
  function ParseWarning(s: string): Option<WarningCode> { FirstWith(WARNINGS, WarningText, s) }

  /** A code is a non-empty word of letters and underscores. */
  predicate IsWord(s: string)
  {
    s != [] && forall i :: 0 <= i < |s| ==> 'a' <= s[i] <= 'z' || 'A' <= s[i] <= 'Z' || s[i] == '_'
  }

  lemma WordIsSolid(s: string)
    requires IsWord(s)
    ensures Solid(s) && OneLine(s) && '"' !in s && ',' !in s && '=' !in s
  {
    SolidPlain(s);
  }

  lemma RoleRoundTrip(r: Role)
    ensures ParseRole(RoleCode(r)) == Some(r) && IsWord(RoleCode(r))
  {
    RoleIsWord(r);
    assert r in ROLES;
    hide RoleCode;
    var i :| 0 <= i < |ROLES| && ROLES[i] == r;
    var q := ParseRole(RoleCode(r));
    assert q.Some? && RoleCode(q.value) == RoleCode(r);
    SameRole(q.value, r);
  }

  lemma RoleIsWord(r: Role)
    ensures IsWord(RoleCode(r))
  {
  }

  lemma SameRole(q: Role, r: Role)
    requires RoleCode(q) == RoleCode(r)
    ensures q == r
  {
  }

  lemma OpRoundTrip(o: Op)
    ensures ParseOp(OpCode(o)) == Some(o) && IsWord(OpCode(o))
  {
    assert o in OPS;
    var i :| 0 <= i < |OPS| && OPS[i] == o;
    var q := ParseOp(OpCode(o));
    assert OpCode(q.value) == OpCode(o);
  }

  lemma ErrorRoundTrip(c: ErrorCode)
    ensures ParseError(ErrorText(c)) == Some(c) && IsWord(ErrorText(c))
  {
    ErrorIsWord(c);
    assert c in ERRORS;
    hide ErrorText;
    var i :| 0 <= i < |ERRORS| && ERRORS[i] == c;
    var q := ParseError(ErrorText(c));
    assert q.Some? && ErrorText(q.value) == ErrorText(c);
    SameError(q.value, c);
  }

  lemma ErrorIsWord(c: ErrorCode)
    ensures IsWord(ErrorText(c))
  {
    if c.StaleToken? || c.EngineUnsupported? || c.PolicyDeny? || c.Timeout? || c.NotFound? || c.WrongSession? {
      EarlyErrorIsWord(c);
    } else if c.ConfirmRequired? {
      assert IsWord("CONFIRM_REQUIRED");
    } else if c.DaemonStartFailed? {
      assert IsWord("DAEMON_START_FAILED");
    } else {
      LateErrorIsWord(c);
    }
  }

  lemma EarlyErrorIsWord(c: ErrorCode)
    requires c.StaleToken? || c.EngineUnsupported? || c.PolicyDeny? || c.Timeout? || c.NotFound? || c.WrongSession?
    ensures IsWord(ErrorText(c))
  {
  }

  lemma LateErrorIsWord(c: ErrorCode)
    requires c.EngineCrash? || c.BadRequest? || c.UnknownKind? || c.EvalError? || c.EvalSyntax?
    ensures IsWord(ErrorText(c))
  {

  }

  lemma SameError(q: ErrorCode, c: ErrorCode)
    requires ErrorText(q) == ErrorText(c)
    ensures q == c
  {
    assert |ErrorText(q)| == |ErrorText(c)| && ErrorText(q)[0] == ErrorText(c)[0] && ErrorText(q)[5] == ErrorText(c)[5];
  }

  lemma WarningRoundTrip(c: WarningCode)
    ensures ParseWarning(WarningText(c)) == Some(c) && IsWord(WarningText(c))
  {
    WarningIsWord(c);
    assert c in WARNINGS;
    hide WarningText;
    var i :| 0 <= i < |WARNINGS| && WARNINGS[i] == c;
    var q := ParseWarning(WarningText(c));
    assert q.Some? && WarningText(q.value) == WarningText(c);
    SameWarning(q.value, c);
  }

  lemma WarningIsWord(c: WarningCode)
    ensures IsWord(WarningText(c))
  {
    match c {
      case NavWarning => assert IsWord("nav");
      case CaptchaVisible => assert IsWord("captcha_visible");
      case AuthLoaded => assert IsWord("auth_loaded");
      case ViewportChanged => assert IsWord("viewport_changed");
      case _ => LaterWarningIsWord(c);
    }
  }

  lemma LaterWarningIsWord(c: WarningCode)
    requires !c.NavWarning? && !c.CaptchaVisible? && !c.AuthLoaded? && !c.ViewportChanged?
    ensures IsWord(WarningText(c))
  {
  }

  lemma SameWarning(q: WarningCode, c: WarningCode)
    requires WarningText(q) == WarningText(c)
    ensures q == c
  {
    assert |WarningText(q)| == |WarningText(c)| && WarningText(q)[0] == WarningText(c)[0];
  }

  // ------------------------------------------------------------ the words read

  // What each word of the wire stands for, word by word.

  lemma RoleRead(r: Role, s: string)
    requires RoleCode(r) == s
    ensures ParseRole(s) == Some(r)
  {
    RoleRoundTrip(r);
  }

  lemma ControlRolesRead()
    ensures ParseRole("doc") == Some(Doc) && ParseRole("btn") == Some(Btn) && ParseRole("lnk") == Some(Lnk)
    ensures ParseRole("tf") == Some(Tf) && ParseRole("ta") == Some(Ta) && ParseRole("sel") == Some(Sel)
    ensures ParseRole("chk") == Some(Chk) && ParseRole("rad") == Some(Rad) && ParseRole("img") == Some(Img)
  {
    hide FirstWith, IsWord, ParseRole;
    RoleRead(Doc, "doc");
    RoleRead(Btn, "btn");
    RoleRead(Lnk, "lnk");
    RoleRead(Tf, "tf");
    RoleRead(Ta, "ta");
    RoleRead(Sel, "sel");
    RoleRead(Chk, "chk");
    RoleRead(Rad, "rad");
    RoleRead(Img, "img");
  }

  lemma TextRolesRead()
    ensures ParseRole("hd") == Some(Hd) && ParseRole("p") == Some(P) && ParseRole("li") == Some(Li)
    ensures ParseRole("lst") == Some(Lst) && ParseRole("tbl") == Some(Tbl) && ParseRole("row") == Some(Row)
    ensures ParseRole("cell") == Some(Cell)
  {
    hide FirstWith, IsWord, ParseRole;
    RoleRead(Hd, "hd");
    RoleRead(P, "p");
    RoleRead(Li, "li");
    RoleRead(Lst, "lst");
    RoleRead(Tbl, "tbl");
    RoleRead(Row, "row");
    RoleRead(Cell, "cell");
  }

  lemma PartRolesRead()
    ensures ParseRole("hdr") == Some(Hdr) && ParseRole("nav") == Some(Nav) && ParseRole("frm") == Some(Frm)
    ensures ParseRole("dlg") == Some(Dlg) && ParseRole("itm") == Some(Itm)
  {
    hide FirstWith, IsWord, ParseRole;
    RoleRead(Hdr, "hdr");
    RoleRead(Nav, "nav");
    RoleRead(Frm, "frm");
    RoleRead(Dlg, "dlg");
    RoleRead(Itm, "itm");
  }

  lemma OtherRolesRead()
    ensures ParseRole("sec") == Some(Sec) && ParseRole("art") == Some(Art) && ParseRole("mn") == Some(Mn)
    ensures ParseRole("ifr") == Some(Ifr) && ParseRole("el") == Some(El)
  {
    hide FirstWith, IsWord, ParseRole;
    RoleRead(Sec, "sec");
    RoleRead(Art, "art");
    RoleRead(Mn, "mn");
    RoleRead(Ifr, "ifr");
    RoleRead(El, "el");
  }

  lemma OpsRead()
    ensures ParseOp("click") == Some(Click) && ParseOp("fill") == Some(Fill) && ParseOp("scroll") == Some(Scroll)
    ensures ParseOp("key") == Some(Key) && ParseOp("submit") == Some(Submit) && ParseOp("hover") == Some(Hover)
    ensures ParseOp("focus") == Some(Focus)
  {
    hide FirstWith, IsWord;
    forall o: Op ensures ParseOp(OpCode(o)) == Some(o) { OpRoundTrip(o); }
    hide ParseOp;
    assert OpCode(Click) == "click" && OpCode(Fill) == "fill" && OpCode(Scroll) == "scroll" && OpCode(Key) == "key";
    assert OpCode(Submit) == "submit" && OpCode(Hover) == "hover" && OpCode(Focus) == "focus";
  }

  lemma ErrorsRead()
    ensures ParseError("STALE_TOKEN") == Some(StaleToken) && ParseError("ENGINE_UNSUPPORTED") == Some(EngineUnsupported)
    ensures ParseError("POLICY_DENY") == Some(PolicyDeny) && ParseError("TIMEOUT") == Some(Timeout)
    ensures ParseError("NOT_FOUND") == Some(NotFound) && ParseError("WRONG_SESSION") == Some(WrongSession)
    ensures ParseError("CONFIRM_REQUIRED") == Some(ConfirmRequired)
    ensures ParseError("DAEMON_START_FAILED") == Some(DaemonStartFailed)
    ensures ParseError("ENGINE_CRASH") == Some(EngineCrash) && ParseError("BAD_REQUEST") == Some(BadRequest)
    ensures ParseError("UNKNOWN_KIND") == Some(UnknownKind) && ParseError("EVAL_ERROR") == Some(EvalError)
    ensures ParseError("EVAL_SYNTAX") == Some(EvalSyntax)
  {
    hide FirstWith, IsWord;
    forall c: ErrorCode ensures ParseError(ErrorText(c)) == Some(c) { ErrorRoundTrip(c); }
    hide ParseError;
    assert ErrorText(StaleToken) == "STALE_TOKEN" && ErrorText(EngineUnsupported) == "ENGINE_UNSUPPORTED";
    assert ErrorText(PolicyDeny) == "POLICY_DENY" && ErrorText(Timeout) == "TIMEOUT";
    assert ErrorText(NotFound) == "NOT_FOUND" && ErrorText(WrongSession) == "WRONG_SESSION";
    assert ErrorText(ConfirmRequired) == "CONFIRM_REQUIRED" && ErrorText(DaemonStartFailed) == "DAEMON_START_FAILED";
    assert ErrorText(EngineCrash) == "ENGINE_CRASH" && ErrorText(BadRequest) == "BAD_REQUEST";
    assert ErrorText(UnknownKind) == "UNKNOWN_KIND" && ErrorText(EvalError) == "EVAL_ERROR";
    assert ErrorText(EvalSyntax) == "EVAL_SYNTAX";
  }

  lemma WarningsRead()
    ensures ParseWarning("nav") == Some(NavWarning) && ParseWarning("captcha_visible") == Some(CaptchaVisible)
    ensures ParseWarning("auth_loaded") == Some(AuthLoaded) && ParseWarning("viewport_changed") == Some(ViewportChanged)
    ensures ParseWarning("idempotent_hit") == Some(IdempotentHit) && ParseWarning("console_error") == Some(ConsoleError)
    ensures ParseWarning("hidden_target") == Some(HiddenTarget) && ParseWarning("mark_reaimed") == Some(MarkReaimed)
    ensures ParseWarning("storage_partial") == Some(StoragePartial)
  {
    hide FirstWith, IsWord;
    forall c: WarningCode ensures ParseWarning(WarningText(c)) == Some(c) { WarningRoundTrip(c); }
    hide ParseWarning;
    assert WarningText(NavWarning) == "nav" && WarningText(CaptchaVisible) == "captcha_visible";
    assert WarningText(AuthLoaded) == "auth_loaded" && WarningText(ViewportChanged) == "viewport_changed";
    assert WarningText(IdempotentHit) == "idempotent_hit" && WarningText(ConsoleError) == "console_error";
    assert WarningText(HiddenTarget) == "hidden_target" && WarningText(MarkReaimed) == "mark_reaimed";
    assert WarningText(StoragePartial) == "storage_partial";
  }
}
