/**
 * The REST issuance workflow as decisions over a store value: creating an
 * invitation, validating it, submitting onboarding, approving a membership
 * and validating a membership key.  Each endpoint maps the store and the
 * network's behaviour to the new store and the HTTP reply.  Random draws and
 * clock readings are parameters.
 */
module Issuance {
  import opened Wrappers
  import opened Text
  import opened Records

  /** Size of `string.ascii_letters + string.digits`. */
  const CodeAlphabetSize := 62
  const CodeLength := 18
  const PinLength := 4

  const InvalidInvitation := HttpError(404, "Invalid or expired invitation")
  const InvitationMissing := HttpError(404, "Invitation not found")
  const AlreadyIssued := HttpError(409, "Membership already exists for this invitation code.")
  const InvitationNotFound := HttpError(404, "Invitation not found.")
  const NotOnboarded := HttpError(400, "Invitation not onboarded yet.")
  const SaveFailed := HttpError(500, "Error saving membership record.")
  const InvalidKey := HttpError(404, "Invalid membership key")
  const BadAdminCredentials := HttpError(401, "Incorrect username or password")

  datatype InvitationResponse = InvitationResponse(code: string, pin: string, invitedName: string)
  datatype OnboardingResponse = OnboardingResponse(status: string, code: string)

  /** Whether the request object has a `user_name` attribute, and its value (None for null) if so. */
  datatype NameAttr = NoAttr | Attr(value: Option<string>)
  datatype ApproveRequest = ApproveRequest(invitationCode: string, userName: NameAttr)
  datatype ApproveResponse = ApproveResponse(success: bool, message: string, membershipKey: string, membershipCode: string)

  /** The store after a request, and the reply to it. */
  datatype Outcome<R> = Outcome(db: Db, reply: Result<R, HttpError>)

  /**
   * Admin HTTP Basic check.  Both comparisons run before either verdict is
   * used; `secrets.compare_digest` on strings refuses any non-ASCII operand
   * with a TypeError, which no handler catches.  Equality stands for the
   * constant-time comparison itself.
   */
  function VerifyAdmin(username: string, password: string, adminUsername: string, adminPassword: string): (r: Result<string, HttpError>)
    ensures r == Err(InternalError) <==>
      !(IsAscii(username) && IsAscii(adminUsername) && IsAscii(password) && IsAscii(adminPassword))
    ensures r.Ok? <==>
      && IsAscii(username) && IsAscii(adminUsername) && IsAscii(password) && IsAscii(adminPassword)
      && username == adminUsername && password == adminPassword
    ensures r.Ok? ==> r.value == username
    ensures r.Err? && r.error != InternalError ==> r.error == BadAdminCredentials
  {
    if !IsAscii(username) || !IsAscii(adminUsername) then Err(InternalError)
    else
      var correctUsername := username == adminUsername;
      if !IsAscii(password) || !IsAscii(adminPassword) then Err(InternalError)
      else
        var correctPassword := password == adminPassword;
        if !(correctUsername && correctPassword) then Err(BadAdminCredentials) else Ok(username)
  }

  // ---------------------------------------------------------------------
  // create_invitation

  /** Position k of `string.ascii_letters + string.digits`: a-z, then A-Z, then 0-9. */
  function CodeChar(k: nat): (c: char)
    requires k < CodeAlphabetSize
    ensures IsAlnum(c)
  {
    if k < 26 then ('a' as int + k) as char
    else if k < 52 then ('A' as int + k - 26) as char
    else DecimalDigit(k - 52)
  }

  /** What random.choices hands the endpoint: 18 positions in letters+digits, 4 in digits. */
  predicate ValidDraws(codeDraws: seq<nat>, pinDraws: seq<nat>) {
    && |codeDraws| == CodeLength && (forall i :: 0 <= i < |codeDraws| ==> codeDraws[i] < CodeAlphabetSize)
    && |pinDraws| == PinLength && (forall i :: 0 <= i < |pinDraws| ==> pinDraws[i] < 10)
  }

  predicate IsInvitationCode(code: string) {
    |code| == CodeLength && forall i :: 0 <= i < |code| ==> IsAlnum(code[i])
  }

  predicate IsPin(pin: string) {
    |pin| == PinLength && forall i :: 0 <= i < |pin| ==> IsDigit(pin[i])
  }

  /** `''.join(random.choices(string.ascii_letters + string.digits, k=18))` */
  function InvitationCode(codeDraws: seq<nat>): (code: string)
    requires |codeDraws| == CodeLength && forall i :: 0 <= i < |codeDraws| ==> codeDraws[i] < CodeAlphabetSize
    ensures IsInvitationCode(code)
  {
    seq(CodeLength, i requires 0 <= i < CodeLength => CodeChar(codeDraws[i]))
  }

  /** `''.join(random.choices(string.digits, k=4))` */
  function Pin(pinDraws: seq<nat>): (pin: string)
    requires |pinDraws| == PinLength && forall i :: 0 <= i < |pinDraws| ==> pinDraws[i] < 10
    ensures IsPin(pin)
  {
    seq(PinLength, i requires 0 <= i < PinLength => DecimalDigit(pinDraws[i]))
  }

  /**
   * The store's parsed answer to the POST is ignored; a body that is not
   * JSON raises after the row is stored.
   */
  function CreateInvitation(db: Db, invitedName: string, codeDraws: seq<nat>, pinDraws: seq<nat>, net: Network): (r: Outcome<InvitationResponse>)
    requires ValidDraws(codeDraws, pinDraws)
    ensures r.db.onboarding == db.onboarding && r.db.memberships == db.memberships
    ensures r.reply.Ok? <==> net.write.Stored?
    ensures net.write.Refused? ==> r == Outcome(db, Err(StoreFailure))
    ensures net.write.StoredNotJson? ==> r.reply == Err(InternalError)
    // the invitation lands exactly when the write does, whatever the reply
    ensures net.write.Landed() ==>
      && |r.db.invitations| == |db.invitations| + 1
      && r.db.invitations[..|db.invitations|] == db.invitations
      && var inv := r.db.invitations[|db.invitations|];
      && IsInvitationCode(inv.code) && IsPin(inv.pin) && inv.invitedName == invitedName && inv.status == "pending"
      && (r.reply.Ok? ==> r.reply.value == InvitationResponse(inv.code, inv.pin, invitedName))
  {
    var code := InvitationCode(codeDraws);
    var pin := Pin(pinDraws);
    var data := Invitation(code, pin, invitedName, "pending");
    match net.write
    case Refused => Outcome(db, Err(StoreFailure))
    case StoredNotJson => Outcome(db.(invitations := db.invitations + [data]), Err(InternalError))
    case Stored(_) => Outcome(db.(invitations := db.invitations + [data]), Ok(InvitationResponse(code, pin, invitedName)))
  }

  // ---------------------------------------------------------------------
  // validate_invitation

  function ValidateInvitation(db: Db, code: string, pin: string, net: Network): (r: Result<string, HttpError>)
    ensures r.Ok? <==>
      && Invitations !in net.unreachable
      && exists inv :: inv in db.invitations && inv.code == code && inv.pin == pin && inv.status == "pending"
    ensures r.Ok? ==> r.value == code
    ensures r.Err? ==> r.error == if Invitations in net.unreachable then StoreFailure else InvalidInvitation
  {
    if Invitations in net.unreachable then Err(StoreFailure)
    else
      var results := PendingMatches(db.invitations, code, pin);
      if results == [] then Err(InvalidInvitation)
      else assert results[0] in results; Ok(code)
  }

  // ---------------------------------------------------------------------
  // submit_onboarding

  /**
   * Any invitation with the code will do, whatever its status, and the
   * invitation itself is left as it is.
   */
  function SubmitOnboarding(db: Db, code: string, voiceConsent: bool, responses: map<string, string>, net: Network): (r: Outcome<OnboardingResponse>)
    ensures r.db.invitations == db.invitations && r.db.memberships == db.memberships
    ensures r.reply.Ok? <==>
      && Invitations !in net.unreachable
      && (exists inv :: inv in db.invitations && inv.code == code)
      && net.write.Stored?
    ensures r.reply.Ok? ==> r.reply.value == OnboardingResponse("submitted", code)
    // the record lands exactly when the lookup found the code and the write landed
    ensures r.db.onboarding ==
      if Invitations !in net.unreachable && WithCode(db.invitations, code) != [] && net.write.Landed()
      then db.onboarding + [OnboardingRecord(code, voiceConsent, responses)]
      else db.onboarding
    ensures r.reply.Err? ==>
      r.reply.error ==
        if Invitations in net.unreachable then StoreFailure
        else if WithCode(db.invitations, code) == [] then InvitationMissing
        else if net.write.StoredNotJson? then InternalError
        else StoreFailure
  {
    if Invitations in net.unreachable then Outcome(db, Err(StoreFailure))
    else if WithCode(db.invitations, code) == [] then Outcome(db, Err(InvitationMissing))
    else
      assert WithCode(db.invitations, code)[0] in WithCode(db.invitations, code);
      var data := OnboardingRecord(code, voiceConsent, responses);
      match net.write
      case Refused => Outcome(db, Err(StoreFailure))
      case StoredNotJson => Outcome(db.(onboarding := db.onboarding + [data]), Err(InternalError))
      case Stored(_) => Outcome(db.(onboarding := db.onboarding + [data]), Ok(OnboardingResponse("submitted", code)))
  }

  // ---------------------------------------------------------------------
  // approve_membership

  /** `f"MEMBER-{secrets.token_hex(3).upper()}"` with the three random bytes given. */
  function MembershipCode(entropy: seq<Byte>): (code: string)
    requires |entropy| == 3
    ensures |code| == 13 && code[..7] == "MEMBER-"
    ensures forall i :: 7 <= i < 13 ==> IsHexUpper(code[i])
  {
    "MEMBER-" + HexUpper(entropy)
  }

  /**
   * `f"{membership_code}-{timestamp}"`.  The timestamp is the clock reading
   * in whole seconds: the naive UTC time read as local time, which is Unix
   * time only on a host whose zone is UTC.
   */
  function MembershipKey(membershipCode: string, timestamp: nat): (key: string)
    ensures |key| > |membershipCode| + 1
    ensures key[..|membershipCode|] == membershipCode && key[|membershipCode|] == '-'
    ensures forall i :: |membershipCode| < i < |key| ==> IsDigit(key[i])
  {
    membershipCode + "-" + Decimal(timestamp)
  }

  /** Reads the random bytes and the timestamp back out of a membership key. */
  function ParseKey(key: string): Option<(seq<Byte>, nat)> {
    if |key| < 15 || key[..7] != "MEMBER-" || key[13] != '-' then None
    else match (ParseHex(key[7..13]), ParseDecimal(key[14..]))
      case (Some(entropy), Some(timestamp)) => Some((entropy, timestamp))
      case _ => None
  }

  /** `getattr(request, "user_name", inv["invited_name"])`. */
  function IssuedTo(request: ApproveRequest, invitation: Invitation): Option<string> {
    match request.userName
    case NoAttr => Some(invitation.invitedName)
    case Attr(v) => v
  }

  /** The replay guard's verdict: the guard's read succeeded and found an active membership. */
  predicate ReplayBlocked(db: Db, request: ApproveRequest, net: Network) {
    Memberships !in net.unreachable && ActiveMemberships(db.memberships, request.invitationCode) != []
  }

  /** Every check before the write passed: guard clear, invitation found and onboarded. */
  predicate Approvable(db: Db, request: ApproveRequest, net: Network) {
    && Memberships !in net.unreachable
    && ActiveMemberships(db.memberships, request.invitationCode) == []
    && Invitations !in net.unreachable
    && WithCode(db.invitations, request.invitationCode) != []
    && WithCode(db.invitations, request.invitationCode)[0].status == "onboarded"
  }

  function Approve(db: Db, request: ApproveRequest, net: Network, entropy: seq<Byte>, timestamp: nat, issuedAt: string): (r: Outcome<ApproveResponse>)
    requires |entropy| == 3
    ensures r.db.invitations == db.invitations && r.db.onboarding == db.onboarding
    // guard, then lookup, then status: each failure answers and writes nothing
    ensures ReplayBlocked(db, request, net) ==> r == Outcome(db, Err(AlreadyIssued))
    ensures r.reply == Err(AlreadyIssued) <==> ReplayBlocked(db, request, net)
    // a 500 from the store helper: an unreadable collection on the way, or a refused write
    ensures r.reply == Err(StoreFailure) <==>
      || Memberships in net.unreachable
      || (ActiveMemberships(db.memberships, request.invitationCode) == [] && Invitations in net.unreachable)
      || (Approvable(db, request, net) && net.write.Refused?)
    ensures r.reply == Err(InvitationNotFound) <==>
      && Memberships !in net.unreachable && ActiveMemberships(db.memberships, request.invitationCode) == []
      && Invitations !in net.unreachable && WithCode(db.invitations, request.invitationCode) == []
    ensures r.reply == Err(NotOnboarded) <==>
      && Memberships !in net.unreachable && ActiveMemberships(db.memberships, request.invitationCode) == []
      && Invitations !in net.unreachable && WithCode(db.invitations, request.invitationCode) != []
      && WithCode(db.invitations, request.invitationCode)[0].status != "onboarded"
    ensures r.reply.Err? && r.reply.error != SaveFailed && r.reply.error != InternalError ==> r.db == db
    // a membership is written exactly when every check passed and the write landed
    ensures r.db.memberships != db.memberships <==> Approvable(db, request, net) && net.write.Landed()
    ensures r.reply.Ok? <==> Approvable(db, request, net) && net.write == Stored(true)
    ensures Approvable(db, request, net) && net.write == Stored(false) ==> r.reply == Err(SaveFailed)
    ensures Approvable(db, request, net) && net.write.StoredNotJson? ==> r.reply == Err(InternalError)
    ensures r.db.memberships != db.memberships ==>
      && |r.db.memberships| == |db.memberships| + 1
      && r.db.memberships[..|db.memberships|] == db.memberships
      && var m := r.db.memberships[|db.memberships|];
      && m.active && m.invitationCode == request.invitationCode && m.status == None
      && m.membershipCode == MembershipCode(entropy)
      && m.membershipKey == MembershipKey(m.membershipCode, timestamp)
      && m.issuedTo == IssuedTo(request, WithCode(db.invitations, request.invitationCode)[0])
      && (r.reply.Ok? ==> r.reply.value == ApproveResponse(true, "Membership approved.", m.membershipKey, m.membershipCode))
  {
    var code := request.invitationCode;
    if Memberships in net.unreachable then Outcome(db, Err(StoreFailure))
    else if ActiveMemberships(db.memberships, code) != [] then Outcome(db, Err(AlreadyIssued))
    else if Invitations in net.unreachable then Outcome(db, Err(StoreFailure))
    else
      var invitation := WithCode(db.invitations, code);
      if invitation == [] then Outcome(db, Err(InvitationNotFound))
      else
        var inv := invitation[0];
        if inv.status != "onboarded" then Outcome(db, Err(NotOnboarded))
        else
          var membershipCode := MembershipCode(entropy);
          var membershipKey := MembershipKey(membershipCode, timestamp);
          var payload := Membership(code, membershipCode, membershipKey, IssuedTo(request, inv), true, issuedAt, None);
          var written := db.(memberships := db.memberships + [payload]);
          match net.write
          case Refused => Outcome(db, Err(StoreFailure))
          case StoredNotJson => Outcome(written, Err(InternalError))
          case Stored(echoed) =>
            if !echoed then Outcome(written, Err(SaveFailed))
            else Outcome(written, Ok(ApproveResponse(true, "Membership approved.", membershipKey, membershipCode)))
  }

  // ---------------------------------------------------------------------
  // validate_key

  /** Filters on `membership_code` and on a `status` column equal to "active". */
  function ValidateKey(db: Db, key: string, net: Network): (r: Result<string, HttpError>)
    ensures r.Ok? <==>
      && Memberships !in net.unreachable
      && exists m :: m in db.memberships && m.membershipCode == key && m.status == Some("active")
    ensures r.Ok? ==> r.value == key
    ensures r.Err? ==> r.error == if Memberships in net.unreachable then StoreFailure else InvalidKey
  {
    if Memberships in net.unreachable then Err(StoreFailure)
    else if ActiveStatusMemberships(db.memberships, key) == [] then Err(InvalidKey)
    else
      var found := ActiveStatusMemberships(db.memberships, key);
      assert found[0] in found;
      Ok(key)
  }
}
