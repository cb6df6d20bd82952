/**
 * Properties that relate several issuance requests: the shape of issued
 * credentials, replay prevention, the one-active-membership invariant, and
 * two places where the endpoints as written do not fit together (with the
 * intended behaviour alongside).
 */
module IssuanceProperties {
  import opened Wrappers
  import opened Text
  import opened Records
  import opened Issuance
  import Settings

  // ---------------------------------------------------------------------
  // Admin check

  /**
   * An admin password the settings accept can still shut every admin
   * request out with a 500: a non-ASCII special character passes the
   * strength check, and the comparison then raises on every request.
   */
  lemma NonAsciiAdminPasswordLocksOut(adminUsername: string)
    ensures Settings.ValidateAdminPassword("Abcdefghij1\U{20AC}").Ok?
    ensures forall username, password :: VerifyAdmin(username, password, adminUsername, "Abcdefghij1\U{20AC}") == Err(InternalError)
  {
    var p := "Abcdefghij1\U{20AC}";
    assert Settings.IsSpecial(p[11]) && p[11] as int >= 128;
    assert IsUpper(p[0]) && IsLower(p[1]) && IsDigit(p[10]);
  }

  // ---------------------------------------------------------------------
  // Credential format

  /** A membership key carries its random bytes and its timestamp, and both can be read back. */
  lemma MembershipKeyRoundTrip(entropy: seq<Byte>, timestamp: nat)
    requires |entropy| == 3
    ensures ParseKey(MembershipKey(MembershipCode(entropy), timestamp)) == Some((entropy, timestamp))
  {
    var key := MembershipKey(MembershipCode(entropy), timestamp);
    assert key[..7] == "MEMBER-";
    assert key[7..13] == HexUpper(entropy);
    assert key[14..] == Decimal(timestamp);
    HexRoundTrip(entropy);
    DecimalRoundTrip(timestamp);
  }

  /** Different random bytes or different seconds give different membership keys. */
  lemma IssuedKeysDistinct(e1: seq<Byte>, t1: nat, e2: seq<Byte>, t2: nat)
    requires |e1| == 3 && |e2| == 3
    requires e1 != e2 || t1 != t2
    ensures MembershipKey(MembershipCode(e1), t1) != MembershipKey(MembershipCode(e2), t2)
  {
    MembershipKeyRoundTrip(e1, t1);
    MembershipKeyRoundTrip(e2, t2);
  }

  /** The key handed out on success is `MEMBER-`, six upper-case hex digits, `-`, and the timestamp. */
  lemma ApprovedKeyFormat(db: Db, request: ApproveRequest, net: Network, entropy: seq<Byte>, timestamp: nat, issuedAt: string)
    requires |entropy| == 3
    requires Approve(db, request, net, entropy, timestamp, issuedAt).reply.Ok?
    ensures var resp := Approve(db, request, net, entropy, timestamp, issuedAt).reply.value;
      && resp.success
      && |resp.membershipCode| == 13 && resp.membershipCode[..7] == "MEMBER-"
      && (forall i :: 7 <= i < 13 ==> IsHexUpper(resp.membershipCode[i]))
      && resp.membershipKey[..13] == resp.membershipCode && resp.membershipKey[13] == '-'
      && ParseKey(resp.membershipKey) == Some((entropy, timestamp))
  {
    MembershipKeyRoundTrip(entropy, timestamp);
  }

  // ---------------------------------------------------------------------
  // Replay prevention

  /**
   * Once a call has stored a membership (even one that then answered 500
   * because the store echoed nothing), any later call for the same code
   * whose guard query reaches the store answers 409 and writes nothing.
   */
  lemma ApproveReplayRejected(
    db: Db, request: ApproveRequest, net: Network, entropy: seq<Byte>, timestamp: nat, issuedAt: string,
    again: ApproveRequest, net': Network, entropy': seq<Byte>, timestamp': nat, issuedAt': string)
    requires |entropy| == 3 && |entropy'| == 3
    requires Approve(db, request, net, entropy, timestamp, issuedAt).db.memberships != db.memberships
    requires again.invitationCode == request.invitationCode
    requires Memberships !in net'.unreachable
    ensures var first := Approve(db, request, net, entropy, timestamp, issuedAt);
      Approve(first.db, again, net', entropy', timestamp', issuedAt') == Outcome(first.db, Err(AlreadyIssued))
  {
    var first := Approve(db, request, net, entropy, timestamp, issuedAt);
    var m := first.db.memberships[|db.memberships|];
    assert m in first.db.memberships;
    assert m in ActiveMemberships(first.db.memberships, again.invitationCode);
  }

  /** Approval preserves "at most one active membership per invitation code". */
  lemma ApprovePreservesSingleActive(db: Db, request: ApproveRequest, net: Network, entropy: seq<Byte>, timestamp: nat, issuedAt: string)
    requires |entropy| == 3
    requires AtMostOneActive(db.memberships)
    ensures AtMostOneActive(Approve(db, request, net, entropy, timestamp, issuedAt).db.memberships)
  {
    var r := Approve(db, request, net, entropy, timestamp, issuedAt);
    if r.db.memberships != db.memberships {
      var ms := r.db.memberships;
      var n := |db.memberships|;
      forall i, j | 0 <= i < j < |ms| && ms[i].active && ms[j].active
        ensures ms[i].invitationCode != ms[j].invitationCode
      {
        if j == n {
          assert ms[i] == db.memberships[i] && ms[i] in db.memberships;
        } else {
          assert ms[i] == db.memberships[i] && ms[j] == db.memberships[j];
        }
      }
    }
  }

  // ---------------------------------------------------------------------
  // Finding: onboarding never marks an invitation "onboarded"

  /** No invitation in the store is in the status approval requires. */
  ghost predicate NoneOnboarded(db: Db) {
    forall inv :: inv in db.invitations ==> inv.status != "onboarded"
  }

  /** Approval cannot succeed, nor write, while no invitation is onboarded. */
  lemma ApproveNeedsOnboarded(db: Db, request: ApproveRequest, net: Network, entropy: seq<Byte>, timestamp: nat, issuedAt: string)
    requires |entropy| == 3
    requires NoneOnboarded(db)
    ensures Approve(db, request, net, entropy, timestamp, issuedAt).db == db
  {
  }

  /**
   * As written, no endpoint ever stores an invitation with status
   * "onboarded": creation stores "pending" and onboarding leaves the
   * invitation untouched.
   */
  lemma EndpointsNeverOnboard(
    db: Db, invitedName: string, codeDraws: seq<nat>, pinDraws: seq<nat>,
    code: string, voiceConsent: bool, responses: map<string, string>,
    request: ApproveRequest, entropy: seq<Byte>, timestamp: nat, issuedAt: string, net: Network)
    requires ValidDraws(codeDraws, pinDraws) && |entropy| == 3
    requires NoneOnboarded(db)
    ensures NoneOnboarded(CreateInvitation(db, invitedName, codeDraws, pinDraws, net).db)
    ensures NoneOnboarded(SubmitOnboarding(db, code, voiceConsent, responses, net).db)
    ensures NoneOnboarded(Approve(db, request, net, entropy, timestamp, issuedAt).db)
  {
  }

  /**
   * The documented scenario as written: on an empty store, with every store
   * call going through, an invitation is created and its onboarding accepted,
   * yet approving it answers 400.
   */
  lemma ScenarioAsWritten(
    invitedName: string, codeDraws: seq<nat>, pinDraws: seq<nat>,
    voiceConsent: bool, responses: map<string, string>,
    userName: NameAttr, entropy: seq<Byte>, timestamp: nat, issuedAt: string, net: Network)
    requires ValidDraws(codeDraws, pinDraws) && |entropy| == 3
    requires net.unreachable == {} && net.write.Stored?
    ensures
      var created := CreateInvitation(Db([], [], []), invitedName, codeDraws, pinDraws, net);
      var code := created.reply.value.code;
      var submitted := SubmitOnboarding(created.db, code, voiceConsent, responses, net);
      submitted.reply.Ok? &&
      Approve(submitted.db, ApproveRequest(code, userName), net, entropy, timestamp, issuedAt).reply == Err(NotOnboarded)
  {
  }

  /** The intended onboarding step: store the record and mark the invitation "onboarded". */
  function MarkOnboarded(invitations: seq<Invitation>, code: string): (r: seq<Invitation>)
    ensures |r| == |invitations|
    ensures forall i :: 0 <= i < |r| ==>
      r[i] == if invitations[i].code == code then invitations[i].(status := "onboarded") else invitations[i]
  {
    seq(|invitations|, i requires 0 <= i < |invitations| =>
      if invitations[i].code == code then invitations[i].(status := "onboarded") else invitations[i])
  }

  /**
   * Onboarding with the intended status update: the same replies as
   * written; on success the record is stored and the invitation marked, and
   * a failure leaves the store as onboarding as written leaves it.
   */
  function SubmitOnboardingMarked(db: Db, code: string, voiceConsent: bool, responses: map<string, string>, net: Network): (r: Outcome<OnboardingResponse>)
    ensures r.reply == SubmitOnboarding(db, code, voiceConsent, responses, net).reply
    ensures r.reply.Ok? ==>
      r.db == Db(MarkOnboarded(db.invitations, code), db.onboarding + [OnboardingRecord(code, voiceConsent, responses)], db.memberships)
    ensures r.reply.Err? ==> r.db == SubmitOnboarding(db, code, voiceConsent, responses, net).db
    ensures r.reply.Err? ==> r.db.invitations == db.invitations && r.db.memberships == db.memberships
  {
    var submitted := SubmitOnboarding(db, code, voiceConsent, responses, net);
    if submitted.reply.Ok? then submitted.(db := submitted.db.(invitations := MarkOnboarded(db.invitations, code)))
    else submitted
  }

  /**
   * With onboarding that marks the invitation, the documented scenario
   * works: create, onboard, approve succeeds, and approving again is 409.
   */
  lemma ScenarioCorrected(
    db: Db, invitedName: string, codeDraws: seq<nat>, pinDraws: seq<nat>,
    voiceConsent: bool, responses: map<string, string>,
    userName: NameAttr, entropy: seq<Byte>, timestamp: nat, issuedAt: string,
    entropy': seq<Byte>, timestamp': nat, issuedAt': string)
    requires ValidDraws(codeDraws, pinDraws) && |entropy| == 3 && |entropy'| == 3
    requires WithCode(db.invitations, InvitationCode(codeDraws)) == []
    requires ActiveMemberships(db.memberships, InvitationCode(codeDraws)) == []
    ensures
      var net := Network({}, Stored(true));
      var created := CreateInvitation(db, invitedName, codeDraws, pinDraws, net);
      var code := created.reply.value.code;
      var submitted := SubmitOnboardingMarked(created.db, code, voiceConsent, responses, net);
      var approved := Approve(submitted.db, ApproveRequest(code, userName), net, entropy, timestamp, issuedAt);
      && approved.reply.Ok?
      && Approve(approved.db, ApproveRequest(code, userName), net, entropy', timestamp', issuedAt').reply == Err(AlreadyIssued)
  {
    var net := Network({}, Stored(true));
    var created := CreateInvitation(db, invitedName, codeDraws, pinDraws, net);
    var code := created.reply.value.code;
    var inv := Invitation(code, created.reply.value.pin, invitedName, "pending");
    assert inv in created.db.invitations;
    var submitted := SubmitOnboardingMarked(created.db, code, voiceConsent, responses, net);
    var marked := submitted.db.invitations;
    var found := WithCode(marked, code);
    assert marked[|db.invitations|] in marked;
    assert marked[|db.invitations|] in found;
    assert found[0] in found;
    var k :| 0 <= k < |marked| && marked[k] == found[0];
    assert marked[k].code == code;
    assert submitted.db.memberships == db.memberships;
    assert Approvable(submitted.db, ApproveRequest(code, userName), net);
    var approved := Approve(submitted.db, ApproveRequest(code, userName), net, entropy, timestamp, issuedAt);
    ApproveReplayRejected(submitted.db, ApproveRequest(code, userName), net, entropy, timestamp, issuedAt,
      ApproveRequest(code, userName), net, entropy', timestamp', issuedAt');
  }

  // ---------------------------------------------------------------------
  // Finding: key validation filters on a column approval never writes

  /** As written, an approval never changes any answer of key validation. */
  lemma ApproveInvisibleToValidateKey(
    db: Db, request: ApproveRequest, net: Network, entropy: seq<Byte>, timestamp: nat, issuedAt: string,
    key: string, net': Network)
    requires |entropy| == 3
    ensures ValidateKey(Approve(db, request, net, entropy, timestamp, issuedAt).db, key, net') == ValidateKey(db, key, net')
  {
  }

  /** So a code fresh from a successful approval is refused with 404 by key validation. */
  lemma IssuedCodeRejectedAsWritten(
    db: Db, request: ApproveRequest, net: Network, entropy: seq<Byte>, timestamp: nat, issuedAt: string, net': Network)
    requires |entropy| == 3
    requires Approve(db, request, net, entropy, timestamp, issuedAt).reply.Ok?
    requires forall m :: m in db.memberships ==> m.status != Some("active")
    requires Memberships !in net'.unreachable
    ensures var r := Approve(db, request, net, entropy, timestamp, issuedAt);
      ValidateKey(r.db, r.reply.value.membershipCode, net') == Err(InvalidKey)
  {
  }

  /** The intended key validation: filter on the `active` flag that approval writes. */
  function ValidateKeyActive(db: Db, key: string, net: Network): (r: Result<string, HttpError>)
    ensures r.Ok? <==>
      && Memberships !in net.unreachable
      && exists m :: m in db.memberships && m.membershipCode == key && m.active
    ensures r.Ok? ==> r.value == key
    ensures r.Err? ==> r.error == if Memberships in net.unreachable then StoreFailure else InvalidKey
  {
    if Memberships in net.unreachable then Err(StoreFailure)
    else
      var found := Where(db.memberships, (m: Membership) => m.membershipCode == key && m.active);
      if found == [] then Err(InvalidKey)
      else assert found[0] in found; Ok(key)
  }

  /** With the intended filter, the code returned by a successful approval validates. */
  lemma IssuedCodeValidates(
    db: Db, request: ApproveRequest, net: Network, entropy: seq<Byte>, timestamp: nat, issuedAt: string, net': Network)
    requires |entropy| == 3
    requires Approve(db, request, net, entropy, timestamp, issuedAt).reply.Ok?
    requires Memberships !in net'.unreachable
    ensures var r := Approve(db, request, net, entropy, timestamp, issuedAt);
      ValidateKeyActive(r.db, r.reply.value.membershipCode, net') == Ok(r.reply.value.membershipCode)
  {
  }
}
