/**
 * The endpoints as they run against the store: the store's three
 * collections are fields, each endpoint queries them, checks, and appends
 * at most one record, step by step.  Every method is proved to leave the
 * store and give the reply that the decision functions of Issuance say.
 */
module Store {
  import opened Wrappers
  import opened Text
  import opened Records
  import Issuance

  class RecordStore {
    var invitations: seq<Invitation>
    var onboarding: seq<OnboardingRecord>
    var memberships: seq<Membership>

    function Snapshot(): Db
      reads this
    {
      Db(invitations, onboarding, memberships)
    }

    constructor ()
      ensures Snapshot() == Db([], [], [])
    {
      invitations, onboarding, memberships := [], [], [];
    }

    /** POST /admin/create-invitation, after the admin check. */
    method CreateInvitation(invitedName: string, codeDraws: seq<nat>, pinDraws: seq<nat>, net: Network)
      returns (reply: Result<Issuance.InvitationResponse, HttpError>)
      requires Issuance.ValidDraws(codeDraws, pinDraws)
      modifies this
      ensures var step := Issuance.CreateInvitation(old(Snapshot()), invitedName, codeDraws, pinDraws, net);
        Snapshot() == step.db && reply == step.reply
    {
      var code := Issuance.InvitationCode(codeDraws);
      var pin := Issuance.Pin(pinDraws);
      var data := Invitation(code, pin, invitedName, "pending");
      if net.write.Refused? {
        return Err(StoreFailure);
      }
      invitations := invitations + [data];
      if net.write.StoredNotJson? {
        return Err(InternalError);
      }
      return Ok(Issuance.InvitationResponse(code, pin, invitedName));
    }

    /** POST /validate-invitation: reads only. */
    method ValidateInvitation(code: string, pin: string, net: Network) returns (reply: Result<string, HttpError>)
      ensures reply == Issuance.ValidateInvitation(Snapshot(), code, pin, net)
    {
      if Invitations in net.unreachable {
        return Err(StoreFailure);
      }
      var results := PendingMatches(invitations, code, pin);
      if results == [] {
        return Err(Issuance.InvalidInvitation);
      }
      return Ok(code);
    }

    /** POST /submit-onboarding. */
    method SubmitOnboarding(code: string, voiceConsent: bool, responses: map<string, string>, net: Network)
      returns (reply: Result<Issuance.OnboardingResponse, HttpError>)
      modifies this
      ensures var step := Issuance.SubmitOnboarding(old(Snapshot()), code, voiceConsent, responses, net);
        Snapshot() == step.db && reply == step.reply
    {
      if Invitations in net.unreachable {
        return Err(StoreFailure);
      }
      var invitation := WithCode(invitations, code);
      if invitation == [] {
        return Err(Issuance.InvitationMissing);
      }
      var data := OnboardingRecord(code, voiceConsent, responses);
      if net.write.Refused? {
        return Err(StoreFailure);
      }
      onboarding := onboarding + [data];
      if net.write.StoredNotJson? {
        return Err(InternalError);
      }
      return Ok(Issuance.OnboardingResponse("submitted", code));
    }

    /** POST /admin/approve-membership, after the admin check: guard, lookup, status, mint, insert. */
    method ApproveMembership(request: Issuance.ApproveRequest, net: Network, entropy: seq<Byte>, timestamp: nat, issuedAt: string)
      returns (reply: Result<Issuance.ApproveResponse, HttpError>)
      requires |entropy| == 3
      modifies this
      ensures var step := Issuance.Approve(old(Snapshot()), request, net, entropy, timestamp, issuedAt);
        Snapshot() == step.db && reply == step.reply
    {
      var code := request.invitationCode;
      if Memberships in net.unreachable {
        return Err(StoreFailure);
      }
      var existing := ActiveMemberships(memberships, code);
      if existing != [] {
        return Err(Issuance.AlreadyIssued);
      }
      if Invitations in net.unreachable {
        return Err(StoreFailure);
      }
      var invitation := WithCode(invitations, code);
      if invitation == [] {
        return Err(Issuance.InvitationNotFound);
      }
      var inv := invitation[0];
      if inv.status != "onboarded" {
        return Err(Issuance.NotOnboarded);
      }
      var userName := Issuance.IssuedTo(request, inv);
      var membershipCode := Issuance.MembershipCode(entropy);
      var membershipKey := Issuance.MembershipKey(membershipCode, timestamp);
      var payload := Membership(code, membershipCode, membershipKey, userName, true, issuedAt, None);
      if net.write.Refused? {
        return Err(StoreFailure);
      }
      memberships := memberships + [payload];
      if net.write.StoredNotJson? {
        return Err(InternalError);
      }
      if !net.write.echoed {
        return Err(Issuance.SaveFailed);
      }
      return Ok(Issuance.ApproveResponse(true, "Membership approved.", membershipKey, membershipCode));
    }

    /** POST /validate-key: reads only. */
    method ValidateKey(key: string, net: Network) returns (reply: Result<string, HttpError>)
      ensures reply == Issuance.ValidateKey(Snapshot(), key, net)
    {
      if Memberships in net.unreachable {
        return Err(StoreFailure);
      }
      var results := ActiveStatusMemberships(memberships, key);
      if results == [] {
        return Err(Issuance.InvalidKey);
      }
      return Ok(key);
    }
  }

  /**
   * Approving the same invitation twice in a row against one store: once
   * the first call has stored a membership, the second answers 409 and the
   * store keeps exactly the one new record.
   */
  method ApproveTwice(store: RecordStore, request: Issuance.ApproveRequest, net: Network,
                      entropy: seq<Byte>, timestamp: nat, issuedAt: string,
                      entropy': seq<Byte>, timestamp': nat, issuedAt': string)
    returns (first: Result<Issuance.ApproveResponse, HttpError>, second: Result<Issuance.ApproveResponse, HttpError>)
    requires |entropy| == 3 && |entropy'| == 3
    requires net.unreachable == {} && net.write == Stored(true)
    modifies store
    ensures first.Ok? ==> second == Err(Issuance.AlreadyIssued)
    ensures first.Ok? ==> |store.memberships| == |old(store.memberships)| + 1
    ensures first.Err? ==> store.memberships == old(store.memberships)
  {
    first := store.ApproveMembership(request, net, entropy, timestamp, issuedAt);
    ghost var afterFirst := store.Snapshot();
    second := store.ApproveMembership(request, net, entropy', timestamp', issuedAt');
    if first.Ok? {
      assert afterFirst.memberships[|old(store.memberships)|] in ActiveMemberships(afterFirst.memberships, request.invitationCode);
    }
  }
}
