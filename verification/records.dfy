/**
 * The three record collections of the store (invitations, onboarding,
 * memberships), the equality filters the service sends to it, and the way
 * a store call can fail.  The store itself is reached over HTTP; here it is
 * the value Db and a Network that says which calls fail.
 */
module Records {
  import opened Wrappers

  datatype Invitation = Invitation(code: string, pin: string, invitedName: string, status: string)

  datatype OnboardingRecord = OnboardingRecord(
    invitationCode: string, voiceConsent: bool, responses: map<string, string>)

  /**
   * A membership row.  `issuedTo` is None for a JSON null.  `status` is a
   * column the service filters on but never writes (None on every row it
   * creates); rows written by other processes may carry one.
   */
  datatype Membership = Membership(
    invitationCode: string, membershipCode: string, membershipKey: string,
    issuedTo: Option<string>, active: bool, issuedAt: string, status: Option<string>)

  datatype Db = Db(invitations: seq<Invitation>, onboarding: seq<OnboardingRecord>, memberships: seq<Membership>)

  datatype Collection = Invitations | Onboarding | Memberships

  /**
   * The answer to a POST.  Stored: the row was stored and the body parsed as
   * JSON, a non-empty value (`echoed`) or an empty one such as `[]`.
   * StoredNotJson: the row was stored but the body is not JSON (an empty
   * body, which the store sends unless asked to return the row); decoding it
   * raises an exception the store helper does not catch.  Refused: the store
   * answered with an error or was unreachable.
   */
  datatype WriteReply = Stored(echoed: bool) | StoredNotJson | Refused
  {
    /** The row reached the store, whatever the endpoint then answers. */
    predicate Landed() { !Refused? }
  }

  /** Which reads fail (a transport error or a non-2xx answer) and how the one write of a request ends. */
  datatype Network = Network(unreachable: set<Collection>, write: WriteReply)

  datatype HttpError = HttpError(status: int, detail: string)

  /** Any HTTP failure of a store call becomes a 500 (the upstream message is not modelled). */
  const StoreFailure := HttpError(500, "Supabase error")

  /** The framework's answer to an exception no handler catches. */
  const InternalError := HttpError(500, "Internal Server Error")

  /** A store query: the records, in store order, that satisfy an AND of equality filters. */
  function Where<T(==,!new)>(s: seq<T>, p: T -> bool): (r: seq<T>)
    ensures |r| <= |s|
    ensures forall x :: x in r <==> x in s && p(x)
  {
    if s == [] then []
    else
      var rest := Where(s[1..], p);
      assert forall x :: x in s <==> x == s[0] || x in s[1..];
      if p(s[0]) then [s[0]] + rest else rest
  }

  /** Querying after an append sees the old answer plus the new row if it matches. */
  lemma {:induction false} WhereAppend<T(!new)>(s: seq<T>, x: T, p: T -> bool)
    ensures Where(s + [x], p) == Where(s, p) + (if p(x) then [x] else [])
  {
    if s != [] {
      assert (s + [x])[1..] == s[1..] + [x];
      WhereAppend(s[1..], x, p);
    }
  }

  /** `code=eq.X & pin=eq.Y & status=eq.pending` */
  function PendingMatches(invitations: seq<Invitation>, code: string, pin: string): seq<Invitation> {
    Where(invitations, (i: Invitation) => i.code == code && i.pin == pin && i.status == "pending")
  }

  /** `code=eq.X` */
  function WithCode(invitations: seq<Invitation>, code: string): seq<Invitation> {
    Where(invitations, (i: Invitation) => i.code == code)
  }

  predicate ActiveFor(m: Membership, invitationCode: string) {
    m.invitationCode == invitationCode && m.active
  }

  /** `invitation_code=eq.X & active=eq.true`, the replay guard's query. */
  function ActiveMemberships(memberships: seq<Membership>, invitationCode: string): seq<Membership> {
    Where(memberships, (m: Membership) => ActiveFor(m, invitationCode))
  }

  predicate CarriesActiveStatus(m: Membership, key: string) {
    m.membershipCode == key && m.status == Some("active")
  }

  /** `membership_code=eq.K & status=eq.active`, the key validation query. */
  function ActiveStatusMemberships(memberships: seq<Membership>, key: string): seq<Membership> {
    Where(memberships, (m: Membership) => CarriesActiveStatus(m, key))
  }

  /** The data-model invariant: no two active memberships share an invitation code. */
  ghost predicate AtMostOneActive(memberships: seq<Membership>) {
    forall i, j :: 0 <= i < j < |memberships| && memberships[i].active && memberships[j].active ==>
      memberships[i].invitationCode != memberships[j].invitationCode
  }
}
