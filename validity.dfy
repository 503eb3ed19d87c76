/**
 * The validity check of a discount code (`Discount.validate`): four
 * independent checks, every failing one reported, in a fixed order.
 */
module Validity {
  import opened Wrappers

  /** A calendar day as its ordinal number, so that `<` is the calendar order of dates. */
  type Date = int

  /** The fields of a discount code that the check reads. */
  datatype CodeState = CodeState(
    isActive: bool,
    validFrom: Date,
    validUntil: Option<Date>,   // None: no expiry
    allowedUses: Option<int>,   // None or 0: no limit
    used: int)

  /** The reasons a code can be refused, one per check. */
  datatype Reason = Inactive | NotActiveYet | Expired | UsesReached

  function Message(r: Reason): string {
    match r
    case Inactive => "Discount is inactive."
    case NotActiveYet => "Discount is not active yet."
    case Expired => "Discount is expired."
    case UsesReached => "Allowed uses for this discount has already been reached."
  }

  /** The order in which the checks run and their reasons are reported. */
  const CHECK_ORDER: seq<Reason> := [Inactive, NotActiveYet, Expired, UsesReached]

  /** Position of a reason in `CHECK_ORDER`. */
  function Rank(r: Reason): nat {
    match r
    case Inactive => 0
    case NotActiveYet => 1
    case Expired => 2
    case UsesReached => 3
  }

  /** A use limit is in force only when `allowed_uses` is truthy: set and not zero. */
  predicate HasUseLimit(c: CodeState) {
    c.allowedUses.Some? && c.allowedUses.value != 0
  }

  /** The check behind reason `r` fails for code `c` on day `today`. */
  predicate Fails(c: CodeState, today: Date, r: Reason) {
    match r
    case Inactive => !c.isActive
    case NotActiveYet => today < c.validFrom
    case Expired => c.validUntil.Some? && today > c.validUntil.value
    case UsesReached => HasUseLimit(c) && c.used >= c.allowedUses.value
  }

  /** The checks among `checks` that fail, in the order given. */
  function FailedChecks(c: CodeState, today: Date, checks: seq<Reason>): (r: seq<Reason>)
    ensures |r| <= |checks|
  {
    if checks == [] then []
    else (if Fails(c, today, checks[0]) then [checks[0]] else []) + FailedChecks(c, today, checks[1..])
  }

  /** Every reason the code is refused for on `today`, in check order. */
  function Reasons(c: CodeState, today: Date): seq<Reason> {
    FailedChecks(c, today, CHECK_ORDER)
  }

  /** `validate`: success, or failure carrying every reason. */
  function Verdict(c: CodeState, today: Date): Result<bool, seq<Reason>> {
    var reasons := Reasons(c, today);
    if reasons == [] then Success(true) else Failure(reasons)
  }

  lemma {:induction false} FailedChecksMembers(c: CodeState, today: Date, checks: seq<Reason>, r: Reason)
    ensures r in FailedChecks(c, today, checks) <==> r in checks && Fails(c, today, r)
  {
    if checks != [] {
      FailedChecksMembers(c, today, checks[1..], r);
      assert checks == [checks[0]] + checks[1..];
    }
  }

  /** The failures keep the relative order of the checks they come from. */
  lemma {:induction false} FailedChecksOrdered(c: CodeState, today: Date, checks: seq<Reason>)
    requires forall i, j :: 0 <= i < j < |checks| ==> Rank(checks[i]) < Rank(checks[j])
    ensures forall i, j :: 0 <= i < j < |FailedChecks(c, today, checks)| ==>
      Rank(FailedChecks(c, today, checks)[i]) < Rank(FailedChecks(c, today, checks)[j])
  {
    if checks != [] {
      var rest := FailedChecks(c, today, checks[1..]);
      FailedChecksOrdered(c, today, checks[1..]);
      forall r | r in rest ensures Rank(checks[0]) < Rank(r) {
        FailedChecksMembers(c, today, checks[1..], r);
      }
    }
  }

  /** A reason is reported exactly when its check fails: no check short-circuits another. */
  lemma ReasonsComplete(c: CodeState, today: Date, r: Reason)
    ensures r in Reasons(c, today) <==> Fails(c, today, r)
  {
    FailedChecksMembers(c, today, CHECK_ORDER, r);
  }

  /** Reasons come in check order (inactive, not yet active, expired, uses reached), each at most once. */
  lemma ReasonsInCheckOrder(c: CodeState, today: Date)
    ensures forall i, j :: 0 <= i < j < |Reasons(c, today)| ==> Rank(Reasons(c, today)[i]) < Rank(Reasons(c, today)[j])
  {
    FailedChecksOrdered(c, today, CHECK_ORDER);
  }

  /** The code is valid exactly when none of the four checks fails. */
  lemma ValidExactlyWhenNoCheckFails(c: CodeState, today: Date)
    ensures Verdict(c, today).Success? <==> forall r: Reason :: !Fails(c, today, r)
  {
    if Verdict(c, today).Success? {
      forall r: Reason ensures !Fails(c, today, r) { ReasonsComplete(c, today, r); }
    } else {
      var r := Reasons(c, today)[0];
      ReasonsComplete(c, today, r);
    }
  }

  /** A missing or zero `allowed_uses` never refuses a code, however often it was used. */
  lemma NoLimitWithoutAllowedUses(c: CodeState, today: Date)
    requires c.allowedUses == None || c.allowedUses == Some(0)
    ensures UsesReached !in Reasons(c, today)
  {
    ReasonsComplete(c, today, UsesReached);
  }

  /** A code without `valid_until` never expires. */
  lemma NoExpiryWithoutValidUntil(c: CodeState, today: Date)
    requires c.validUntil == None
    ensures Expired !in Reasons(c, today)
  {
    ReasonsComplete(c, today, Expired);
  }

  /** The four checks one after the other, each appending its reason when it fails. */
  lemma ReasonsInSequence(c: CodeState, today: Date)
    ensures Reasons(c, today)
         == (if Fails(c, today, Inactive) then [Inactive] else [])
          + (if Fails(c, today, NotActiveYet) then [NotActiveYet] else [])
          + (if Fails(c, today, Expired) then [Expired] else [])
          + (if Fails(c, today, UsesReached) then [UsesReached] else [])
  {
    var last := if Fails(c, today, UsesReached) then [UsesReached] else [];
    assert [UsesReached][1..] == [];
    assert FailedChecks(c, today, [UsesReached]) == last + [];
    assert [Expired, UsesReached][1..] == [UsesReached];
    var two := (if Fails(c, today, Expired) then [Expired] else []) + last;
    assert FailedChecks(c, today, [Expired, UsesReached]) == two;
    assert [NotActiveYet, Expired, UsesReached][1..] == [Expired, UsesReached];
    var three := (if Fails(c, today, NotActiveYet) then [NotActiveYet] else []) + two;
    assert FailedChecks(c, today, [NotActiveYet, Expired, UsesReached]) == three;
    assert CHECK_ORDER[1..] == [NotActiveYet, Expired, UsesReached];
  }

  /** An inactive code, not yet started and used up, is refused for all three reasons at once. */
  lemma AllFailuresReported(c: CodeState, today: Date)
    requires !c.isActive && today < c.validFrom && c.validUntil == None
    requires c.allowedUses.Some? && c.allowedUses.value != 0 && c.used >= c.allowedUses.value
    ensures Verdict(c, today) == Failure([Inactive, NotActiveYet, UsesReached])
  {
    ReasonsInSequence(c, today);
    assert !Fails(c, today, Expired);
    assert [Inactive] + [NotActiveYet] + [] + [UsesReached] == [Inactive, NotActiveYet, UsesReached];
  }

  /** Five allowed uses, five used: the code is refused for that reason alone. */
  lemma UsesExhausted(today: Date)
    ensures Verdict(CodeState(true, today, None, Some(5), 5), today) == Failure([UsesReached])
  {
    var c := CodeState(true, today, None, Some(5), 5);
    ReasonsInSequence(c, today);
    assert Fails(c, today, UsesReached);
    assert [] + [] + [] + [UsesReached] == [UsesReached];
  }
}
