/** Result classes, skip reasons and the small wrappers every other module uses. */
module Channel {

  datatype Option<+T> = None | Some(value: T)

  /** The mandatory classification of a delivery outcome, in order of severity. */
  datatype ResultClass = NotAttempted | Sent | ConnectError | Transient | Permanent

  /** Position in the severity order; classes are folded by taking the larger. */
  function Rank(c: ResultClass): nat {
    match c
    case NotAttempted => 0
    case Sent => 1
    case ConnectError => 2
    case Transient => 3
    case Permanent => 4
  }

  lemma SeverityOrder()
    ensures Rank(NotAttempted) < Rank(Sent) < Rank(ConnectError) < Rank(Transient) < Rank(Permanent)
  {
  }

  /** Which limit kept a delivery from its channel; NoSkip for one that was called. */
  datatype SkipReason = NoSkip | BreakerOpen | QuotaExhausted | RateLimited

  /** The outcome for one addressee of a send to several. */
  datatype Recipient = Recipient(accepted: bool, cls: ResultClass)

  /** The class a recipient contributes: an unclassified failure is permanent. */
  function Effective(r: Recipient): ResultClass {
    if r.accepted then Sent
    else if r.cls == Sent || r.cls == NotAttempted then Permanent
    else r.cls
  }

  predicate Unreached(r: Recipient) {
    !r.accepted && r.cls == ConnectError
  }

  /** The most severe class over all recipients, found by one accumulating pass. */
  method FromRecipients(rs: seq<Recipient>) returns (worst: ResultClass, accepted: nat)
    ensures rs == [] ==> worst == Permanent
    ensures rs != [] ==> exists r :: r in rs && Effective(r) == worst
    ensures forall r :: r in rs ==> Rank(Effective(r)) <= Rank(worst)
    ensures worst == Sent <==> rs != [] && accepted == |rs|
    ensures worst != NotAttempted
    ensures accepted == |AcceptedOf(rs)|
    ensures worst == ConnectError && accepted > 0 <==>
            && (exists r :: r in rs && r.accepted)
            && (exists r :: r in rs && Unreached(r))
            && (forall r :: r in rs ==> r.accepted || Unreached(r))
    ensures worst == Permanent <==>
            rs == [] || exists r :: r in rs && !r.accepted && r.cls != Transient && r.cls != ConnectError
    ensures worst == Transient <==>
            && (exists r :: r in rs && !r.accepted && r.cls == Transient)
            && (forall r :: r in rs ==> r.accepted || r.cls == Transient || r.cls == ConnectError)
  {
    if rs == [] {
      return Permanent, 0;
    }
    worst, accepted := Sent, 0;
    for i := 0 to |rs|
      invariant worst != NotAttempted
      invariant forall r :: r in rs[..i] ==> Rank(Effective(r)) <= Rank(worst)
      invariant worst == Sent || exists r :: r in rs[..i] && Effective(r) == worst
      invariant accepted == |AcceptedOf(rs[..i])| <= i
      invariant accepted == i <==> worst == Sent
    {
      AcceptedStep(rs, i);
      assert rs[..i + 1] == rs[..i] + [rs[i]];
      var cls := Effective(rs[i]);
      if rs[i].accepted {
        accepted := accepted + 1;
      }
      if Rank(cls) > Rank(worst) {
        worst := cls;
      }
    }
    assert rs[..|rs|] == rs;
    if worst == Sent {
      assert Rank(Effective(rs[0])) <= Rank(Sent);
      assert rs[0] in rs && Effective(rs[0]) == Sent;
    }
    SomeAccepted(rs);
    MixedBatch(rs, worst);
  }

  lemma {:induction false} SomeAccepted(rs: seq<Recipient>)
    ensures AcceptedOf(rs) != [] <==> exists r :: r in rs && r.accepted
  {
    if rs != [] {
      SomeAccepted(rs[1..]);
      assert rs == [rs[0]] + rs[1..];
    }
  }

  /** The most severe class is a connect error exactly when someone was not reached and nobody failed otherwise. */
  lemma MixedBatch(rs: seq<Recipient>, worst: ResultClass)
    requires rs != [] && worst != NotAttempted
    requires exists r :: r in rs && Effective(r) == worst
    requires forall r :: r in rs ==> Rank(Effective(r)) <= Rank(worst)
    ensures worst == ConnectError <==>
            && (exists r :: r in rs && Unreached(r))
            && (forall r :: r in rs ==> r.accepted || Unreached(r))
  {
    var s :| s in rs && Effective(s) == worst;
    if forall r :: r in rs ==> r.accepted || Unreached(r) {
      assert worst == ConnectError ==> Unreached(s);
    } else {
      var r :| r in rs && !r.accepted && !Unreached(r);
      assert Rank(Effective(r)) > Rank(ConnectError);
    }
  }

  function AcceptedOf(rs: seq<Recipient>): (s: seq<Recipient>)
    ensures |s| <= |rs|
  {
    if rs == [] then []
    else if rs[0].accepted then [rs[0]] + AcceptedOf(rs[1..])
    else AcceptedOf(rs[1..])
  }

  lemma {:induction false} AcceptedStep(rs: seq<Recipient>, i: nat)
    requires i < |rs|
    ensures |AcceptedOf(rs[..i + 1])| == |AcceptedOf(rs[..i])| + (if rs[i].accepted then 1 else 0)
  {
    if i == 0 {
      assert rs[..1] == [rs[0]] && rs[..0] == [];
    } else {
      AcceptedStep(rs[1..], i - 1);
      assert rs[1..][..i] == rs[..i + 1][1..];
      assert rs[1..][..i - 1] == rs[..i][1..];
    }
  }
}
