/**
 Payment status of each participant, derived from the payment records by a
 precedence fold. `IsBest` is the reference: what the best record of a
 multiset of records says, with no order in it.
 */
module PaymentStatus {
  import opened Options

  datatype RecordStatus = Pending | Completed | Failed

  datatype Record = Record(recipient: string, status: RecordStatus, roundId: string, timestamp: int)

  datatype Status = Paid | Pending | Failed | Unpaid

  datatype Collaborator = Collaborator(address: string, alias: Option<string>, basisPoints: int)

  datatype Participant = Participant(
    address: string,
    alias: Option<string>,
    basisPoints: int,
    status: Status,
    roundId: Option<string>,
    lastUpdated: Option<int>)

  function Precedence(s: Status): nat {
    match s case Paid => 3 case Pending => 2 case Failed => 1 case Unpaid => 0
  }

  function StatusOf(r: Record): Status {
    match r.status case Completed => Paid case Pending => Status.Pending case Failed => Status.Failed
  }

  function Initial(c: Collaborator): Participant {
    Participant(c.address, c.alias, c.basisPoints, Unpaid, None, None)
  }

  /** One round of the loop: take the record if it ranks higher, or equal and newer. */
  function Better(best: Participant, r: Record): Participant {
    var candidate := StatusOf(r);
    var higher := Precedence(candidate) > Precedence(best.status);
    var newer := Precedence(candidate) == Precedence(best.status)
                 && (best.lastUpdated.None? || r.timestamp > best.lastUpdated.value);
    if higher || newer then best.(status := candidate, roundId := Some(r.roundId), lastUpdated := Some(r.timestamp)) else best
  }

  function Fold(best: Participant, theirs: seq<Record>): Participant {
    if theirs == [] then best else Better(Fold(best, theirs[..|theirs| - 1]), theirs[|theirs| - 1])
  }

  /** `payments.filter(...)`; `norm` stands for trimming and upper-casing an address. */
  function Theirs(norm: string -> string, payments: seq<Record>, address: string): seq<Record> {
    if payments == [] then []
    else
      var last := payments[|payments| - 1];
      Theirs(norm, payments[..|payments| - 1], address) + if norm(last.recipient) == norm(address) then [last] else []
  }

  function Derive(norm: string -> string, payments: seq<Record>, c: Collaborator): Participant {
    Fold(Initial(c), Theirs(norm, payments, c.address))
  }

  /** `deriveParticipantStatuses`. */
  method DeriveStatuses(norm: string -> string, collaborators: seq<Collaborator>, payments: seq<Record>) returns (result: seq<Participant>)
    ensures |result| == |collaborators|
    ensures forall i :: 0 <= i < |collaborators| ==>
      result[i] == Derive(norm, payments, collaborators[i]) && IsBest(result[i], collaborators[i], Matching(norm, payments, collaborators[i].address))
  {
    result := [];
    var i := 0;
    while i < |collaborators|
      invariant 0 <= i <= |collaborators| && |result| == i
      invariant forall k :: 0 <= k < i ==> result[k] == Derive(norm, payments, collaborators[k])
    {
      var c := collaborators[i];
      var theirs, best, k := Theirs(norm, payments, c.address), Initial(c), 0;
      while k < |theirs|
        invariant 0 <= k <= |theirs| && best == Fold(Initial(c), theirs[..k])
      {
        assert theirs[..k + 1][..k] == theirs[..k];
        best := Better(best, theirs[k]);
        k := k + 1;
      }
      assert theirs[..k] == theirs;
      result := result + [best];
      i := i + 1;
    }
    forall k | 0 <= k < |collaborators|
      ensures IsBest(result[k], collaborators[k], Matching(norm, payments, collaborators[k].address))
    {
      DerivedIsBest(norm, payments, collaborators[k]);
    }
  }

  // ---------- the reference ----------

  ghost predicate Concerns(norm: string -> string, r: Record, address: string) {
    norm(r.recipient) == norm(address)
  }

  /** The records of one participant, as a multiset. */
  ghost function Matching(norm: string -> string, payments: seq<Record>, address: string): multiset<Record> {
    if payments == [] then multiset{}
    else
      var last := payments[|payments| - 1];
      Matching(norm, payments[..|payments| - 1], address) + if Concerns(norm, last, address) then multiset{last} else multiset{}
  }

  /** `r` ranks at least as high as `q`: by status, then by time. */
  predicate AtLeast(r: Record, q: Record) {
    Precedence(StatusOf(r)) > Precedence(StatusOf(q))
    || (Precedence(StatusOf(r)) == Precedence(StatusOf(q)) && r.timestamp >= q.timestamp)
  }

  ghost predicate IsTop(r: Record, records: multiset<Record>) {
    r in records && forall q :: q in records ==> AtLeast(r, q)
  }

  /** The participant shows the best of the records, or nothing when there are none. */
  ghost predicate IsBest(p: Participant, c: Collaborator, records: multiset<Record>) {
    && p.address == c.address && p.alias == c.alias && p.basisPoints == c.basisPoints
    && (records == multiset{} ==> p == Initial(c))
    && (records != multiset{} ==> exists r :: IsTop(r, records) && Shows(p, r))
  }

  predicate Shows(p: Participant, r: Record) {
    p.status == StatusOf(r) && p.roundId == Some(r.roundId) && p.lastUpdated == Some(r.timestamp)
  }

  lemma {:induction false} TheirsMatch(norm: string -> string, payments: seq<Record>, address: string)
    ensures multiset(Theirs(norm, payments, address)) == Matching(norm, payments, address)
  {
    if payments != [] {
      TheirsMatch(norm, payments[..|payments| - 1], address);
    }
  }

  lemma {:induction false} FoldIsBest(c: Collaborator, theirs: seq<Record>)
    ensures IsBest(Fold(Initial(c), theirs), c, multiset(theirs))
  {
    if theirs != [] {
      var init, last := theirs[..|theirs| - 1], theirs[|theirs| - 1];
      FoldIsBest(c, init);
      assert theirs == init + [last];
      assert multiset(theirs) == multiset(init) + multiset{last};
      OneMore(Fold(Initial(c), init), c, multiset(init), last);
    }
  }

  /** Taking in one more record keeps the best. */
  lemma OneMore(best: Participant, c: Collaborator, records: multiset<Record>, last: Record)
    requires IsBest(best, c, records)
    ensures IsBest(Better(best, last), c, records + multiset{last})
  {
    var all, next := records + multiset{last}, Better(best, last);
    if records == multiset{} {
      assert IsTop(last, all) && Shows(next, last);
    } else {
      var r :| IsTop(r, records) && Shows(best, r);
      if next == best {
        assert IsTop(r, all) && Shows(next, r);
      } else {
        assert IsTop(last, all) && Shows(next, last);
      }
    }
  }

  lemma DerivedIsBest(norm: string -> string, payments: seq<Record>, c: Collaborator)
    ensures IsBest(Derive(norm, payments, c), c, Matching(norm, payments, c.address))
  {
    TheirsMatch(norm, payments, c.address);
    FoldIsBest(c, Theirs(norm, payments, c.address));
  }

  // ---------- the status, from the records alone ----------

  /** A completed payment outranks any other, and one in flight outranks a failed one. */
  predicate Outranks(a: RecordStatus, b: RecordStatus) {
    (a == Completed && b != Completed) || (a == RecordStatus.Pending && b == RecordStatus.Failed)
  }

  /** Record `i` is the participant's, and no other of theirs outranks it, is newer at the same status, or ties with it earlier on. */
  ghost predicate Wins(norm: string -> string, payments: seq<Record>, address: string, i: int) {
    && 0 <= i < |payments| && Concerns(norm, payments[i], address)
    && forall j :: 0 <= j < |payments| && j != i && Concerns(norm, payments[j], address) ==>
         var r, q := payments[i], payments[j];
         || Outranks(r.status, q.status)
         || (r.status == q.status && (q.timestamp < r.timestamp || (q.timestamp == r.timestamp && i < j)))
  }

  predicate ShowsRecord(p: Participant, r: Record) {
    && p.roundId == Some(r.roundId) && p.lastUpdated == Some(r.timestamp)
    && SameKind(p.status, r.status)
  }

  /** The status that a record of this kind gives. */
  predicate SameKind(shown: Status, kind: RecordStatus) {
    (shown == Paid && kind == Completed) || (shown == Status.Pending && kind == RecordStatus.Pending)
    || (shown == Status.Failed && kind == RecordStatus.Failed)
  }

  ghost predicate ShowsWinner(norm: string -> string, payments: seq<Record>, c: Collaborator, p: Participant) {
    if forall j :: 0 <= j < |payments| ==> !Concerns(norm, payments[j], c.address)
    then p == Participant(c.address, c.alias, c.basisPoints, Unpaid, None, None)
    else
      && p.address == c.address && p.alias == c.alias && p.basisPoints == c.basisPoints
      && exists i :: Wins(norm, payments, c.address, i) && ShowsRecord(p, payments[i])
  }

  /** The one record that decides what a participant shows. */
  lemma {:induction false} WinnerIsShown(norm: string -> string, payments: seq<Record>, c: Collaborator)
    ensures ShowsWinner(norm, payments, c, Derive(norm, payments, c))
    decreases |payments|
  {
    hide Derive, Concerns;
    if payments == [] {
      NoRecords(norm, c);
    } else {
      var n := |payments| - 1;
      var init, last := payments[..n], payments[n];
      WinnerIsShown(norm, init, c);
      DeriveAppend(norm, init, last, c);
      assert init + [last] == payments;
      NextWinner(norm, init, last, c, Derive(norm, init, c), Derive(norm, payments, c));
    }
  }

  lemma NextWinner(norm: string -> string, init: seq<Record>, last: Record, c: Collaborator, before: Participant, after: Participant)
    requires ShowsWinner(norm, init, c, before)
    requires after == if Concerns(norm, last, c.address) then Better(before, last) else before
    ensures ShowsWinner(norm, init + [last], c, after)
  {
    hide Concerns;
    var all, n := init + [last], |init|;
    assert all[n] == last && forall j :: 0 <= j < n ==> all[j] == init[j];
    if forall j :: 0 <= j < n ==> !Concerns(norm, init[j], c.address) {
      assert Concerns(norm, last, c.address) ==> Wins(norm, all, c.address, n);
    } else {
      var i :| Wins(norm, init, c.address, i) && ShowsRecord(before, init[i]);
      assert Concerns(norm, all[i], c.address);
      if after == before {
        StillWins(norm, init, last, c, i, before);
      } else {
        assert Wins(norm, all, c.address, n);
      }
    }
  }

  lemma StillWins(norm: string -> string, init: seq<Record>, last: Record, c: Collaborator, i: int, best: Participant)
    requires Wins(norm, init, c.address, i) && ShowsRecord(best, init[i])
    requires Concerns(norm, last, c.address) ==> Better(best, last) == best
    ensures Wins(norm, init + [last], c.address, i)
  {
    hide Concerns;
    var all := init + [last];
    assert forall j :: 0 <= j < |init| ==> all[j] == init[j];
  }

  /** The participant has a record of this status. */
  ghost predicate HasRecord(norm: string -> string, payments: seq<Record>, address: string, status: RecordStatus) {
    exists j :: 0 <= j < |payments| && Concerns(norm, payments[j], address) && payments[j].status == status
  }

  /**
   Paid exactly when some record of the participant is completed; pending
   exactly when none is and some is pending; failed exactly when all there are
   failed; unpaid exactly when there are none. The time shown is the latest
   among their records of that status.
   */
  lemma StatusFromRecords(norm: string -> string, payments: seq<Record>, c: Collaborator)
    ensures var p, a := Derive(norm, payments, c), c.address;
            var completed := HasRecord(norm, payments, a, Completed);
            var pending := HasRecord(norm, payments, a, RecordStatus.Pending);
            var failed := HasRecord(norm, payments, a, RecordStatus.Failed);
            && (p.status == Paid <==> completed)
            && (p.status == Status.Pending <==> !completed && pending)
            && (p.status == Status.Failed <==> !completed && !pending && failed)
            && (p.status == Unpaid <==> !completed && !pending && !failed)
            && (p.lastUpdated.None? <==> p.status == Unpaid)
            && (p.lastUpdated.Some? ==>
                  forall j :: 0 <= j < |payments| && Concerns(norm, payments[j], a) && SameKind(p.status, payments[j].status) ==>
                    payments[j].timestamp <= p.lastUpdated.value)
  {
    hide Derive, Concerns;
    WinnerIsShown(norm, payments, c);
    var p := Derive(norm, payments, c);
    if exists i :: Wins(norm, payments, c.address, i) && ShowsRecord(p, payments[i]) {
      var i :| Wins(norm, payments, c.address, i) && ShowsRecord(p, payments[i]);
      assert HasRecord(norm, payments, c.address, payments[i].status);
    }
  }

  // ---------- order does not matter ----------

  lemma {:induction false} MatchingCount(norm: string -> string, payments: seq<Record>, address: string, r: Record)
    ensures Matching(norm, payments, address)[r] == if Concerns(norm, r, address) then multiset(payments)[r] else 0
  {
    if payments != [] {
      var init, last := payments[..|payments| - 1], payments[|payments| - 1];
      MatchingCount(norm, init, address, r);
      assert payments == init + [last];
    }
  }

  lemma SameMatching(norm: string -> string, a: seq<Record>, b: seq<Record>, address: string)
    requires multiset(a) == multiset(b)
    ensures Matching(norm, a, address) == Matching(norm, b, address)
  {
    forall r ensures Matching(norm, a, address)[r] == Matching(norm, b, address)[r] {
      MatchingCount(norm, a, address, r);
      MatchingCount(norm, b, address, r);
    }
  }

  /** Status and time are the same for every order of the records. */
  lemma OrderIndependent(norm: string -> string, a: seq<Record>, b: seq<Record>, c: Collaborator)
    requires multiset(a) == multiset(b)
    ensures Derive(norm, a, c).status == Derive(norm, b, c).status
    ensures Derive(norm, a, c).lastUpdated == Derive(norm, b, c).lastUpdated
  {
    hide Derive, Matching;
    DerivedIsBest(norm, a, c);
    DerivedIsBest(norm, b, c);
    SameMatching(norm, a, b, c.address);
  }

  /** All best records of the participant name the same round. */
  ghost predicate OneTopRound(norm: string -> string, payments: seq<Record>, c: Collaborator) {
    forall r, q :: IsTop(r, Matching(norm, payments, c.address)) && IsTop(q, Matching(norm, payments, c.address)) ==> r.roundId == q.roundId
  }

  /** The round shown is order-independent exactly when the best records all name one round. */
  lemma RoundOrderIndependentIff(norm: string -> string, payments: seq<Record>, c: Collaborator)
    ensures OneTopRound(norm, payments, c) <==>
            forall b :: multiset(b) == multiset(payments) ==> Derive(norm, b, c).roundId == Derive(norm, payments, c).roundId
  {
    hide Derive, Matching;
    if OneTopRound(norm, payments, c) {
      forall b | multiset(b) == multiset(payments) ensures Derive(norm, b, c).roundId == Derive(norm, payments, c).roundId {
        DerivedIsBest(norm, payments, c);
        DerivedIsBest(norm, b, c);
        SameMatching(norm, payments, b, c.address);
      }
    } else {
      var records := Matching(norm, payments, c.address);
      var r, q :| IsTop(r, records) && IsTop(q, records) && r.roundId != q.roundId;
      var first := InFront(norm, payments, c, r);
      var second := InFront(norm, payments, c, q);
      assert Derive(norm, first, c).roundId != Derive(norm, second, c).roundId;
    }
  }

  /** Two completed payments of the same moment in different rounds: the order decides which round is shown. */
  lemma RoundCanDependOnOrder(norm: string -> string, c: Collaborator, time: int)
    ensures var first, second := Record(c.address, Completed, "1", time), Record(c.address, Completed, "2", time);
            Derive(norm, [first, second], c).roundId == Some("1") && Derive(norm, [second, first], c).roundId == Some("2")
  {
    hide Derive;
    var first, second := Record(c.address, Completed, "1", time), Record(c.address, Completed, "2", time);
    NoRecords(norm, c);
    assert [] + [first] == [first] && [first] + [second] == [first, second];
    assert [] + [second] == [second] && [second] + [first] == [second, first];
    DeriveAppend(norm, [], first, c);
    DeriveAppend(norm, [first], second, c);
    DeriveAppend(norm, [], second, c);
    DeriveAppend(norm, [second], first, c);
  }

  lemma MoveToFront(s: seq<Record>, r: Record) returns (rest: seq<Record>)
    requires r in s
    ensures multiset([r] + rest) == multiset(s)
    ensures forall q :: q in rest ==> q in s
  {
    var i :| 0 <= i < |s| && s[i] == r;
    rest := s[..i] + s[i + 1..];
    assert s == s[..i] + ([r] + s[i + 1..]);
  }

  lemma MatchingHas(norm: string -> string, payments: seq<Record>, address: string, r: Record)
    ensures r in Matching(norm, payments, address) <==> r in payments && Concerns(norm, r, address)
  {
    MatchingCount(norm, payments, address, r);
  }

  /** Some order of the records shows the round of any chosen best record: the one that puts it first. */
  lemma InFront(norm: string -> string, payments: seq<Record>, c: Collaborator, r: Record) returns (b: seq<Record>)
    requires IsTop(r, Matching(norm, payments, c.address))
    ensures multiset(b) == multiset(payments) && Derive(norm, b, c).roundId == Some(r.roundId)
  {
    hide Matching, Derive, Concerns;
    MatchingHas(norm, payments, c.address, r);
    var rest := MoveToFront(payments, r);
    forall q | q in rest && Concerns(norm, q, c.address) ensures AtLeast(r, q) {
      MatchingHas(norm, payments, c.address, q);
    }
    FirstTopStays(norm, r, rest, c);
    b := [r] + rest;
  }

  /** One more record changes the derivation only by one round of the loop. */
  lemma DeriveAppend(norm: string -> string, payments: seq<Record>, last: Record, c: Collaborator)
    ensures Derive(norm, payments + [last], c) ==
            if Concerns(norm, last, c.address) then Better(Derive(norm, payments, c), last) else Derive(norm, payments, c)
  {
    hide Better;
    var theirs := Theirs(norm, payments, c.address);
    assert (payments + [last])[..|payments|] == payments;
    if Concerns(norm, last, c.address) {
      assert (theirs + [last])[..|theirs|] == theirs;
    } else {
      assert theirs + [] == theirs;
    }
  }

  lemma {:induction false} FirstTopStays(norm: string -> string, r: Record, rest: seq<Record>, c: Collaborator)
    requires Concerns(norm, r, c.address)
    requires forall q :: q in rest && Concerns(norm, q, c.address) ==> AtLeast(r, q)
    ensures Shows(Derive(norm, [r] + rest, c), r)
    decreases |rest|
  {
    hide Derive, Concerns;
    if rest == [] {
      assert [r] + rest == [] + [r];
      DeriveAppend(norm, [], r, c);
      NoRecords(norm, c);
    } else {
      var n := |rest| - 1;
      FirstTopStays(norm, r, rest[..n], c);
      DeriveAppend(norm, [r] + rest[..n], rest[n], c);
      assert [r] + rest[..n] + [rest[n]] == [r] + rest;
    }
  }

  lemma NoRecords(norm: string -> string, c: Collaborator)
    ensures Derive(norm, [], c) == Initial(c)
  {
  }

  // ---------- never downgraded ----------

  /** More records never lower a status, and at the same status never move the time back. */
  lemma {:induction false} NeverDowngraded(norm: string -> string, payments: seq<Record>, more: seq<Record>, c: Collaborator)
    ensures var before, after := Derive(norm, payments, c), Derive(norm, payments + more, c);
            && Precedence(before.status) <= Precedence(after.status)
            && (before.status == after.status && before.lastUpdated.Some? ==>
                  after.lastUpdated.Some? && before.lastUpdated.value <= after.lastUpdated.value)
    decreases |more|
  {
    hide Derive, Concerns;
    if more == [] {
      assert payments + more == payments;
    } else {
      var n := |more| - 1;
      NeverDowngraded(norm, payments, more[..n], c);
      DeriveAppend(norm, payments + more[..n], more[n], c);
      assert payments + more[..n] + [more[n]] == payments + more;
    }
  }

  // ---------- completion ----------

  function PaidPoints(ps: seq<Participant>): int {
    if ps == [] then 0
    else PaidPoints(ps[..|ps| - 1]) + if ps[|ps| - 1].status == Paid then ps[|ps| - 1].basisPoints else 0
  }

  function OutstandingPoints(ps: seq<Participant>): int {
    if ps == [] then 0
    else OutstandingPoints(ps[..|ps| - 1]) + if ps[|ps| - 1].status != Paid then ps[|ps| - 1].basisPoints else 0
  }

  function PaidCount(ps: seq<Participant>): nat {
    if ps == [] then 0 else PaidCount(ps[..|ps| - 1]) + if ps[|ps| - 1].status == Paid then 1 else 0
  }

  function TotalPoints(cs: seq<Collaborator>): int {
    if cs == [] then 0 else TotalPoints(cs[..|cs| - 1]) + cs[|cs| - 1].basisPoints
  }

  function DeriveAll(norm: string -> string, payments: seq<Record>, cs: seq<Collaborator>): (r: seq<Participant>)
    ensures |r| == |cs| && forall i :: 0 <= i < |cs| ==> r[i] == Derive(norm, payments, cs[i])
  {
    seq(|cs|, i requires 0 <= i < |cs| => Derive(norm, payments, cs[i]))
  }

  // ---------- lifecycle state ----------

  datatype SplitState = Draft | Active | Distributing | Settled | Cancelled | Expired

  /** The project as read from the chain, with the off-chain draft flag and deadline (`None` for none, or one that is no date). */
  datatype Snapshot = Snapshot(
    locked: bool,
    balance: int,
    totalDistributed: int,
    collaborators: seq<Collaborator>,
    isDraft: bool,
    deadline: Option<int>)

  /** `deriveSplitState`. */
  function DeriveState(p: Snapshot, cancelled: bool, now: int): SplitState {
    if cancelled then Cancelled
    else if p.isDraft then Draft
    else if p.deadline.Some? && p.deadline.value <= now then Expired
    else if p.locked then if p.balance > 0 then Distributing else Settled
    else if p.totalDistributed > 0 && p.balance == 0 then Settled
    else if p.totalDistributed == 0 && p.balance == 0 then Draft
    else Active
  }

  /** No off-chain marker decides the state. */
  predicate Live(p: Snapshot, cancelled: bool, now: int) {
    !cancelled && !p.isDraft && (p.deadline.Some? ==> now < p.deadline.value)
  }

  datatype Summary = Summary(state: SplitState, paidCount: nat, totalParticipants: nat, allParticipantsPaid: bool, outstandingBasisPoints: int)

  /** `summariseCompletion`. */
  function Summarise(norm: string -> string, p: Snapshot, payments: seq<Record>, cancelled: bool, now: int): Summary {
    var ps := DeriveAll(norm, payments, p.collaborators);
    Summary(DeriveState(p, cancelled, now), PaidCount(ps), |ps|, |ps| > 0 && PaidCount(ps) == |ps|, OutstandingPoints(ps))
  }

  lemma {:induction false} PointsAddUp(norm: string -> string, payments: seq<Record>, more: seq<Record>, cs: seq<Collaborator>)
    ensures var ps, later := DeriveAll(norm, payments, cs), DeriveAll(norm, payments + more, cs);
            && PaidPoints(ps) + OutstandingPoints(ps) == TotalPoints(cs)
            && PaidCount(ps) <= PaidCount(later) <= |cs|
            && (PaidCount(ps) == |cs| <==> forall i :: 0 <= i < |cs| ==> ps[i].status == Paid)
            && ((forall i :: 0 <= i < |cs| ==> cs[i].basisPoints >= 0) ==> OutstandingPoints(later) <= OutstandingPoints(ps))
  {
    hide Derive;
    if cs != [] {
      var n := |cs| - 1;
      PointsAddUp(norm, payments, more, cs[..n]);
      var ps, later := DeriveAll(norm, payments, cs), DeriveAll(norm, payments + more, cs);
      assert ps[..n] == DeriveAll(norm, payments, cs[..n]) && later[..n] == DeriveAll(norm, payments + more, cs[..n]);
      KeepsPoints(norm, payments, cs[n]);
      KeepsPoints(norm, payments + more, cs[n]);
      NeverDowngraded(norm, payments, more, cs[n]);
    }
  }

  /**
   The summary adds up: paid and outstanding points make the total, everyone is
   reported paid exactly when there are participants and each one is, and new
   records never undo that nor raise what is outstanding (shares being
   non-negative). The state is the chain's alone: payment records do not move it.
   */
  lemma CompletionAddsUp(norm: string -> string, p: Snapshot, payments: seq<Record>, more: seq<Record>, cancelled: bool, now: int)
    ensures var cs := p.collaborators;
            var before, after := Summarise(norm, p, payments, cancelled, now), Summarise(norm, p, payments + more, cancelled, now);
            && PaidPoints(DeriveAll(norm, payments, cs)) + before.outstandingBasisPoints == TotalPoints(cs)
            && (before.allParticipantsPaid <==> cs != [] && forall i :: 0 <= i < |cs| ==> Derive(norm, payments, cs[i]).status == Paid)
            && before.paidCount <= after.paidCount <= after.totalParticipants == |cs|
            && (before.allParticipantsPaid ==> after.allParticipantsPaid)
            && ((forall i :: 0 <= i < |cs| ==> cs[i].basisPoints >= 0) ==> after.outstandingBasisPoints <= before.outstandingBasisPoints)
            && before.state == after.state
            && (before.state == Settled <==>
                Live(p, cancelled, now) && if p.locked then p.balance <= 0 else p.totalDistributed > 0 && p.balance == 0)
            && (before.state == Distributing <==> Live(p, cancelled, now) && p.locked && p.balance > 0)
            && (before.state == Cancelled <==> cancelled)
            && (before.state == Expired <==> !cancelled && !p.isDraft && p.deadline.Some? && p.deadline.value <= now)
            && (before.state == Draft <==>
                !cancelled && (p.isDraft || (Live(p, cancelled, now) && !p.locked && p.balance == 0 && p.totalDistributed == 0)))
  {
    hide Derive;
    PointsAddUp(norm, payments, more, p.collaborators);
  }

  lemma KeepsPoints(norm: string -> string, payments: seq<Record>, c: Collaborator)
    ensures Derive(norm, payments, c).basisPoints == c.basisPoints
  {
    DerivedIsBest(norm, payments, c);
  }
}
