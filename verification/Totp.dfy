/**
  Second-factor enrolment of one user. First the transactions of concurrent calls in
  any order; then each call as a whole, with the loop over the backup codes.

  A stored hash is a value of its own: salted hashing gives every enrolment hashes
  never seen before. Whether a code opens a hash is the hasher's answer.
 */
module Totp {
  import opened Basics

  const BACKUP_CODES := 10

  datatype Hash = Hash(n: nat)

  /** `issued` is what the enrolment wrote, `hashes` what is left of it. */
  datatype Row = Row(enrolled: bool, issued: seq<Hash>, hashes: seq<Hash>, used: nat)

  datatype Outcome =
    | Done | AcceptedCode | AcceptedBackup(hash: Hash) | WrongCode
    | NotEnrolled | AlreadyEnabled | Failed

  function NewRow(hashes: seq<Hash>): Row {
    Row(false, hashes, hashes, 0)
  }

  /** array_remove drops every copy, and the count goes up by one. */
  function Marked(row: Row, hash: Hash): Row {
    row.(hashes := Without(row.hashes, hash, |row.hashes|), used := row.used + 1)
  }

  lemma {:induction false} WithoutCount(s: seq<Hash>, x: Hash, n: nat)
    requires n <= |s|
    ensures |Without(s, x, n)| + multiset(s[..n])[x] == n
  {
    if n > 0 {
      WithoutCount(s, x, n - 1);
      assert s[..n] == s[..n - 1] + [s[n - 1]];
    }
  }

  /** Used plus left is conserved by a use if and only if the hash was stored once. */
  lemma MarkConserves(row: Row, hash: Hash)
    requires hash in row.hashes
    ensures var marked := Marked(row, hash);
            marked.used + |marked.hashes| == row.used + |row.hashes| <==> multiset(row.hashes)[hash] == 1
  {
    WithoutCount(row.hashes, hash, |row.hashes|);
    assert row.hashes[..|row.hashes|] == row.hashes;
  }

  lemma {:induction false} DistinctOnce(s: seq<Hash>, x: Hash, n: nat)
    requires Distinct(s) && n <= |s|
    ensures multiset(s[..n])[x] == if x in s[..n] then 1 else 0
  {
    if n > 0 {
      DistinctOnce(s, x, n - 1);
      assert s[..n] == s[..n - 1] + [s[n - 1]];
      assert s[n - 1] !in s[..n - 1];
    }
  }

  /** Ten distinct hashes were issued; each is still stored, or used up. */
  ghost predicate RowInv(row: Option<Row>, drawn: set<Hash>, spent: set<Hash>) {
    && spent <= drawn
    && (row.Some? ==>
          && |row.value.issued| == BACKUP_CODES && Distinct(row.value.issued) && Distinct(row.value.hashes)
          && (forall h :: h in row.value.issued ==> h in drawn && (h in row.value.hashes <==> h !in spent))
          && (forall h :: h in row.value.hashes ==> h in row.value.issued)
          && row.value.used + |row.value.hashes| == BACKUP_CODES)
  }

  lemma RowMarked(row: Row, drawn: set<Hash>, spent: set<Hash>, hash: Hash)
    requires RowInv(Some(row), drawn, spent) && hash in row.hashes
    ensures RowInv(Some(Marked(row, hash)), drawn, spent + {hash}) && hash !in spent
  {
    MarkConserves(row, hash);
    DistinctOnce(row.hashes, hash, |row.hashes|);
    assert row.hashes[..|row.hashes|] == row.hashes;
    WithoutElements(row.hashes, hash, |row.hashes|);
  }

  // --------------------------------------------------------- transactions in any order

  datatype PC =
    | EnrollCheck | EnrollWrite
    | ConfirmLoad(codeOk: bool) | ConfirmWrite
    | VerifyLoad(codeOk: bool) | Stamp | Walk(hashes: seq<Hash>) | Mark(hash: Hash)
    | DisableWrite
    | Returned(outcome: Outcome)

  datatype Op = Enroll | Confirm(codeOk: bool) | Verify(codeOk: bool) | Disable

  datatype Sys = Sys(
    row: Option<Row>,
    flag: bool,                              // users.totp_enabled
    drawn: set<Hash>,                        // hashes ever stored
    usedBy: map<Hash, Call>,                 // which call used up a hash
    pcs: map<Call, PC>)

  const INITIAL := Sys(None, false, {}, map[], map[])

  /** `fresh10` is what Enroll draws, `pick` the stored hash the code opens, if any. */
  datatype Step =
    | Start(t: Call, op: Op) | Act(t: Call, fresh10: seq<Hash>, pick: Option<Hash>)
    | Fault(t: Call)                             // the transaction fails
    | Lost(t: Call, fresh10: seq<Hash>)          // it commits, its reply is lost

  ghost predicate FreshTen(hashes: seq<Hash>, drawn: set<Hash>) {
    |hashes| == BACKUP_CODES && Distinct(hashes) && forall h :: h in hashes ==> h !in drawn
  }

  ghost predicate Enabled(s: Sys, step: Step) {
    match step
    case Start(t, _) => t !in s.pcs
    case Act(t, fresh10, pick) =>
      && t in s.pcs && !s.pcs[t].Returned?
      && (s.pcs[t].EnrollWrite? ==> FreshTen(fresh10, s.drawn))
      && (s.pcs[t].Walk? && pick.Some? ==> pick.value in s.pcs[t].hashes)
    case Fault(t) => t in s.pcs && !s.pcs[t].Returned?
    case Lost(t, fresh10) =>
      t in s.pcs && !s.pcs[t].Returned? && (s.pcs[t].EnrollWrite? ==> FreshTen(fresh10, s.drawn))
  }

  function FirstPc(op: Op): PC {
    match op
    case Enroll => EnrollCheck
    case Confirm(codeOk) => ConfirmLoad(codeOk)
    case Verify(codeOk) => VerifyLoad(codeOk)
    case Disable => DisableWrite
  }

  function Effect(s: Sys, t: Call, fresh10: seq<Hash>): (u: Sys)
    requires t in s.pcs
    ensures u.pcs == s.pcs
  {
    match s.pcs[t]
    case EnrollWrite => s.(row := Some(NewRow(fresh10)), drawn := s.drawn + Elements(fresh10))
    case ConfirmWrite => if s.row.None? then s else s.(row := Some(s.row.value.(enrolled := true)), flag := true)
    case Mark(hash) =>
      if s.row.None? || hash !in s.row.value.hashes then s
      else s.(row := Some(Marked(s.row.value, hash)), usedBy := s.usedBy[hash := t])
    case DisableWrite => s.(row := None, flag := false)
    case _ => s
  }

  function NextPc(s: Sys, t: Call, pick: Option<Hash>): PC
    requires t in s.pcs
  {
    match s.pcs[t]
    case EnrollCheck => if s.row.Some? && s.row.value.enrolled then Returned(AlreadyEnabled) else EnrollWrite
    case EnrollWrite => Returned(Done)
    case ConfirmLoad(codeOk) =>
      if s.row.None? then Returned(NotEnrolled)
      else if s.row.value.enrolled then Returned(Done)
      else if codeOk then ConfirmWrite
      else Returned(WrongCode)
    case ConfirmWrite => Returned(if s.row.None? then NotEnrolled else Done)
    case VerifyLoad(codeOk) =>
      if s.row.None? || !s.row.value.enrolled then Returned(NotEnrolled)
      else if codeOk then Stamp
      else Walk(s.row.value.hashes)
    case Stamp => Returned(if s.row.None? then NotEnrolled else AcceptedCode)
    case Walk(_) => if pick.Some? then Mark(pick.value) else Returned(WrongCode)
    case Mark(hash) =>
      if s.row.None? then Returned(NotEnrolled)
      else if hash in s.row.value.hashes then Returned(AcceptedBackup(hash))
      else Returned(WrongCode)
    case DisableWrite => Returned(Done)
    case pc => pc
  }

  function Goto(s: Sys, t: Call, pc: PC): Sys {
    s.(pcs := s.pcs[t := pc])
  }

  function Apply(s: Sys, step: Step): Sys
    requires Enabled(s, step)
  {
    match step
    case Start(t, op) => Goto(s, t, FirstPc(op))
    case Act(t, fresh10, pick) => Goto(Effect(s, t, fresh10), t, NextPc(s, t, pick))
    case Fault(t) => Goto(s, t, Returned(Failed))
    case Lost(t, fresh10) => Goto(Effect(s, t, fresh10), t, Returned(Failed))
  }

  ghost predicate IsRun(states: seq<Sys>, steps: seq<Step>) {
    && |states| == |steps| + 1 && states[0] == INITIAL
    && forall i :: 0 <= i < |steps| ==> Enabled(states[i], steps[i]) && states[i + 1] == Apply(states[i], steps[i])
  }

  // ------------------------------------------------------------------ invariant

  ghost predicate CallInv(s: Sys, t: Call, pc: PC) {
    pc.Returned? && pc.outcome.AcceptedBackup? ==> pc.outcome.hash in s.usedBy && s.usedBy[pc.outcome.hash] == t
  }

  ghost predicate Inv(s: Sys) {
    RowInv(s.row, s.drawn, s.usedBy.Keys) && forall t :: t in s.pcs ==> CallInv(s, t, s.pcs[t])
  }

  lemma InvEffect(s: Sys, t: Call, fresh10: seq<Hash>)
    requires Inv(s) && t in s.pcs && (s.pcs[t].EnrollWrite? ==> FreshTen(fresh10, s.drawn))
    ensures Inv(Effect(s, t, fresh10))
  {
    if s.pcs[t].Mark? && s.row.Some? && s.pcs[t].hash in s.row.value.hashes {
      var hash := s.pcs[t].hash;
      RowMarked(s.row.value, s.drawn, s.usedBy.Keys, hash);
      assert s.usedBy[hash := t].Keys == s.usedBy.Keys + {hash};
    }
  }

  lemma InvStep(s: Sys, step: Step)
    requires Inv(s) && Enabled(s, step)
    ensures Inv(Apply(s, step))
  {
    if step.Act? || step.Lost? { InvEffect(s, step.t, step.fresh10); }
  }

  lemma {:induction false} RunInv(states: seq<Sys>, steps: seq<Step>, n: nat)
    requires IsRun(states, steps) && n <= |steps|
    ensures Inv(states[n])
  {
    if n > 0 {
      RunInv(states, steps, n - 1);
      InvStep(states[n - 1], steps[n - 1]);
    }
  }

  /** However verifiers interleave, a stored hash leads to at most one accepted Verify. */
  lemma AcceptedAtMostOnce(states: seq<Sys>, steps: seq<Step>, n: nat, t: Call, u: Call, hash: Hash)
    requires IsRun(states, steps) && n <= |steps| && t in states[n].pcs && u in states[n].pcs
    requires states[n].pcs[t] == states[n].pcs[u] == Returned(AcceptedBackup(hash))
    ensures t == u
  {
    RunInv(states, steps, n);
    assert CallInv(states[n], t, states[n].pcs[t]) && CallInv(states[n], u, states[n].pcs[u]);
  }

  /** Per enrolment, codes used up plus codes left are always ten. */
  lemma TenPerEnrolment(states: seq<Sys>, steps: seq<Step>, n: nat)
    requires IsRun(states, steps) && n <= |steps| && states[n].row.Some?
    ensures var row := states[n].row.value;
            var spent := set h | h in row.issued && h in states[n].usedBy;
            |spent| + |row.hashes| == BACKUP_CODES && row.used == |spent|
  {
    RunInv(states, steps, n);
    var row := states[n].row.value;
    var spent := set h | h in row.issued && h in states[n].usedBy;
    assert Elements(row.issued) == spent + Elements(row.hashes) && spent !! Elements(row.hashes);
    DistinctSize(row.issued, |row.issued|);
    DistinctSize(row.hashes, |row.hashes|);
    assert Elements(row.issued) == Prefix(row.issued, |row.issued|);
    assert Elements(row.hashes) == Prefix(row.hashes, |row.hashes|);
  }

  // ------------------------------------------------------------------ the user flag

  predicate IsEnrolled(row: Option<Row>) {
    row.Some? && row.value.enrolled
  }

  predicate FlagExact(s: Sys) {
    s.flag <==> IsEnrolled(s.row)
  }

  /** An Enroll writes over an enrolment confirmed since its check. */
  ghost predicate Overwrites(s: Sys, step: Step) {
    (step.Act? || step.Lost?) && step.t in s.pcs && s.pcs[step.t].EnrollWrite? && s.flag
  }

  lemma FlagStep(s: Sys, step: Step)
    requires Enabled(s, step) && FlagExact(s)
    ensures FlagExact(Apply(s, step)) <==> !Overwrites(s, step)
  {}

  ghost predicate ExactUpTo(states: seq<Sys>, n: nat)
    requires n < |states|
  {
    FlagExact(states[n]) && (n == 0 || ExactUpTo(states, n - 1))
  }

  ghost predicate OverwrittenBefore(states: seq<Sys>, steps: seq<Step>, n: nat)
    requires n <= |steps| && n < |states|
  {
    n > 0 && (Overwrites(states[n - 1], steps[n - 1]) || OverwrittenBefore(states, steps, n - 1))
  }

  /** The flag is exact throughout a run if and only if no Enroll wrote over a confirmed enrolment. */
  lemma {:induction false} FlagExactIff(states: seq<Sys>, steps: seq<Step>, n: nat)
    requires IsRun(states, steps) && n <= |steps|
    ensures ExactUpTo(states, n) <==> !OverwrittenBefore(states, steps, n)
  {
    if n > 0 {
      FlagExactIff(states, steps, n - 1);
      if ExactUpTo(states, n - 1) {
        FlagStep(states[n - 1], steps[n - 1]);
      }
    }
  }

  /** In every interleaving a confirmed enrolment is flagged. */
  lemma {:induction false} EnrolledIsFlagged(states: seq<Sys>, steps: seq<Step>, n: nat)
    requires IsRun(states, steps) && n <= |steps|
    ensures IsEnrolled(states[n].row) ==> states[n].flag
  {
    if n > 0 {
      EnrolledIsFlagged(states, steps, n - 1);
      var s, step := states[n - 1], steps[n - 1];
      if step.Act? || step.Lost? { FlagEffect(s, step.t, step.fresh10); }
    }
  }

  lemma FlagEffect(s: Sys, t: Call, fresh10: seq<Hash>)
    requires t in s.pcs && (IsEnrolled(s.row) ==> s.flag)
    ensures IsEnrolled(Effect(s, t, fresh10).row) ==> Effect(s, t, fresh10).flag
  {}

  // ---------------------------------------------------------------- reachable states

  ghost predicate Reachable(s: Sys) {
    exists states, steps :: IsRun(states, steps) && states[|steps|] == s
  }

  lemma ReachInitial()
    ensures Reachable(INITIAL)
  {
    assert IsRun([INITIAL], []);
  }

  lemma Go(s: Sys, step: Step) returns (u: Sys)
    requires Reachable(s) && Enabled(s, step)
    ensures Reachable(u) && u == Apply(s, step)
  {
    u := Apply(s, step);
    var states, steps :| IsRun(states, steps) && states[|steps|] == s;
    var longer, more := states + [u], steps + [step];
    forall i | 0 <= i < |more| ensures Enabled(longer[i], more[i]) && longer[i + 1] == Apply(longer[i], more[i]) {
      if i < |steps| { assert longer[i] == states[i] && longer[i + 1] == states[i + 1] && more[i] == steps[i]; }
    }
    assert IsRun(longer, more);
  }

  /** A call begins, and its first read fails. */
  lemma GoLoadFails(s: Sys, t: Call, op: Op) returns (u: Sys)
    requires Reachable(s) && t !in s.pcs
    ensures Reachable(u) && u == Goto(s, t, Returned(Failed))
  {
    u := Go(s, Start(t, op));
    u := Go(u, Fault(t));
    assert u.pcs == s.pcs[t := Returned(Failed)];
  }

  /** A call begins with its read, which changes nothing. */
  lemma GoLoad(s: Sys, t: Call, op: Op) returns (u: Sys)
    requires Reachable(s) && t !in s.pcs && !op.Disable?
    ensures Reachable(u) && u == Goto(s, t, NextPc(Goto(s, t, FirstPc(op)), t, None))
  {
    var m := Go(s, Start(t, op));
    u := Go(m, Act(t, [], None));
    assert u.pcs == s.pcs[t := NextPc(m, t, None)];
  }

  lemma ReachableInv(s: Sys)
    requires Reachable(s)
    ensures Inv(s)
  {
    var states, steps :| IsRun(states, steps) && states[|steps|] == s;
    RunInv(states, steps, |steps|);
  }

  function Ten(from: nat): (r: seq<Hash>) {
    seq(BACKUP_CODES, i requires 0 <= i => Hash(from + i))
  }

  /** Two Enrolls have passed the check, and one has written. */
  lemma ReachEnrolled() returns (s: Sys)
    ensures Reachable(s) && s.row == Some(NewRow(Ten(0))) && s.drawn == Elements(Ten(0))
    ensures s.pcs == map[Call(0) := Returned(Done), Call(1) := EnrollWrite]
  {
    ReachInitial();
    s := GoLoad(INITIAL, Call(0), Enroll);
    s := GoLoad(s, Call(1), Enroll);
    assert FreshTen(Ten(0), s.drawn);
    s := Go(s, Act(Call(0), Ten(0), None));
    assert s.drawn == Elements(Ten(0));
  }

  /** That enrolment is confirmed. */
  lemma ReachConfirmed() returns (s: Sys)
    ensures Reachable(s) && s.flag && IsEnrolled(s.row) && s.drawn == Elements(Ten(0))
    ensures s.pcs == map[Call(0) := Returned(Done), Call(1) := EnrollWrite, Call(2) := Returned(Done)]
  {
    s := ReachEnrolled();
    s := GoLoad(s, Call(2), Confirm(true));
    s := Go(s, Act(Call(2), [], None));
  }

  /** Then the other Enroll writes: the flag says enabled over an unconfirmed row, and no Verify can pass. */
  lemma StaleFlagReached() returns (s: Sys)
    ensures Reachable(s) && s.flag && s.row.Some? && !s.row.value.enrolled
    ensures Call(3) in s.pcs && s.pcs[Call(3)] == Returned(NotEnrolled)
  {
    s := ReachConfirmed();
    assert FreshTen(Ten(10), s.drawn);
    s := Go(s, Act(Call(1), Ten(10), None));
    s := GoLoad(s, Call(3), Verify(true));
  }
}
