/** The second-factor service of one user, call by call. */
module TotpService {
  import opened Basics
  import opened Totp

  /** What the backup hasher says of one stored hash and the code. */
  datatype Answer = Opens | Differs | Broken

  /** The first stored hash the hasher does not simply reject. */
  function FirstHit(hashes: seq<Hash>, answer: Hash -> Answer, n: nat): (i: nat)
    requires n <= |hashes|
    ensures n <= i <= |hashes|
    ensures i < |hashes| ==> !answer(hashes[i]).Differs?
    ensures forall k :: n <= k < i ==> answer(hashes[k]).Differs?
    decreases |hashes| - n
  {
    if n == |hashes| || !answer(hashes[n]).Differs? then n else FirstHit(hashes, answer, n + 1)
  }

  /** Which accesses of a call fail: the first read, and the write. */
  datatype Faults = Faults(load: bool, write: bool)

  /** `sys` is the state of the machine of concurrent calls; every access is a step of it. */
  class Service {
    var row: Option<Row>
    var flag: bool
    ghost var sys: Sys

    ghost predicate Valid()
      reads this
    {
      Reachable(sys) && sys.row == row && sys.flag == flag && FlagExact(sys)
    }

    constructor ()
      ensures Valid() && row == None && sys == INITIAL
    {
      row, flag, sys := None, false, INITIAL;
      new;
      ReachInitial();
    }

    /** Ten fresh codes, not yet confirmed; a confirmed enrolment is left alone. */
    method Enroll(ghost t: Call, codes: seq<Hash>, f: Faults) returns (o: Outcome)
      requires Valid() && t !in sys.pcs && FreshTen(codes, sys.drawn)
      modifies this
      ensures Valid() && sys.pcs == old(sys.pcs)[t := Returned(o)] && sys.usedBy == old(sys.usedBy)
      ensures o == AlreadyEnabled <==> old(IsEnrolled(row)) && !f.load
      ensures o == Done <==> !old(IsEnrolled(row)) && !f.load && !f.write
      ensures row == if o == Done then Some(NewRow(codes)) else old(row)
      ensures flag == old(flag)
    {
      if f.load {
        sys := GoLoadFails(sys, t, Op.Enroll);
        return Failed;
      }
      sys := GoLoad(sys, t, Op.Enroll);
      if row.Some? && row.value.enrolled {
        return AlreadyEnabled;
      }
      if f.write {
        sys := Go(sys, Fault(t));
        return Failed;
      }
      row := Some(NewRow(codes));
      sys := Go(sys, Act(t, codes, None));
      o := Done;
    }

    method Confirm(ghost t: Call, codeOk: bool, f: Faults) returns (o: Outcome)
      requires Valid() && t !in sys.pcs
      modifies this
      ensures Valid() && sys.pcs == old(sys.pcs)[t := Returned(o)] && sys.usedBy == old(sys.usedBy)
      ensures o == NotEnrolled <==> old(row).None? && !f.load
      ensures o == Done <==> old(row).Some? && !f.load && (old(IsEnrolled(row)) || (codeOk && !f.write))
      ensures o == Done ==> flag && row == Some(old(row).value.(enrolled := true))
      ensures o != Done ==> flag == old(flag) && row == old(row)
    {
      if f.load {
        sys := GoLoadFails(sys, t, Op.Confirm(codeOk));
        return Failed;
      }
      sys := GoLoad(sys, t, Op.Confirm(codeOk));
      if row.None? {
        return NotEnrolled;
      }
      if row.value.enrolled {
        return Done;
      }
      if !codeOk {
        return WrongCode;
      }
      if f.write {
        sys := Go(sys, Fault(t));
        return Failed;
      }
      row, flag := Some(row.value.(enrolled := true)), true;
      sys := Go(sys, Act(t, [], None));
      o := Done;
    }

    /** The hash a code uses up: the first one it opens, if no hash before it breaks the hasher. */
    ghost function Opened(answer: Hash -> Answer): Option<Hash>
      requires IsEnrolled(row)
      reads this
    {
      var hashes := row.value.hashes;
      var i := FirstHit(hashes, answer, 0);
      if i < |hashes| && answer(hashes[i]).Opens? then Some(hashes[i]) else None
    }

    /** The stored hashes in order; the first one opened is used up. */
    method WalkBackup(ghost t: Call, answer: Hash -> Answer, f: Faults) returns (o: Outcome)
      requires Valid() && IsEnrolled(row) && t in sys.pcs && sys.pcs[t] == Walk(row.value.hashes)
      modifies this
      ensures Valid() && sys.pcs == old(sys.pcs)[t := Returned(o)] && flag == old(flag)
      ensures o.AcceptedBackup? <==> old(Opened(answer)).Some? && !f.write
      ensures o.AcceptedBackup? ==>
                && o.hash == old(Opened(answer)).value && row == Some(Marked(old(row).value, o.hash))
                && o.hash !in old(sys.usedBy) && sys.usedBy == old(sys.usedBy)[o.hash := t]
      ensures !o.AcceptedBackup? ==> o in {WrongCode, Failed} && row == old(row) && sys.usedBy == old(sys.usedBy)
    {
      var hashes := row.value.hashes;
      var i := 0;
      while i < |hashes|
        invariant 0 <= i <= |hashes|
        invariant sys == old(sys) && row == old(row) && flag == old(flag)
        invariant FirstHit(hashes, answer, i) == FirstHit(hashes, answer, 0)
      {
        if answer(hashes[i]).Broken? {
          sys := Go(sys, Fault(t));
          return Failed;
        }
        if answer(hashes[i]).Opens? {
          o := UseUp(t, hashes[i], f);
          return;
        }
        i := i + 1;
      }
      sys := Go(sys, Act(t, [], None));
      o := WrongCode;
    }

    method UseUp(ghost t: Call, hash: Hash, f: Faults) returns (o: Outcome)
      requires Valid() && IsEnrolled(row) && hash in row.value.hashes
      requires t in sys.pcs && sys.pcs[t] == Walk(row.value.hashes)
      modifies this
      ensures Valid() && sys.pcs == old(sys.pcs)[t := Returned(o)] && flag == old(flag)
      ensures o == if f.write then Failed else AcceptedBackup(hash)
      ensures row == if f.write then old(row) else Some(Marked(old(row).value, hash))
      ensures hash !in old(sys.usedBy) && sys.usedBy == if f.write then old(sys.usedBy) else old(sys.usedBy)[hash := t]
    {
      ReachableInv(sys);
      sys := Go(sys, Act(t, [], Some(hash)));
      if f.write {
        sys := Go(sys, Fault(t));
        return Failed;
      }
      row := Some(Marked(row.value, hash));
      sys := Go(sys, Act(t, [], None));
      o := AcceptedBackup(hash);
    }

    /** The current code first; then the backup codes. */
    method Verify(ghost t: Call, codeOk: bool, answer: Hash -> Answer, f: Faults) returns (o: Outcome)
      requires Valid() && t !in sys.pcs
      modifies this
      ensures Valid() && sys.pcs == old(sys.pcs)[t := Returned(o)] && flag == old(flag)
      ensures o == NotEnrolled <==> !old(IsEnrolled(row)) && !f.load
      ensures o == AcceptedCode <==> old(IsEnrolled(row)) && codeOk && !f.load && !f.write
      ensures o.AcceptedBackup? <==>
                old(IsEnrolled(row)) && !codeOk && !f.load && !f.write && old(Opened(answer)).Some?
      ensures o.AcceptedBackup? ==>
                && o.hash == old(Opened(answer)).value && row == Some(Marked(old(row).value, o.hash))
                && o.hash !in old(sys.usedBy) && sys.usedBy == old(sys.usedBy)[o.hash := t]
      ensures !o.AcceptedBackup? ==> row == old(row) && sys.usedBy == old(sys.usedBy)
    {
      if f.load {
        sys := GoLoadFails(sys, t, Op.Verify(codeOk));
        return Failed;
      }
      sys := GoLoad(sys, t, Op.Verify(codeOk));
      if row.None? || !row.value.enrolled {
        return NotEnrolled;
      }
      if !codeOk {
        o := WalkBackup(t, answer, f);
        return;
      }
      o := StampUse(t, f);
    }

    method StampUse(ghost t: Call, f: Faults) returns (o: Outcome)
      requires Valid() && IsEnrolled(row) && t in sys.pcs && sys.pcs[t] == Stamp
      modifies `sys
      ensures Valid() && sys.pcs == old(sys.pcs)[t := Returned(o)] && sys.usedBy == old(sys.usedBy)
      ensures o == if f.write then Failed else AcceptedCode
    {
      if f.write {
        sys := Go(sys, Fault(t));
        return Failed;
      }
      sys := Go(sys, Act(t, [], None));
      o := AcceptedCode;
    }

    method Disable(ghost t: Call, fault: bool) returns (o: Outcome)
      requires Valid() && t !in sys.pcs
      modifies this
      ensures Valid() && sys.pcs == old(sys.pcs)[t := Returned(o)] && sys.usedBy == old(sys.usedBy)
      ensures o == (if fault then Failed else Done)
      ensures fault ==> row == old(row) && flag == old(flag)
      ensures !fault ==> row == None && !flag
    {
      if fault {
        sys := GoLoadFails(sys, t, Op.Disable);
        return Failed;
      }
      sys := Go(sys, Start(t, Op.Disable));
      row, flag := None, false;
      sys := Go(sys, Act(t, [], None));
      o := Done;
    }
  }
}
