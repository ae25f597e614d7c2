/** The fixed request table: how requests get their ids and serials. */
module Requests {
  import opened Scheduler

  /** Features by number; a feature mask is a set of them. */
  const OVERVIEW: nat := 0

  /** What a host asks for; id 0 leaves the id to the session. */
  datatype RegionRequest = RegionRequest(
    id: nat, first: nat, end: nat, features: set<nat>, priority: Priority, deadline: nat)

  datatype Outcome = Accepted(id: nat) | Conflict | LimitExceeded | InvalidArgument | Unsupported | InvalidState

  class RequestTable {
    const slots: array<Request>
    var nextRequestId: nat
    var nextSerial: nat

    ghost predicate Valid()
      reads this, slots
    {
      && slots.Length == MAX_REGION_REQUESTS
      && nextRequestId <= UINT32_MAX && nextSerial <= UINT64_MAX
      && TableOk(slots[..], nextSerial)
    }

    constructor ()
      ensures Valid() && fresh(slots) && slots.Length == 16
      ensures forall i :: 0 <= i < slots.Length ==> slots[i] == EMPTY_SLOT
    {
      slots := new Request[MAX_REGION_REQUESTS](_ => EMPTY_SLOT);
      nextRequestId, nextSerial := 1, 0;
    }

    method Exists(id: nat) returns (found: bool)
      ensures found <==> id != 0 && exists i :: 0 <= i < slots.Length && slots[i].id == id
    {
      if id == 0 {
        return false;
      }
      for slot := 0 to slots.Length
        invariant forall i :: 0 <= i < slot ==> slots[i].id != id
      {
        if slots[slot].id == id {
          return true;
        }
      }
      return false;
    }

    /** The wrapping counter always reaches a free non-zero id: it skips zero and
        at most one value per occupied slot. */
    method AllocateId() returns (id: nat)
      requires slots.Length == MAX_REGION_REQUESTS && nextRequestId <= UINT32_MAX
      modifies this`nextRequestId
      ensures nextRequestId <= UINT32_MAX
      ensures 0 < id <= 0xFFFF_FFFF
      ensures forall i :: 0 <= i < slots.Length ==> slots[i].id != id
    {
      id := 0;
      var attempts := 0;
      ghost var first := nextRequestId;
      ghost var rejected: set<nat> := {};
      ghost var taken := set i | 0 <= i < slots.Length :: slots[i].id;
      while attempts < UINT32_MAX
        invariant 0 <= attempts <= UINT32_MAX
        invariant nextRequestId == Candidate(first, attempts)
        invariant rejected <= taken + {0} && |rejected| == attempts
        invariant forall r :: r in rejected ==> exists k :: 0 <= k < attempts && r == Candidate(first, k)
      {
        var candidate := nextRequestId;
        CandidateAdvances(first, attempts);
        nextRequestId := if nextRequestId == UINT32_MAX then 0 else nextRequestId + 1;
        assert candidate == Candidate(first, attempts);
        CandidateIsNew(first, attempts);
        assert candidate !in rejected;
        if candidate != 0 {
          var exists_ := Exists(candidate);
          if !exists_ {
            return candidate;
          }
          assert candidate in taken;
        }
        rejected := rejected + {candidate};
        attempts := attempts + 1;
      }
      TakenIsSmall(slots[..], rejected);
      assert false;
    }

    /** A request for a range and for features the context can do and the session
        was created for; anything else is turned away before the table is read. */
    method RequestRegion(request: RegionRequest, capabilities: set<nat>, configured: set<nat>) returns (outcome: Outcome)
      requires Valid() && request.id <= UINT32_MAX
      modifies this, slots
      ensures Valid()
      ensures outcome.InvalidArgument? <==> request.end <= request.first || request.features == {}
      ensures outcome.Unsupported? <==> !outcome.InvalidArgument? && !(request.features <= capabilities)
      ensures outcome.InvalidState? <==>
        !outcome.InvalidArgument? && !outcome.Unsupported? && !(request.features <= configured)
      ensures outcome.InvalidArgument? || outcome.Unsupported? || outcome.InvalidState? ==>
        slots[..] == old(slots[..]) && nextSerial == old(nextSerial) && nextRequestId == old(nextRequestId)
      ensures
        !(outcome.InvalidArgument? || outcome.Unsupported? || outcome.InvalidState?) ==>
          && Registered(
               old(slots[..]), old(nextSerial), slots[..], nextSerial,
               request.id, request.priority, request.deadline, OVERVIEW in request.features, outcome)
    {
      if request.end <= request.first || request.features == {} {
        return InvalidArgument;
      }
      if !(request.features <= capabilities) {
        return Unsupported;
      }
      if !(request.features <= configured) {
        return InvalidState;
      }
      outcome := Register(request.id, request.priority, request.deadline, OVERVIEW in request.features);
    }

    method Register(wantedId: nat, priority: Priority, deadline: nat, wanted: bool) returns (outcome: Outcome)
      requires Valid() && wantedId <= UINT32_MAX
      modifies this, slots
      ensures Valid()
      ensures Registered(
        old(slots[..]), old(nextSerial), slots[..], nextSerial, wantedId, priority, deadline, wanted, outcome)
    {
      if wantedId != 0 {
        var taken := Exists(wantedId);
        if taken {
          return Conflict;
        }
      }
      var slot := 0;
      while slot < slots.Length && slots[slot].id != 0
        invariant 0 <= slot <= slots.Length
        invariant forall i :: 0 <= i < slot ==> slots[i].id != 0
      {
        slot := slot + 1;
      }
      if slot == slots.Length {
        return LimitExceeded;
      }
      var id := wantedId;
      if id == 0 {
        id := AllocateId();
      }
      if nextSerial == UINT64_MAX {
        slots[slot] := EMPTY_SLOT;
        assert slots[..] == old(slots[..]);
        return LimitExceeded;
      }
      nextSerial := nextSerial + 1;
      slots[slot] := Request(id, priority, deadline, wanted, Queued, 0, nextSerial);
      assert slots[..] == old(slots[..])[slot := slots[slot]];
      assert FirstFree(old(slots[..]), slot);
      return Accepted(id);
    }

    method Cancel(id: nat) returns (found: bool)
      requires Valid()
      modifies slots
      ensures Valid()
      ensures found <==> id != 0 && exists i :: 0 <= i < slots.Length && old(slots[i].id) == id
      ensures forall i :: 0 <= i < slots.Length ==>
        slots[i] == if id != 0 && old(slots[i].id) == id then old(slots[i]).(state := Cancelled) else old(slots[i])
    {
      if id == 0 {
        return false;
      }
      for slot := 0 to slots.Length
        invariant forall i :: 0 <= i < slots.Length ==> slots[i] == old(slots[i])
        invariant forall i :: 0 <= i < slot ==> slots[i].id != id
      {
        if slots[slot].id == id {
          slots[slot] := slots[slot].(state := Cancelled);
          return true;
        }
      }
      return false;
    }
  }

  function Candidate(first: nat, k: nat): nat {
    (first + k) % (UINT32_MAX + 1)
  }

  lemma CandidateAdvances(first: nat, k: nat)
    ensures Candidate(first, k) <= UINT32_MAX
    ensures Candidate(first, k + 1) == if Candidate(first, k) == UINT32_MAX then 0 else Candidate(first, k) + 1
  {}

  lemma CandidateIsNew(first: nat, k: nat)
    requires k <= UINT32_MAX
    ensures forall j :: 0 <= j < k ==> Candidate(first, j) != Candidate(first, k)
  {}

  ghost predicate FirstFree(slots: seq<Request>, s: nat) {
    s < |slots| && slots[s].id == 0 && forall i :: 0 <= i < s ==> slots[i].id != 0
  }

  /** The three ends of a registration, told apart: an id already carried, no slot or
      serial left, or the first free slot filled under the wanted or a new id. */
  ghost predicate Registered(
    before: seq<Request>, serial: nat, after: seq<Request>, nextSerial: nat,
    wantedId: nat, priority: Priority, deadline: nat, wanted: bool, outcome: Outcome)
  {
    && (outcome.Accepted? || outcome.Conflict? || outcome.LimitExceeded?)
    && (!outcome.Accepted? ==> after == before && nextSerial == serial)
    && (outcome.Conflict? <==> wantedId != 0 && exists i :: 0 <= i < |before| && before[i].id == wantedId)
    && (outcome.LimitExceeded? <==> !outcome.Conflict? && (serial == 0xFFFF_FFFF_FFFF_FFFF || forall i :: 0 <= i < |before| ==> before[i].id != 0))
    && (outcome.Accepted? ==>
      && nextSerial == serial + 1 && outcome.id != 0 && (wantedId != 0 ==> outcome.id == wantedId)
      && (forall i :: 0 <= i < |before| ==> before[i].id != outcome.id)
      && exists s: nat :: FirstFree(before, s)
           && after == before[s := Request(outcome.id, priority, deadline, wanted, Queued, 0, nextSerial)])
  }

  /** Free slots are blank; occupied ones differ in id and in serial. */
  ghost predicate TableOk(slots: seq<Request>, nextSerial: nat) {
    && (forall i :: 0 <= i < |slots| && slots[i].id == 0 ==> slots[i] == EMPTY_SLOT)
    && (forall i :: 0 <= i < |slots| && slots[i].id != 0 ==> 0 < slots[i].serial <= nextSerial)
    && (forall i, j :: 0 <= i < j < |slots| && slots[i].id != 0 && slots[j].id != 0 ==>
          slots[i].id != slots[j].id && slots[i].serial != slots[j].serial)
  }

  lemma {:induction false} TakenIsSmall(slots: seq<Request>, ids: set<nat>)
    requires ids <= (set i | 0 <= i < |slots| :: slots[i].id) + {0}
    ensures |ids| <= |slots| + 1
    decreases |slots|
  {
    if slots == [] {
      assert ids <= {0};
      if 0 in ids { assert ids == {0}; } else { assert ids == {}; }
    } else {
      var front, last := slots[..|slots| - 1], slots[|slots| - 1].id;
      TakenIsSmall(front, ids - {last});
      if last in ids { assert ids == (ids - {last}) + {last}; } else { assert ids == ids - {last}; }
    }
  }

  /** Every table the operations can produce is a contest, so the waiting bound
      applies to it. */
  lemma TableIsContest(slots: seq<Request>, nextSerial: nat)
    requires TableOk(slots, nextSerial)
    ensures Contest(slots) && |Members(slots)| <= |slots|
  {
    MembersFit(slots);
  }

  lemma {:induction false} MembersFit(slots: seq<Request>)
    ensures |Members(slots)| <= |slots|
  {
    if slots != [] {
      var front := slots[..|slots| - 1];
      MembersFit(front);
      SubsetIsNoLarger(Members(slots), Members(front) + {|slots| - 1});
    }
  }
}
