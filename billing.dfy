/**
 * The credit ledger: an append-only store of signed balance entries, and the
 * billing service that appends to it. A user's available credit is the sum of
 * that user's deltas.
 */
module Billing {
  import opened Wrappers

  /** Kind of a balance change (`ChangeType`). */
  datatype ChangeType = Credit | Reserve | Release | Debit

  /** Why a balance changed (`ChangeReason`). */
  datatype ChangeReason = Deposit | VideoProcessingJob

  /** A point in time; the ledger only ever stores `expiresAt = null`. */
  type Date = int

  /** One row of the balance store (`Balance`). The creation date is not modelled. */
  datatype Entry = Entry(
    id: nat,
    userId: string,
    changeType: ChangeType,
    changeReason: ChangeReason,
    delta: int,
    foreignId: string,
    expiresAt: Option<Date>,
    descriptor: Option<string>)

  /** Sum of the deltas of `user`'s entries (`sumDeltas`, a SQL SUM over that user's rows). */
  function SumDeltas(entries: seq<Entry>, user: string): (r: int)
    ensures (forall k :: 0 <= k < |entries| ==> entries[k].userId != user) ==> r == 0
  {
    if entries == [] then 0
    else (if entries[0].userId == user then entries[0].delta else 0) + SumDeltas(entries[1..], user)
  }

  /** The entries that belong to `user`, in ledger order. */
  function EntriesOf(entries: seq<Entry>, user: string): (r: seq<Entry>)
    ensures forall k :: 0 <= k < |r| ==> r[k].userId == user
    ensures |r| <= |entries|
  {
    if entries == [] then []
    else (if entries[0].userId == user then [entries[0]] else []) + EntriesOf(entries[1..], user)
  }

  /** Sum of all deltas of a list of entries, whoever they belong to. */
  function Total(entries: seq<Entry>): int
  {
    if entries == [] then 0 else entries[0].delta + Total(entries[1..])
  }

  /** The available balance is the total of the user's own entries and of no one else's. */
  lemma {:induction false} SumDeltasIsTotalOfOwnEntries(entries: seq<Entry>, user: string)
    ensures SumDeltas(entries, user) == Total(EntriesOf(entries, user))
  {
    if entries != [] {
      SumDeltasIsTotalOfOwnEntries(entries[1..], user);
      var head := if entries[0].userId == user then [entries[0]] else [];
      TotalConcat(head, EntriesOf(entries[1..], user));
    }
  }

  lemma {:induction false} TotalConcat(a: seq<Entry>, b: seq<Entry>)
    ensures Total(a + b) == Total(a) + Total(b)
  {
    if a != [] {
      assert (a + b)[1..] == a[1..] + b;
      TotalConcat(a[1..], b);
    } else {
      assert a + b == b;
    }
  }

  /** Appending one entry changes only its owner's sum, and by exactly its delta. */
  lemma {:induction false} SumDeltasAppend(entries: seq<Entry>, e: Entry, user: string)
    ensures SumDeltas(entries + [e], user)
         == SumDeltas(entries, user) + (if e.userId == user then e.delta else 0)
  {
    if entries != [] {
      assert (entries + [e])[1..] == entries[1..] + [e];
      SumDeltasAppend(entries[1..], e, user);
    } else {
      assert ([] + [e])[1..] == [];
    }
  }

  /** The sum over a concatenation is the sum of the sums. */
  lemma {:induction false} SumDeltasConcat(a: seq<Entry>, b: seq<Entry>, user: string)
    ensures SumDeltas(a + b, user) == SumDeltas(a, user) + SumDeltas(b, user)
  {
    if a != [] {
      assert (a + b)[1..] == a[1..] + b;
      SumDeltasConcat(a[1..], b, user);
    } else {
      assert a + b == b;
    }
  }

  /** The entry `createEntry` inserts as row number `id`. */
  function NewEntry(id: nat, user: string, delta: int, t: ChangeType, reason: ChangeReason,
                    foreignId: string, descriptor: Option<string>): Entry
  {
    Entry(id, user, t, reason, delta, foreignId, None, descriptor)
  }

  /** A reservation followed by a release of the same amount leaves every user's sum as it was. */
  lemma {:induction false} ReserveReleaseRestores(entries: seq<Entry>, user: string, amount: int, foreignId: string, u: string)
    ensures
      var r := NewEntry(|entries|, user, -amount, Reserve, VideoProcessingJob, foreignId, None);
      var l := NewEntry(|entries| + 1, user, amount, Release, VideoProcessingJob, foreignId, None);
      SumDeltas(entries + [r] + [l], u) == SumDeltas(entries, u)
  {
    var r := NewEntry(|entries|, user, -amount, Reserve, VideoProcessingJob, foreignId, None);
    var l := NewEntry(|entries| + 1, user, amount, Release, VideoProcessingJob, foreignId, None);
    SumDeltasAppend(entries, r, u);
    SumDeltasAppend(entries + [r], l, u);
  }

  /** Reserve, release, then debit of one amount nets to one debit for the user (the settled success path). */
  lemma {:induction false} ReserveReleaseDebitNetsDebit(entries: seq<Entry>, user: string, amount: int, foreignId: string)
    ensures
      var r := NewEntry(|entries|, user, -amount, Reserve, VideoProcessingJob, foreignId, None);
      var l := NewEntry(|entries| + 1, user, amount, Release, VideoProcessingJob, foreignId, None);
      var d := NewEntry(|entries| + 2, user, -amount, Debit, VideoProcessingJob, foreignId, None);
      SumDeltas(entries + [r] + [l] + [d], user) == SumDeltas(entries, user) - amount
  {
    var r := NewEntry(|entries|, user, -amount, Reserve, VideoProcessingJob, foreignId, None);
    var l := NewEntry(|entries| + 1, user, amount, Release, VideoProcessingJob, foreignId, None);
    var d := NewEntry(|entries| + 2, user, -amount, Debit, VideoProcessingJob, foreignId, None);
    SumDeltasAppend(entries, r, user);
    SumDeltasAppend(entries + [r], l, user);
    SumDeltasAppend(entries + [r] + [l], d, user);
  }

  /** One reservation released twice returns the amount to the user a second time. */
  lemma {:induction false} DoubleReleaseOvercredits(entries: seq<Entry>, user: string, amount: int, foreignId: string)
    ensures
      var r := NewEntry(|entries|, user, -amount, Reserve, VideoProcessingJob, foreignId, None);
      var l1 := NewEntry(|entries| + 1, user, amount, Release, VideoProcessingJob, foreignId, None);
      var l2 := NewEntry(|entries| + 2, user, amount, Release, VideoProcessingJob, foreignId, None);
      SumDeltas(entries + [r] + [l1] + [l2], user) == SumDeltas(entries, user) + amount
  {
    var r := NewEntry(|entries|, user, -amount, Reserve, VideoProcessingJob, foreignId, None);
    var l1 := NewEntry(|entries| + 1, user, amount, Release, VideoProcessingJob, foreignId, None);
    var l2 := NewEntry(|entries| + 2, user, amount, Release, VideoProcessingJob, foreignId, None);
    SumDeltasAppend(entries, r, user);
    SumDeltasAppend(entries + [r], l1, user);
    SumDeltasAppend(entries + [r] + [l1], l2, user);
  }

  /** The billing service over its balance store (`BillingService` with `BalanceRepository`). */
  class BillingService {
    /** The balance rows in insertion order; row `k` has id `k`. */
    var entries: seq<Entry>

    ghost predicate Valid()
      reads this
    {
      forall k :: 0 <= k < |entries| ==> entries[k].id == k && entries[k].expiresAt == None
    }

    constructor ()
      ensures Valid() && entries == []
    {
      entries := [];
    }

    /** The user's available balance, recomputed from every entry. */
    function SumFor(user: string): (r: int)
      reads this
      ensures r == Total(EntriesOf(entries, user))
    {
      SumDeltasIsTotalOfOwnEntries(entries, user);
      SumDeltas(entries, user)
    }

    /** `getAvailableCredits`: always succeeds with the sum of the user's deltas. */
    method GetAvailableCredits(user: string) returns (r: Result<int, ()>)
      ensures r == Ok(SumDeltas(entries, user))
      ensures r.Ok? && r.value == Total(EntriesOf(entries, user))
    {
      SumDeltasIsTotalOfOwnEntries(entries, user);
      r := Ok(SumDeltas(entries, user));
    }

    /** `createEntry`: an unconditional insert at the end; earlier rows are untouched. */
    method CreateEntry(user: string, delta: int, t: ChangeType, reason: ChangeReason,
                       foreignId: string, descriptor: Option<string>) returns (id: nat)
      requires Valid()
      modifies this
      ensures Valid()
      ensures id == |old(entries)|
      ensures entries == old(entries) + [NewEntry(id, user, delta, t, reason, foreignId, descriptor)]
      ensures forall u :: SumFor(u) == old(SumFor(u)) + (if u == user then delta else 0)
    {
      id := |entries|;
      var e := NewEntry(id, user, delta, t, reason, foreignId, descriptor);
      forall u ensures SumDeltas(entries + [e], u) == SumDeltas(entries, u) + (if u == user then delta else 0) {
        SumDeltasAppend(entries, e, u);
      }
      entries := entries + [e];
    }

    /** `credit`: appends `+amount` tagged Credit. */
    method Credit(user: string, amount: int, reason: ChangeReason, foreignId: string,
                  descriptor: Option<string>) returns (id: nat)
      requires Valid()
      modifies this
      ensures Valid() && id == |old(entries)|
      ensures entries == old(entries) + [NewEntry(id, user, amount, ChangeType.Credit, reason, foreignId, descriptor)]
      ensures forall u :: SumFor(u) == old(SumFor(u)) + (if u == user then amount else 0)
    {
      id := CreateEntry(user, amount, ChangeType.Credit, reason, foreignId, descriptor);
    }

    /** `reserve`: appends `-amount` tagged Reserve, without looking at the balance. */
    method Reserve(user: string, amount: int, reason: ChangeReason, foreignId: string) returns (id: nat)
      requires Valid()
      modifies this
      ensures Valid() && id == |old(entries)|
      ensures entries == old(entries) + [NewEntry(id, user, -amount, ChangeType.Reserve, reason, foreignId, None)]
      ensures forall u :: SumFor(u) == old(SumFor(u)) - (if u == user then amount else 0)
    {
      id := CreateEntry(user, -amount, ChangeType.Reserve, reason, foreignId, None);
    }

    /** `release`: appends `+amount` tagged Release. */
    method Release(user: string, amount: int, reason: ChangeReason, foreignId: string) returns (id: nat)
      requires Valid()
      modifies this
      ensures Valid() && id == |old(entries)|
      ensures entries == old(entries) + [NewEntry(id, user, amount, ChangeType.Release, reason, foreignId, None)]
      ensures forall u :: SumFor(u) == old(SumFor(u)) + (if u == user then amount else 0)
    {
      id := CreateEntry(user, amount, ChangeType.Release, reason, foreignId, None);
    }

    /** `debit`: appends `-amount` tagged Debit; no reservation is inspected or consumed. */
    method Debit(user: string, amount: int, reason: ChangeReason, foreignId: string,
                 descriptor: Option<string>) returns (id: nat)
      requires Valid()
      modifies this
      ensures Valid() && id == |old(entries)|
      ensures entries == old(entries) + [NewEntry(id, user, -amount, ChangeType.Debit, reason, foreignId, descriptor)]
      ensures forall u :: SumFor(u) == old(SumFor(u)) - (if u == user then amount else 0)
    {
      id := CreateEntry(user, -amount, ChangeType.Debit, reason, foreignId, descriptor);
    }
  }
}
