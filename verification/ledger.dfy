/** What has been signed under the current approval, and how the session's masks and counters record it. */
module Ledgers {
  import opened Bits
  import opened Intents
  import opened Session
  import opened Payout
  import opened NoPayout
  import opened Machine

  /** Signatures handed to the host since the last approval, in order, and the intent approved then. */
  datatype Ledger = Ledger(
    intent: Intent,
    payouts: seq<(nat, nat)>,
    pegIns: seq<nat>,
    noPayouts: seq<nat>,
    prePegIns: nat)

  const EMPTY_LEDGER := Ledger(ZERO_INTENT, [], [], [], 0)

  predicate NoDuplicates<T(==)>(s: seq<T>) {
    forall j, k :: 0 <= j < k < |s| ==> s[j] != s[k]
  }

  predicate ValidPairs(i: Intent, ps: seq<(nat, nat)>) {
    i.InRange() && forall k :: 0 <= k < |ps| ==> ps[k].0 < i.V() && ps[k].1 <= i.N() + 1
  }

  function SlotsOf(i: Intent, ps: seq<(nat, nat)>): (slots: seq<nat>)
    requires ValidPairs(i, ps)
    ensures |slots| == |ps|
  {
    seq(|ps|, k requires 0 <= k < |ps| => Slot(i, ps[k].0, ps[k].1))
  }

  function Elements(s: seq<nat>): set<nat> {
    set x | x in s
  }

  // ---------------------------------------------------------------------------------------------
  // Counting

  lemma {:induction false} DistinctCount(s: seq<nat>)
    requires NoDuplicates(s)
    ensures |Elements(s)| == |s|
  {
    if s != [] {
      var front, last := s[..|s| - 1], s[|s| - 1];
      DistinctCount(front);
      assert s == front + [last];
      assert Elements(s) == Elements(front) + {last};
      assert last !in Elements(front);
    }
  }

  lemma {:induction false} BelowCount(s: set<nat>, n: nat)
    requires forall x :: x in s ==> x < n
    ensures |s| <= n
  {
    if n == 0 {
      assert s == {};
    } else {
      BelowCount(s - {n - 1}, n - 1);
      assert s <= (s - {n - 1}) + {n - 1};
      if n - 1 !in s {
        assert s - {n - 1} == s;
      }
    }
  }

  /** If one slot below n is not taken, fewer than n are. */
  lemma RoomLeft(s: seq<nat>, slot: nat, n: nat)
    requires NoDuplicates(s) && (forall x :: x in s ==> x < n) && slot < n && slot !in s
    ensures |s| < n
  {
    DistinctCount(s);
    var taken := Elements(s) + {slot};
    BelowCount(taken, n);
    assert |taken| == |s| + 1;
  }

  lemma DistinctSlots(i: Intent, ps: seq<(nat, nat)>)
    requires ValidPairs(i, ps) && NoDuplicates(ps)
    ensures NoDuplicates(SlotsOf(i, ps))
    ensures forall x :: x in SlotsOf(i, ps) ==> x < PayoutCap(i)
  {
    hide Slot;
    var slots := SlotsOf(i, ps);
    forall j, k | 0 <= j < k < |ps| ensures slots[j] != slots[k] {
      SlotDecodes(i, ps[j].0, ps[j].1);
      SlotDecodes(i, ps[k].0, ps[k].1);
      assert ps[j] != ps[k];
    }
  }

  // ---------------------------------------------------------------------------------------------
  // The invariant

  /** No signature twice, and every cap of the approved intent respected. */
  predicate LedgerOk(l: Ledger) {
    || l == EMPTY_LEDGER
    || (&& l.intent.InRange()
        && ValidPairs(l.intent, l.payouts) && NoDuplicates(l.payouts) && |l.payouts| <= PayoutCap(l.intent)
        && (forall g :: g in l.pegIns ==> g < l.intent.V()) && NoDuplicates(l.pegIns) && |l.pegIns| <= l.intent.V()
        && (forall j :: j in l.noPayouts ==> j < l.intent.N() + l.intent.M()) && |l.noPayouts| <= NoPayoutCap(l.intent)
        && l.prePegIns <= 1)
  }

  /** While the intent is loaded, masks and counters say exactly what the ledger says. */
  predicate Records(c: Context, i: Intent, l: Ledger) {
    && i.InRange() && l.intent == i && ValidPairs(i, l.payouts)
    && Slots(c.payoutMask) == Elements(SlotsOf(i, l.payouts)) && c.payoutSigned == |l.payouts|
    && Slots(c.pegInMask) == Elements(l.pegIns) && c.pegInSigned == |l.pegIns|
    && c.noPayoutSigned == |l.noPayouts|
    && c.prePegInSigned == l.prePegIns
  }

  predicate SigningInv(d: Device, l: Ledger) {
    LedgerOk(l) && (Loaded(d) ==> Records(d.ctx, d.intent, l))
  }

  lemma CapsSmall(i: Intent)
    requires i.InRange()
    ensures PayoutCap(i) <= 340 && NoPayoutCap(i) <= 640
  {
    MulMono(i.V(), 10, i.N() + 2);
    MulMono(i.V(), 10, i.N() + i.M());
  }

  /** The counters never come near their width. */
  lemma RoomInCounters(d: Device, l: Ledger)
    requires SigningInv(d, l) && Loaded(d)
    ensures CountersRoom(d)
  {
    CapsSmall(d.intent);
  }

  /** The invariant leaves nothing for the flat Payout cap to catch: while any slot is unset it cannot fire. */
  lemma FlatPayoutCapIdle(d: Device, l: Ledger, g: nat, c: nat)
    requires SigningInv(d, l) && Loaded(d) && g < d.intent.V() && c <= d.intent.N() + 1
    requires !BitAt(d.ctx.payoutMask, Slot(d.intent, g, c))
    ensures d.ctx.payoutSigned < PayoutCap(d.intent)
  {
    hide Slot;
    DistinctSlots(d.intent, l.payouts);
    var slots := SlotsOf(d.intent, l.payouts);
    var slot := Slot(d.intent, g, c);
    assert slot !in Elements(slots);
    RoomLeft(slots, slot, PayoutCap(d.intent));
  }

  /** The same for the PegIn count. */
  lemma PegInCapIdle(d: Device, l: Ledger, g: nat)
    requires SigningInv(d, l) && Loaded(d) && g < d.intent.V() && !BitAt(d.ctx.pegInMask, g)
    ensures d.ctx.pegInSigned < d.intent.V()
  {
    assert g !in Elements(l.pegIns);
    RoomLeft(l.pegIns, g, d.intent.V());
  }

  // ---------------------------------------------------------------------------------------------
  // Recording a signature

  function Record(l: Ledger, r: Release): Ledger {
    match r
    case NoRelease => l
    case PegInOf(g) => l.(pegIns := l.pegIns + [g])
    case PayoutOf(g, c) => l.(payouts := l.payouts + [(g, c)])
    case NoPayoutOf(j) => l.(noPayouts := l.noPayouts + [j])
  }

  /** Not signed before under this approval; NoPayouts carry no group, so only their number is bounded. */
  predicate FreshRelease(l: Ledger, r: Release) {
    match r
    case PegInOf(g) => g !in l.pegIns
    case PayoutOf(g, c) => (g, c) !in l.payouts
    case _ => true
  }

  lemma RecordPegIn(d: Device, l: Ledger)
    requires SigningInv(d, l) && Loaded(d) && Usable(d)
    requires d.ctx.groupIndex as nat < d.intent.V() && !BitAt(d.ctx.pegInMask, d.ctx.groupIndex as nat)
    ensures CountersRoom(d)
    ensures var (after, r) := Book(d, SignPegIn);
            FreshRelease(l, r) && SigningInv(after, Record(l, r))
  {
    hide ValidPairs, SlotsOf, BitAt, SetBit;
    RoomInCounters(d, l);
    var g := d.ctx.groupIndex as nat;
    PegInCapIdle(d, l, g);
    assert g !in Elements(l.pegIns);
    SlotsSetBit(d.ctx.pegInMask, g);
    assert Elements(l.pegIns + [g]) == Elements(l.pegIns) + {g};
  }

  lemma RecordPayout(d: Device, l: Ledger)
    requires SigningInv(d, l) && Loaded(d) && Usable(d)
    requires d.ctx.groupIndex as nat < d.intent.V() && d.ctx.payoutIndex as nat <= d.intent.N() + 1
    requires !BitAt(d.ctx.payoutMask, Slot(d.intent, d.ctx.groupIndex as nat, d.ctx.payoutIndex as nat))
    ensures CountersRoom(d)
    ensures var (after, r) := Book(d, SignPayout);
            FreshRelease(l, r) && SigningInv(after, Record(l, r))
  {
    hide BitAt, SetBit, Slot;
    RoomInCounters(d, l);
    var g, c := d.ctx.groupIndex as nat, d.ctx.payoutIndex as nat;
    var slot := Slot(d.intent, g, c);
    FlatPayoutCapIdle(d, l, g, c);
    assert slot !in Elements(SlotsOf(d.intent, l.payouts));
    NewPair(d.intent, l.payouts, g, c);
    SlotsSetBit(d.ctx.payoutMask, slot);
  }

  lemma NewPair(i: Intent, ps: seq<(nat, nat)>, g: nat, c: nat)
    requires ValidPairs(i, ps) && g < i.V() && c <= i.N() + 1
    requires Slot(i, g, c) !in Elements(SlotsOf(i, ps))
    ensures (g, c) !in ps && ValidPairs(i, ps + [(g, c)])
    ensures Elements(SlotsOf(i, ps + [(g, c)])) == Elements(SlotsOf(i, ps)) + {Slot(i, g, c)}
  {
    hide Slot;
    forall k | 0 <= k < |ps| ensures Slot(i, ps[k].0, ps[k].1) in Elements(SlotsOf(i, ps)) {
      assert SlotsOf(i, ps)[k] == Slot(i, ps[k].0, ps[k].1);
    }
    assert SlotsOf(i, ps + [(g, c)]) == SlotsOf(i, ps) + [Slot(i, g, c)];
  }

  lemma RecordNoPayout(d: Device, l: Ledger)
    requires SigningInv(d, l) && Loaded(d) && Usable(d)
    requires d.ctx.noPayoutChallenger as nat < d.intent.N() + d.intent.M() && d.ctx.noPayoutSigned < NoPayoutCap(d.intent)
    ensures CountersRoom(d)
    ensures var (after, r) := Book(d, SignNoPayout);
            FreshRelease(l, r) && SigningInv(after, Record(l, r))
  {
    hide ValidPairs, SlotsOf, NoPayoutCap;
    RoomInCounters(d, l);
  }
}
