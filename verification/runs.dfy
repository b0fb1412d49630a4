/** Whole runs: any interleaving of derive, approve and sign commands, from boot. */
module Runs {
  import opened Octets
  import opened Bits
  import opened Intents
  import opened Platforms
  import opened Session
  import Tlv
  import opened Loading
  import opened LoadingLemmas
  import opened Invariants
  import opened LoadInvariant
  import opened LoadTheorems
  import opened Psbts
  import opened PegIn
  import opened PrePegIn
  import opened Deposit
  import opened Payout
  import opened NoPayout
  import opened Standalone
  import opened Machine
  import opened MachineTheorems
  import opened Ledgers

  datatype Event =
    | DeriveCommand(p1: Byte, p2: Byte, data: Bytes, env: Env)
    | ApproveCommand(p1: Byte, p2: Byte, data: Bytes, env: Env)
    | SignCommand(t: Psbt, out: Outside)

  datatype World = World(d: Device, h: History, l: Ledger)

  const START := World(BOOT, NO_HISTORY, EMPTY_LEDGER)

  ghost predicate Sound(p: Platform, w: World) {
    Inv(p, w.d, w.h) && SigningInv(w.d, w.l)
  }

  /** Sign may have used the scratch union for anything, unless it stopped at the streaming check. */
  function Clobber(before: Device, after: Device, scratch: Scratch): Device {
    if before.streaming.inProgress then after else after.(scratch := scratch)
  }

  lemma SoundUsable(p: Platform, w: World)
    requires Sound(p, w)
    ensures Usable(w.d) && CountersRoom(w.d)
  {
    hide GroupsOk, KeysOk, DepositorUnique, CommitmentsOk, IsLoad, Records, StreamInv, LoadingOk, Derives;
    if Loaded(w.d) {
      RoomInCounters(w.d, w.l);
    }
  }

  /** A complete SIGN_PSBT: validate, let the base app sign its own inputs, then the vault input. */
  function SignPsbt(p: Platform, d: Device, t: Psbt, out: Outside): (r: (Device, Option<Kind>, Release))
    requires Usable(d) && CountersRoom(d)
  {
    ValidateCarries(p, d, t, out);
    var (e, kind) := Validate(p, d, t, out);
    if kind.None? || !out.reachesSigner then
      (Clobber(d, e, out.scratch), kind, NoRelease)
    else
      var (f, release, _) := Sign(p, e, t, out);
      (Clobber(d, f, out.scratch), kind, release)
  }

  /** The ledger after a SIGN_PSBT. */
  function Account(l: Ledger, kind: Option<Kind>, release: Release): Ledger {
    Record(if kind == Some(PrePegInTx) then l.(prePegIns := l.prePegIns + 1) else l, release)
  }

  /** A new approval starts a new ledger. */
  function Renew(l: Ledger, before: Device, after: Device): Ledger {
    if Loaded(after) && !Loaded(before) then Ledger(after.intent, [], [], [], 0) else l
  }

  ghost function Step(p: Platform, w: World, ev: Event): World
    requires Sound(p, w)
  {
    SoundUsable(p, w);
    match ev
    case DeriveCommand(p1, p2, data, env) =>
      var (d, reply) := Derive(p, w.d, p1, p2, data, env);
      World(d, ObserveDerive(w.h, p1, data, reply), Renew(w.l, w.d, d))
    case ApproveCommand(p1, p2, data, env) =>
      ApproveAllowed(p, w.d, w.h);
      var (d, reply) := Approve(p, w.d, p1, p2, data, env);
      World(d, ObserveApprove(w.h, p1, data, reply), Renew(w.l, w.d, d))
    case SignCommand(t, out) =>
      var (d, kind, release) := SignPsbt(p, w.d, t, out);
      World(d, w.h, Account(w.l, kind, release))
  }

  // ---------------------------------------------------------------------------------------------
  // SIGN_PSBT keeps the session invariant

  /** The session has been invalidated. */
  predicate Reset(d: Device) {
    d.ctx == ZERO_CONTEXT && d.intent == ZERO_INTENT && d.loader == ZERO_LOADER
  }

  /** Only fields of the signing flows may differ. */
  predicate SigningFrame(d: Device, e: Device) {
    e == d.(ctx := d.ctx.(
      payoutIndex := e.ctx.payoutIndex, groupIndex := e.ctx.groupIndex, noPayoutChallenger := e.ctx.noPayoutChallenger,
      isPayoutSigning := e.ctx.isPayoutSigning, prePegInSigned := e.ctx.prePegInSigned, pegInSigned := e.ctx.pegInSigned,
      payoutSigned := e.ctx.payoutSigned, noPayoutSigned := e.ctx.noPayoutSigned,
      payoutMask := e.ctx.payoutMask, pegInMask := e.ctx.pegInMask))
  }

  lemma FrameKeeps(p: Platform, d: Device, e: Device, h: History)
    requires SessionInv(p, d, h) && Loaded(d) && SigningFrame(d, e)
    ensures SessionInv(p, e, h)
  {
    hide GroupsOk, KeysOk, DepositorUnique, IsLoad, Derives;
    var root: Bytes32 :| Derives(p, h, root) && root != ZERO32
      && d.ctx.hashlocks == AllHashlocks(p, root, d.intent)
      && d.ctx.authAnchor == AuthAnchor(p, root)
      && d.ctx.contextFp == Fingerprint(p, root);
  }

  /** Validation books nothing but a Pre-PegIn. */
  predicate NothingBooked(d: Device, e: Device, kind: Option<Kind>) {
    && e.ctx.payoutMask == d.ctx.payoutMask && e.ctx.pegInMask == d.ctx.pegInMask
    && e.ctx.payoutSigned == d.ctx.payoutSigned && e.ctx.pegInSigned == d.ctx.pegInSigned
    && e.ctx.noPayoutSigned == d.ctx.noPayoutSigned
    && (if kind == Some(PrePegInTx) then d.ctx.prePegInSigned == 0 && e.ctx.prePegInSigned == 1
        else e.ctx.prePegInSigned == d.ctx.prePegInSigned)
  }

  /** What the signer may rely on for the accepted kind. */
  predicate SlotFree(e: Device, kind: Kind)
    requires Usable(e)
  {
    match kind
    case PegInTransaction =>
      Loaded(e) && e.ctx.groupIndex as nat < e.intent.V() && !BitAt(e.ctx.pegInMask, e.ctx.groupIndex as nat)
    case PayoutTx =>
      && Loaded(e) && e.ctx.groupIndex as nat < e.intent.V() && e.ctx.payoutIndex as nat <= e.intent.N() + 1
      && !BitAt(e.ctx.payoutMask, Slot(e.intent, e.ctx.groupIndex as nat, e.ctx.payoutIndex as nat))
    case NoPayoutTx =>
      && Loaded(e) && e.ctx.noPayoutChallenger as nat < e.intent.N() + e.intent.M()
      && e.ctx.noPayoutSigned < NoPayoutCap(e.intent)
    case PrePegInTx => Loaded(e)
    case _ => true
  }

  /** One validator's outcome on a loaded session. */
  predicate Outcome(d: Device, e: Device, kind: Option<Kind>) {
    || (Reset(e) && kind.None? && e.streaming == d.streaming)
    || (SigningFrame(d, e) && NothingBooked(d, e, kind) && Usable(e) && (kind.Some? ==> SlotFree(e, kind.value)))
  }

  lemma PegInOutcome(p: Platform, d: Device, t: Psbt)
    requires Usable(d) && Loaded(d)
    ensures Outcome(d, ValidatePegIn(p, d, t).0, Checked(ValidatePegIn(p, d, t), PegInTransaction).1)
  {
    hide PegInFieldsOk, PegInGroup, BitAt;
  }

  lemma PayoutOutcome(p: Platform, d: Device, t: Psbt)
    requires Usable(d) && Loaded(d)
    ensures Outcome(d, ValidatePayout(p, d, t).0, Checked(ValidatePayout(p, d, t), PayoutTx).1)
  {
    hide Detect, FieldsOk, BitAt, Slot;
  }

  lemma NoPayoutOutcome(p: Platform, d: Device, t: Psbt)
    requires Usable(d) && Loaded(d)
    ensures Outcome(d, ValidateNoPayout(p, d, t).0, Checked(ValidateNoPayout(p, d, t), NoPayoutTx).1)
  {
    hide LeafOf, DetectChallenger, NoPayoutFieldsOk;
  }

  lemma PrePegInOutcome(p: Platform, d: Device, t: Psbt)
    requires Usable(d) && Loaded(d)
    ensures Outcome(d, ValidatePrePegIn(p, d, t).0, Checked(ValidatePrePegIn(p, d, t), PrePegInTx).1)
  {
    hide PrePegInFieldsOk;
  }

  lemma FinalizeOutcome(p: Platform, d: Device, t: Psbt, out: Outside)
    requires Usable(d) && Loaded(d)
    ensures Outcome(d, ValidateFinalize(p, d, t, out).0, ValidateFinalize(p, d, t, out).1)
  {
    hide FinalizeOk;
  }

  lemma RestOutcome(p: Platform, d: Device, t: Psbt, out: Outside)
    requires Usable(d) && Loaded(d)
    ensures Outcome(d, ValidateRest(p, d, t, out).0, ValidateRest(p, d, t, out).1)
  {
    hide ValidatePrePegIn, ValidateFinalize, ValidateLeaf, WcOk, Outcome;
    if !t.noWalletPolicy && 0 in t.internalInputs {
      PrePegInOutcome(p, d, t);
    } else if t.noWalletPolicy && Shape(t, 2, 2) {
      FinalizeOutcome(p, d, t, out);
    } else {
      UntouchedOutcome(d, ValidateRest(p, d, t, out).1);
    }
  }

  lemma UntouchedOutcome(d: Device, kind: Option<Kind>)
    requires Usable(d) && (kind.Some? ==> BranchOf(kind.value) == SignStandalone || kind.value == PoPTx)
    ensures Outcome(d, d, kind)
  {
  }

  lemma LoadedOutcome(p: Platform, d: Device, t: Psbt, out: Outside)
    requires Usable(d) && Loaded(d) && !d.streaming.inProgress
    ensures Outcome(d, Validate(p, d, t, out).0, Validate(p, d, t, out).1)
  {
    hide ValidatePegIn, ValidateNoPayout, ValidatePayout, ValidateRest, TwoInputKind, Outcome, PoPOk;
    if t.version != 0 && t.noWalletPolicy && Shape(t, 1, 3) {
      PegInOutcome(p, d, t);
    } else if t.version != 0 && t.noWalletPolicy && Shape(t, 3, 1) {
      NoPayoutOutcome(p, d, t);
    } else if t.version == 0 {
      UntouchedOutcome(d, Validate(p, d, t, out).1);
    } else {
      match TwoInputKind(p, d, t)
      case IsPayout => PayoutOutcome(p, d, t);
      case Malformed => UntouchedOutcome(d, None);
      case NotPayout => RestOutcome(p, d, t, out);
    }
  }

  /** Without a loaded intent, validation changes nothing but an interrupted stream, and accepts no kind that is counted. */
  lemma UnloadedOutcome(p: Platform, d: Device, h: History, t: Psbt, out: Outside)
    requires Inv(p, d, h) && !Loaded(d)
    ensures Usable(d)
    ensures Validate(p, d, t, out).0 == d.(streaming := if d.streaming.inProgress then ZERO_STREAMING else d.streaming)
    ensures Validate(p, d, t, out).1.Some? ==>
              !d.streaming.inProgress &&
              BranchOf(Validate(p, d, t, out).1.value) in {SkipPoP, SignFinalize, SignStandalone}
  {
    hide ValidateLeaf, FinalizeOk, WcOk, PoPOk, GroupByTxid, LoadingOk, Derives, Buffered;
  }

  lemma ResetKeeps(p: Platform, d: Device, e: Device, h: History, l: Ledger)
    requires StreamInv(d, h) && Loaded(d) && LedgerOk(l) && Reset(e) && e.streaming == d.streaming
    ensures Inv(p, e, h) && SigningInv(e, l) && Usable(e) && !Loaded(e)
  {
    hide LedgerOk;
  }

  lemma NothingBookedKeeps(d: Device, e: Device, l: Ledger, kind: Option<Kind>)
    requires SigningInv(d, l) && Loaded(d) && SigningFrame(d, e) && NothingBooked(d, e, kind)
    ensures SigningInv(e, Account(l, kind, NoRelease))
  {
    hide SlotsOf, Slots, ValidPairs;
  }

  lemma StreamingIrrelevant(p: Platform, d: Device, e: Device, h: History, l: Ledger)
    requires Inv(p, d, h) && SigningInv(d, l) && !Loaded(d)
    requires e == d.(streaming := if d.streaming.inProgress then ZERO_STREAMING else d.streaming)
    ensures Inv(p, e, h) && SigningInv(e, l)
  {
    hide LedgerOk, LoadingOk, Derives, Buffered;
  }

  lemma NoCountedKind(l: Ledger, kind: Option<Kind>)
    requires kind.Some? ==> BranchOf(kind.value) in {SkipPoP, SignFinalize, SignStandalone}
    ensures Account(l, kind, NoRelease) == l
    ensures kind.Some? ==> kind.value !in {PegInTransaction, PayoutTx, NoPayoutTx, PrePegInTx}
  {
  }

  /** Validation alone keeps both invariants; a counted kind it accepts has a free slot. */
  lemma ValidateKeeps(p: Platform, w: World, t: Psbt, out: Outside)
    requires Sound(p, w)
    ensures Usable(w.d)
    ensures var (e, kind) := Validate(p, w.d, t, out);
            && Usable(e) && Sound(p, World(e, w.h, Account(w.l, kind, NoRelease)))
            && (kind.Some? ==> SlotFree(e, kind.value) && !w.d.streaming.inProgress && !e.streaming.inProgress)
            && (Loaded(e) <==> Loaded(w.d) && !Reset(e))
  {
    hide Validate, SessionInv, LedgerOk, Buffered, BitAt, SlotsOf, ValidPairs;
    SoundUsable(p, w);
    var (e, kind) := Validate(p, w.d, t, out);
    if Loaded(w.d) {
      LoadedOutcome(p, w.d, t, out);
      if Reset(e) {
        ResetKeeps(p, w.d, e, w.h, w.l);
      } else {
        FrameKeeps(p, w.d, e, w.h);
        NothingBookedKeeps(w.d, e, w.l, kind);
      }
    } else {
      UnloadedOutcome(p, w.d, w.h, t, out);
      StreamingIrrelevant(p, w.d, e, w.h, w.l);
      NoCountedKind(w.l, kind);
    }
  }

  // ---------------------------------------------------------------------------------------------
  // The signer

  /** What booking leaves is sound with the release recorded, and the release is new. */
  ghost predicate BooksSoundly(p: Platform, w: World, kind: Kind)
    requires Usable(w.d) && SlotFree(w.d, kind) && CountersRoom(w.d)
    requires BranchOf(kind) in {SignPegIn, SignPayout, SignNoPayout}
  {
    var (after, r) := Book(w.d, BranchOf(kind));
    Sound(p, World(after, w.h, Record(w.l, r))) && FreshRelease(w.l, r) && LedgerOk(Record(w.l, r))
  }

  /** Booking keeps the session invariant and records exactly what is handed out. */
  lemma BookKeeps(p: Platform, w: World, kind: Kind)
    requires Sound(p, w) && Usable(w.d) && SlotFree(w.d, kind) && CountersRoom(w.d)
    requires BranchOf(kind) in {SignPegIn, SignPayout, SignNoPayout}
    ensures BooksSoundly(p, w, kind)
  {
    hide SessionInv, Buffered, BitAt, Slot, SigningInv, LedgerOk, Record, FreshRelease, NoPayoutCap, SetBit;
    var (after, r) := Book(w.d, BranchOf(kind));
    assert SigningFrame(w.d, after);
    FrameKeeps(p, w.d, after, w.h);
    match BranchOf(kind) {
      case SignPegIn => RecordPegIn(w.d, w.l);
      case SignPayout => RecordPayout(w.d, w.l);
      case SignNoPayout => RecordNoPayout(w.d, w.l);
    }
    LedgerPart(after, Record(w.l, r));
  }

  lemma LedgerPart(d: Device, l: Ledger)
    requires SigningInv(d, l)
    ensures LedgerOk(l)
  {
    hide LedgerOk;
  }

  lemma InvalidateKeeps(p: Platform, d: Device, h: History, l: Ledger)
    requires StreamInv(d, h) && !d.streaming.inProgress && LedgerOk(l)
    ensures Inv(p, Invalidate(d), h) && SigningInv(Invalidate(d), l)
  {
    hide LedgerOk;
  }

  /** Whatever happens while signing, both invariants hold again and nothing is handed out twice. */
  lemma SignKeeps(p: Platform, w: World, t: Psbt, out: Outside, kind: Kind)
    requires Sound(p, w) && Usable(w.d) && SlotFree(w.d, kind) && CountersRoom(w.d) && !w.d.streaming.inProgress
    requires Route(w.d, t) == BranchOf(kind)
    ensures var (after, r, ok) := Sign(p, w.d, t, out);
            && Sound(p, World(after, w.h, Record(w.l, r))) && FreshRelease(w.l, r)
            && !after.streaming.inProgress
  {
    hide Rechecks, SessionInv, SigningInv, Buffered, LedgerOk, Route, Book, BitAt, Slot, NoPayoutCap;
    var b := BranchOf(kind);
    LedgerPart(w.d, w.l);
    InvalidateKeeps(p, w.d, w.h, w.l);
    if b in {SignPegIn, SignPayout, SignNoPayout} {
      BookKeeps(p, w, kind);
      var (booked, r) := Book(w.d, b);
      BookStreams(w.d, kind);
      InvalidateKeeps(p, booked, w.h, Record(w.l, r));
    } else {
      NothingToBook(w.d, kind);
    }
  }

  lemma BookStreams(d: Device, kind: Kind)
    requires Usable(d) && SlotFree(d, kind) && CountersRoom(d)
    ensures Book(d, BranchOf(kind)).0.streaming == d.streaming
  {
    hide Slot, SetBit, BitAt;
  }

  lemma NothingToBook(d: Device, kind: Kind)
    requires Usable(d) && BranchOf(kind) !in {SignPegIn, SignPayout, SignNoPayout}
    ensures Book(d, BranchOf(kind)) == (d, NoRelease)
  {
  }

  lemma ClobberKeeps(p: Platform, before: Device, w: World, scratch: Scratch)
    requires Sound(p, w) && (before.streaming.inProgress || !w.d.streaming.inProgress)
    ensures Sound(p, World(Clobber(before, w.d, scratch), w.h, w.l))
  {
    hide LedgerOk, Records, LoadingOk, Derives, GroupsOk, KeysOk, IsLoad, DepositorUnique;
    var d := w.d;
    var e := d.(scratch := scratch);
    if Loaded(d) {
      FrameScratch(p, d, e, w.h);
    } else if d.ctx.state == HashDerived {
      LoadingScratch(p, d, e, w.h);
    }
  }

  lemma FrameScratch(p: Platform, d: Device, e: Device, h: History)
    requires SessionInv(p, d, h) && Loaded(d) && e == d.(scratch := e.scratch)
    ensures SessionInv(p, e, h)
  {
    hide GroupsOk, KeysOk, DepositorUnique, IsLoad, CommitmentsOk, Derives;
    CommitmentsScratch(p, d, e, h);
  }

  lemma CommitmentsScratch(p: Platform, d: Device, e: Device, h: History)
    requires d.intent.V() <= MAX_VAULTS && CommitmentsOk(p, d, h) && e == d.(scratch := e.scratch)
    ensures CommitmentsOk(p, e, h)
  {
    hide Derives;
  }

  lemma LoadingScratch(p: Platform, d: Device, e: Device, h: History)
    requires SessionInv(p, d, h) && d.ctx.state == HashDerived && e == d.(scratch := e.scratch)
    ensures SessionInv(p, e, h)
  {
    hide GroupsOk, KeysOk, IsLoad, Derives;
  }

  /** A complete SIGN_PSBT keeps both invariants, and hands out no PegIn or Payout signature a second time. */
  lemma SignPsbtKeeps(p: Platform, w: World, t: Psbt, out: Outside)
    requires Sound(p, w)
    ensures Usable(w.d) && CountersRoom(w.d)
    ensures var (after, kind, r) := SignPsbt(p, w.d, t, out);
            && Sound(p, World(after, w.h, Account(w.l, kind, r)))
            && FreshRelease(w.l, r)
  {
    hide Sound, Validate, Sign, Clobber, SlotFree, Route, FreshRelease, Rechecks;
    SoundUsable(p, w);
    ValidateCarries(p, w.d, t, out);
    ValidateKeeps(p, w, t, out);
    var (e, kind) := Validate(p, w.d, t, out);
    var mid := World(e, w.h, Account(w.l, kind, NoRelease));
    if kind.None? || !out.reachesSigner {
      ClobberAfterValidate(p, w, mid, t, out);
      NoReleaseFresh(w.l);
    } else {
      SignerFollowsValidator(p, w.d, t, out);
      SignKeeps(p, mid, t, out, kind.value);
      var (f, r, _) := Sign(p, e, t, out);
      ClobberKeeps(p, w.d, World(f, w.h, Record(mid.l, r)), out.scratch);
      FreshBefore(w.l, kind, r);
    }
  }

  lemma ClobberAfterValidate(p: Platform, w: World, mid: World, t: Psbt, out: Outside)
    requires Sound(p, w) && Usable(w.d) && Sound(p, mid) && mid.d == Validate(p, w.d, t, out).0
    ensures Sound(p, World(Clobber(w.d, mid.d, out.scratch), mid.h, mid.l))
  {
    hide Validate, Sound;
    if !w.d.streaming.inProgress {
      ValidateStreams(p, w.d, t, out);
    }
    ClobberKeeps(p, w.d, mid, out.scratch);
  }

  lemma ValidateStreams(p: Platform, d: Device, t: Psbt, out: Outside)
    requires Usable(d) && !d.streaming.inProgress
    ensures Validate(p, d, t, out).0.streaming == d.streaming
  {
    hide PegInFieldsOk, PegInGroup, BitAt, Slot, Detect, FieldsOk, LeafOf, DetectChallenger, NoPayoutFieldsOk,
         PrePegInFieldsOk, ValidateLeaf, FinalizeOk, WcOk, PoPOk, TwoInputKind;
  }

  lemma NoReleaseFresh(l: Ledger)
    ensures FreshRelease(l, NoRelease)
  {
  }

  lemma FreshBefore(l: Ledger, kind: Option<Kind>, r: Release)
    requires FreshRelease(Account(l, kind, NoRelease), r)
    ensures FreshRelease(l, r) && Record(Account(l, kind, NoRelease), r) == Account(l, kind, r)
  {
  }

  // ---------------------------------------------------------------------------------------------
  // The other commands leave the signing state alone

  lemma DeriveLedger(p: Platform, w: World, p1: Byte, p2: Byte, data: Bytes, env: Env)
    requires Sound(p, w)
    ensures var (after, _) := Derive(p, w.d, p1, p2, data, env);
            SigningInv(after, Renew(w.l, w.d, after))
  {
    hide SessionInv, Records, LedgerOk, ParseInitial, Buffered;
    var (after, _) := Derive(p, w.d, p1, p2, data, env);
    assert Loaded(after) ==> after == w.d;
  }

  lemma ApproveLedger(p: Platform, w: World, p1: Byte, p2: Byte, data: Bytes, env: Env)
    requires Sound(p, w)
    requires w.d.loader.scalarsLoaded ==>
               && w.d.intent.InRange() && w.d.ctx.groupIndex as nat <= w.d.intent.V()
               && w.d.loader.keysReceived as nat <= w.d.intent.N() + w.d.intent.M()
    ensures var (after, _) := Approve(p, w.d, p1, p2, data, env);
            SigningInv(after, Renew(w.l, w.d, after))
  {
    hide StreamInv, Records, LedgerOk, LoadingOk, Derives, IntentOk, CommitmentsOk, IsLoad, GroupLoop, KeyLoop, Tlv.Parse;
    var (after, _) := Approve(p, w.d, p1, p2, data, env);
    if Loaded(w.d) {
      assert after == w.d;
    } else if Loaded(after) {
      assert p1 == 2;
      KeyBatchLoads(p, w.d, w.h, data, env);
      FreshLedger(after);
    }
  }

  /** A load that completes starts with empty masks and zero counters. */
  lemma KeyBatchLoads(p: Platform, d: Device, h: History, data: Bytes, env: Env)
    requires SessionInv(p, d, h) && !Loaded(d)
    requires d.loader.scalarsLoaded ==>
               d.intent.InRange() && d.loader.keysReceived as nat <= d.intent.N() + d.intent.M()
    ensures var after := KeyBatch(p, d, data, env).0;
            Loaded(after) ==>
              && after.intent.InRange()
              && after.ctx.payoutMask == ZERO_PAYOUT_MASK && after.ctx.pegInMask == ZERO_PEGIN_MASK
              && after.ctx.payoutSigned == 0 && after.ctx.pegInSigned == 0 && after.ctx.noPayoutSigned == 0
              && after.ctx.prePegInSigned == 0
  {
    hide LoadingOk, Derives, KeyLoop, AllHashlocks, DepositorUnique;
  }

  lemma FreshLedger(d: Device)
    requires d.intent.InRange()
    requires d.ctx.payoutMask == ZERO_PAYOUT_MASK && d.ctx.pegInMask == ZERO_PEGIN_MASK
    requires d.ctx.payoutSigned == 0 && d.ctx.pegInSigned == 0 && d.ctx.noPayoutSigned == 0 && d.ctx.prePegInSigned == 0
    ensures SigningInv(d, Ledger(d.intent, [], [], [], 0))
  {
    hide BitAt;
    SlotsZeros(PAYOUT_MASK_BYTES);
    SlotsZeros(PEGIN_MASK_BYTES);
  }

  // ---------------------------------------------------------------------------------------------
  // Runs

  lemma StepKeeps(p: Platform, w: World, ev: Event)
    requires Sound(p, w)
    ensures Sound(p, Step(p, w, ev))
  {
    hide Inv, SigningInv, Derive, Approve, SignPsbt, ObserveDerive, ObserveApprove;
    match ev
    case DeriveCommand(p1, p2, data, env) =>
      DeriveKeeps(p, w.d, w.h, p1, p2, data, env);
      DeriveLedger(p, w, p1, p2, data, env);
    case ApproveCommand(p1, p2, data, env) =>
      ApproveAllowed(p, w.d, w.h);
      ApproveKeeps(p, w.d, w.h, p1, p2, data, env);
      ApproveLedger(p, w, p1, p2, data, env);
    case SignCommand(t, out) =>
      SignPsbtKeeps(p, w, t, out);
  }

  lemma StartSound(p: Platform)
    ensures Sound(p, START)
  {
    BootInv(p);
  }

  /** The world after a sequence of commands from boot. */
  ghost function Run(p: Platform, events: seq<Event>): (w: World)
    ensures Sound(p, w)
  {
    hide Sound, Step;
    if events == [] then
      StartSound(p);
      START
    else
      var before := Run(p, events[..|events| - 1]);
      StepKeeps(p, before, events[|events| - 1]);
      Step(p, before, events[|events| - 1])
  }

  /** Idle means everything is zero, streaming that the accepted chunks and nothing else are in the buffer, loaded everything
      the signer takes for granted about the intent, its keys and its commitments. */
  ghost predicate Guaranteed(p: Platform, w: World) {
    && (w.d.ctx.state == Idle ==> w.d.ctx == ZERO_CONTEXT && w.d.intent == ZERO_INTENT && w.d.loader == ZERO_LOADER)
    && (w.d.streaming.inProgress ==>
          && w.d.ctx.state == Idle && !w.d.loader.scalarsLoaded
          && w.d.streaming.received < w.d.streaming.total <= CONTEXT_MAX_LEN && Buffered(w.d, w.h))
    && (Loaded(w.d) ==>
          && ValidScalars(w.d.intent.scalars, p.coinType)
          && VoutsAscending(w.d.intent)
          && (forall g :: 0 <= g < w.d.intent.V() ==> ValidGroup(w.d.intent.groups[g]))
          && RolesDisjoint(w.d.intent)
          && w.d.ctx.path == w.d.intent.scalars.path && CheckBip86Path(w.d.ctx.path, p.coinType)
          && CommitmentsOk(p, w.d, w.h) && w.d.ctx.root == ZERO32)
  }

  /** After any commands in any order. */
  lemma EveryRunGuarantees(p: Platform, events: seq<Event>)
    ensures Guaranteed(p, Run(p, events))
  {
    hide Run, SigningInv, ValidGroup, CommitmentsOk, RolesDisjoint, LoadedOk, CheckBip86Path;
    var w := Run(p, events);
    if Loaded(w.d) {
      LoadedGuarantees(p, w.d, w.h);
    }
  }

  /** Under one approval, in any run: no (group, claimer) Payout and no PegIn group is signed twice, all four
      counts respect their caps, and masks and counters agree with what was signed. */
  lemma EveryRunSignsOnce(p: Platform, events: seq<Event>)
    ensures var w := Run(p, events);
            && NoDuplicates(w.l.payouts) && NoDuplicates(w.l.pegIns) && w.l.prePegIns <= 1
            && |w.l.payouts| <= PayoutCap(w.l.intent) && |w.l.pegIns| <= w.l.intent.V()
            && |w.l.noPayouts| <= NoPayoutCap(w.l.intent)
            && (Loaded(w.d) ==> Records(w.d.ctx, w.d.intent, w.l))
  {
    hide Run, Inv, Records, ValidPairs;
    var w := Run(p, events);
  }

  /** Every signature of a run is new to its approval. */
  lemma EveryStepFresh(p: Platform, events: seq<Event>, t: Psbt, out: Outside)
    ensures var w := Run(p, events);
            && Usable(w.d) && CountersRoom(w.d)
            && FreshRelease(w.l, SignPsbt(p, w.d, t, out).2)
  {
    hide Run, Sound, SignPsbt, FreshRelease;
    SignPsbtKeeps(p, Run(p, events), t, out);
  }

  // ---------------------------------------------------------------------------------------------
  // What is signed is what was detected

  /** The signature an accepted transaction of this kind stands for. */
  function Named(p: Platform, d: Device, t: Psbt, kind: Kind): Release
    requires Usable(d)
  {
    match kind
    case PegInTransaction =>
      if !Loaded(d) || PegInGroup(d.intent, t).None? then NoRelease else PegInOf(PegInGroup(d.intent, t).value)
    case PayoutTx =>
      if !Loaded(d) || Detect(p, d.intent, t).None? then NoRelease
      else PayoutOf(Detect(p, d.intent, t).value.g, Detect(p, d.intent, t).value.c)
    case NoPayoutTx =>
      if !Loaded(d) || |t.inputs| != 3 then NoRelease
      else
        var leaf := LeafOf(true, d.intent, t.inputs[0]);
        if leaf.None? || leaf.value.1.buffered.None? then NoRelease
        else
          var j := DetectChallenger(d.intent, leaf.value.1.buffered.value);
          if j.None? then NoRelease else NoPayoutOf(j.value)
    case _ => NoRelease
  }

  lemma PegInNames(p: Platform, d: Device, t: Psbt)
    requires Usable(d) && ValidatePegIn(p, d, t).1
    ensures Named(p, d, t, PegInTransaction) == PegInOf(ValidatePegIn(p, d, t).0.ctx.groupIndex as nat)
  {
    hide PegInFieldsOk, PegInGroup, BitAt;
  }

  lemma PayoutNames(p: Platform, d: Device, t: Psbt)
    requires Usable(d) && ValidatePayout(p, d, t).1
    ensures var e := ValidatePayout(p, d, t).0;
            Named(p, d, t, PayoutTx) == PayoutOf(e.ctx.groupIndex as nat, e.ctx.payoutIndex as nat)
  {
    hide Detect, FieldsOk, BitAt, Slot;
  }

  lemma NoPayoutNames(p: Platform, d: Device, t: Psbt)
    requires Usable(d) && ValidateNoPayout(p, d, t).1
    ensures Named(p, d, t, NoPayoutTx) == NoPayoutOf(ValidateNoPayout(p, d, t).0.ctx.noPayoutChallenger as nat)
  {
    hide LeafOf, DetectChallenger, NoPayoutFieldsOk;
  }

  lemma BookNames(d: Device, b: Branch)
    requires Usable(d) && CountersRoom(d)
    requires b in {SignPegIn, SignPayout} ==> Loaded(d) && d.ctx.groupIndex as nat < d.intent.V()
    requires b == SignPayout ==> d.ctx.payoutIndex as nat <= d.intent.N() + 1
    ensures Book(d, b).1 == match b
                            case SignPegIn => PegInOf(d.ctx.groupIndex as nat)
                            case SignPayout => PayoutOf(d.ctx.groupIndex as nat, d.ctx.payoutIndex as nat)
                            case SignNoPayout => NoPayoutOf(d.ctx.noPayoutChallenger as nat)
                            case _ => NoRelease
  {
    hide Slot, SetBit;
  }

  lemma KindNames(p: Platform, d: Device, t: Psbt, out: Outside)
    requires Usable(d) && Validate(p, d, t, out).1.Some?
    ensures Usable(Validate(p, d, t, out).0)
    ensures var (e, kind) := Validate(p, d, t, out);
            Named(p, d, t, kind.value) ==
            match BranchOf(kind.value)
            case SignPegIn => PegInOf(e.ctx.groupIndex as nat)
            case SignPayout => PayoutOf(e.ctx.groupIndex as nat, e.ctx.payoutIndex as nat)
            case SignNoPayout => NoPayoutOf(e.ctx.noPayoutChallenger as nat)
            case _ => NoRelease
  {
    hide ValidatePegIn, ValidateNoPayout, ValidatePayout, ValidatePrePegIn, ValidateLeaf, FinalizeOk, WcOk, TwoInputKind, PoPOk,
         Detect, PegInGroup, DetectChallenger, LeafOf;
    ValidateCarries(p, d, t, out);
    match Validate(p, d, t, out).1.value {
      case PegInTransaction => PegInNames(p, d, t);
      case PayoutTx => PayoutNames(p, d, t);
      case NoPayoutTx => NoPayoutNames(p, d, t);
      case _ =>
    }
  }

  /** The slot burnt by an accepted transaction is the one its bytes name, whether or not the delivery succeeds. */
  lemma SignedIsDetected(p: Platform, d: Device, t: Psbt, out: Outside)
    requires Usable(d) && CountersRoom(d) && Validate(p, d, t, out).1.Some? && out.reachesSigner && out.prepared
    ensures var (_, kind, release) := SignPsbt(p, d, t, out);
            kind == Validate(p, d, t, out).1 && release == Named(p, d, t, kind.value)
  {
    hide Validate, Named, Route, Book, Rechecks, Clobber;
    ValidateCarries(p, d, t, out);
    KindNames(p, d, t, out);
    SignerFollowsValidator(p, d, t, out);
    AcceptedIsSigned(p, d, t, out);
    var (e, kind) := Validate(p, d, t, out);
    RecheckedIndices(p, e, t, BranchOf(kind.value));
    BookNames(e, BranchOf(kind.value));
  }

  lemma RecheckedIndices(p: Platform, d: Device, t: Psbt, b: Branch)
    requires Usable(d) && Rechecks(p, d, t, b)
    ensures b in {SignPegIn, SignPayout} ==> Loaded(d) && d.ctx.groupIndex as nat < d.intent.V()
    ensures b == SignPayout ==> d.ctx.payoutIndex as nat <= d.intent.N() + 1
  {
  }
}
