/** The Pre-PegIn: HTLC outputs first, then at most an auth anchor, a CPFP anchor and a change output. */
module PrePegIn {
  import opened Octets
  import opened Intents
  import opened Platforms
  import opened Script
  import opened Taproot
  import opened Psbts
  import opened PegIn
  import opened Session

  // ---------------------------------------------------------------------------------------------
  // HTLC outputs

  /** The HTLC value check in wrapping arithmetic; unlike the PegIn's, it also refuses a wrapping upper bound. */
  predicate HtlcValueOk(grp: Group, value: U64) {
    var sum := Wrap64(grp.amount + grp.claimValue);
    && sum >= grp.amount
    && var low := Wrap64(sum + P2A_VALUE);
       && low >= P2A_VALUE
       && var high := Wrap64(low + grp.pegInMaxFee);
          high >= low && low <= value <= high
  }

  /** Whatever HTLC value is accepted here passes the PegIn check of the same group. The converse
      holds exactly when the upper bound itself fits in 64 bits. */
  lemma HtlcValuePassesPegIn(grp: Group, value: U64)
    ensures HtlcValueOk(grp, value) <==>
            PegInValueOk(grp, value) && grp.amount + grp.claimValue + P2A_VALUE + grp.pegInMaxFee <= U64_MAX
  {
  }

  predicate HtlcOutputOk(p: Platform, i: Intent, hashlocks: HashArray, t: Psbt, g: nat)
    requires i.InRange() && g < i.V()
  {
    && i.groups[g].htlcVout as nat < |t.outputs|
    && var out := ReadOutput(t, i.groups[g].htlcVout as nat);
       && out.Some? && HtlcSpk(p, i, g, hashlocks[g]) == Some(out.value.0)
       && HtlcValueOk(i.groups[g], out.value.1)
  }

  predicate HtlcOutputsOk(p: Platform, i: Intent, hashlocks: HashArray, t: Psbt)
    requires i.InRange()
  {
    forall g :: 0 <= g < i.V() ==> HtlcOutputOk(p, i, hashlocks, t, g)
  }

  /** _validate_prepegin_htlc_outputs */
  method ValidateHtlcOutputs(p: Platform, i: Intent, hashlocks: HashArray, t: Psbt) returns (ok: bool)
    requires i.InRange()
    ensures ok <==> HtlcOutputsOk(p, i, hashlocks, t)
  {
    hide HtlcSpk;
    for g := 0 to i.V()
      invariant forall k :: 0 <= k < g ==> HtlcOutputOk(p, i, hashlocks, t, k)
    {
      var vout := i.groups[g].htlcVout as nat;
      if vout >= |t.outputs| {
        assert !HtlcOutputOk(p, i, hashlocks, t, g);
        return false;
      }
      var out := ReadOutput(t, vout);
      if out.None? {
        assert !HtlcOutputOk(p, i, hashlocks, t, g);
        return false;
      }
      var expected := HtlcSpk(p, i, g, hashlocks[g]);
      if expected.None? || out.value.0 != expected.value {
        assert !HtlcOutputOk(p, i, hashlocks, t, g);
        return false;
      }
      var minHtlc := Wrap64(i.groups[g].amount + i.groups[g].claimValue);
      if minHtlc < i.groups[g].amount {
        assert !HtlcOutputOk(p, i, hashlocks, t, g);
        return false;
      }
      minHtlc := Wrap64(minHtlc + P2A_VALUE);
      if minHtlc < P2A_VALUE {
        assert !HtlcOutputOk(p, i, hashlocks, t, g);
        return false;
      }
      var maxHtlc := Wrap64(minHtlc + i.groups[g].pegInMaxFee);
      if maxHtlc < minHtlc || out.value.1 < minHtlc || out.value.1 > maxHtlc {
        assert !HtlcOutputOk(p, i, hashlocks, t, g);
        return false;
      }
    }
    return true;
  }

  // ---------------------------------------------------------------------------------------------
  // The other outputs

  /** _bip86_p2tr_spk */
  function Bip86Spk(p: Platform, key: Bytes32): (spk: Option<Bytes>)
    ensures spk.Some? ==> |spk.value| == 34 && spk.value[0] == OP_1
  {
    var out := p.tweak(key, []);
    if out.None? then None else Some(P2tr(out.value.1))
  }

  function AuthAnchorSpk(hash: Bytes32): (spk: Bytes)
    ensures |spk| == 34 && spk[0] == OP_RETURN
  {
    [OP_RETURN, OP_PUSHBYTES_32] + hash
  }

  datatype Seen = Seen(auth: bool, anchor: bool, change: bool)

  /** prepegin_depositor_output_accept */
  function DepositorOutputAccept(seen: Seen, value: U64, changeAllowed: bool): Option<Seen> {
    if seen.change && !seen.anchor then None
    else if value == DUST_LIMIT then
      if seen.anchor then None else Some(seen.(anchor := true))
    else if value > DUST_LIMIT then
      if !changeAllowed || !seen.anchor || seen.change then None else Some(seen.(change := true))
    else None
  }

  /** prepegin_change_path_ok */
  predicate ChangePathOk(path: Path, coinType: U32, purpose: U32, account: U32) {
    && CheckBip86Path(path, coinType) && purpose == 86 && account < HARDENED
    && path[2] == account + HARDENED && path[3] == 0 && path[4] == 0
  }

  predicate IsHtlcOutput(i: Intent, k: nat)
    requires i.InRange()
  {
    exists g :: 0 <= g < i.V() && i.groups[g].htlcVout as nat == k
  }

  /** What the loop needs to know besides the transaction. */
  datatype OutputPolicy = OutputPolicy(authSpk: Bytes, depositorSpk: Bytes, changeAllowed: bool)

  /** One output: skipped if it is an HTLC, otherwise classified. */
  function OutputStep(i: Intent, policy: OutputPolicy, t: Psbt, k: nat, seen: Seen): Option<Seen>
    requires i.InRange() && k < |t.outputs|
  {
    if IsHtlcOutput(i, k) then Some(seen)
    else if k in t.internalOutputs || k <= i.groups[i.V() - 1].htlcVout as nat then None
    else
      var out := ReadOutput(t, k);
      if out.None? then None
      else if out.value.1 == 0 && out.value.0 == policy.authSpk then
        if seen.auth then None else Some(seen.(auth := true))
      else if out.value.0 == policy.depositorSpk then DepositorOutputAccept(seen, out.value.1, policy.changeAllowed)
      else None
  }

  function OutputsFrom(i: Intent, policy: OutputPolicy, t: Psbt, k: nat, seen: Seen): Option<Seen>
    requires i.InRange() && k <= |t.outputs|
    decreases |t.outputs| - k
  {
    if k == |t.outputs| then Some(seen)
    else
      var next := OutputStep(i, policy, t, k, seen);
      if next.None? then None else OutputsFrom(i, policy, t, k + 1, next.value)
  }

  const NOTHING_SEEN := Seen(false, false, false)

  predicate OutputsOk(i: Intent, policy: OutputPolicy, t: Psbt)
    requires i.InRange()
  {
    OutputsFrom(i, policy, t, 0, NOTHING_SEEN).Some?
  }

  /** _validate_prepegin_outputs */
  method ValidateOutputs(i: Intent, policy: OutputPolicy, t: Psbt) returns (ok: bool)
    requires i.InRange()
    ensures ok <==> OutputsOk(i, policy, t)
  {
    hide ReadOutput, DepositorOutputAccept;
    var seen := NOTHING_SEEN;
    var maxHtlc := i.groups[i.V() - 1].htlcVout as nat;
    for k := 0 to |t.outputs|
      invariant OutputsFrom(i, policy, t, 0, NOTHING_SEEN) == OutputsFrom(i, policy, t, k, seen)
    {
      var isHtlc := false;
      for g := 0 to i.V()
        invariant isHtlc <==> exists j :: 0 <= j < g && i.groups[j].htlcVout as nat == k
      {
        if i.groups[g].htlcVout as nat == k {
          isHtlc := true;
          break;
        }
      }
      if isHtlc {
        continue;
      }
      if k in t.internalOutputs || k <= maxHtlc {
        return false;
      }
      var out := ReadOutput(t, k);
      if out.None? {
        return false;
      }
      if out.value.1 == 0 && out.value.0 == policy.authSpk {
        if seen.auth {
          return false;
        }
        seen := seen.(auth := true);
      } else if out.value.0 == policy.depositorSpk {
        var next := DepositorOutputAccept(seen, out.value.1, policy.changeAllowed);
        if next.None? {
          return false;
        }
        seen := next.value;
      } else {
        return false;
      }
    }
    return true;
  }

  // ---------------------------------------------------------------------------------------------
  // The shape of an accepted Pre-PegIn

  predicate VoutsAscending(i: Intent)
    requires i.InRange()
  {
    forall j, k :: 0 <= j < k < i.V() ==> i.groups[j].htlcVout < i.groups[k].htlcVout
  }

  lemma {:induction false} OutputsSteps(i: Intent, policy: OutputPolicy, t: Psbt, k: nat, seen: Seen, m: nat) returns (at: Seen)
    requires i.InRange() && k <= m < |t.outputs| && OutputsFrom(i, policy, t, k, seen).Some?
    ensures OutputStep(i, policy, t, m, at).Some?
    ensures OutputsFrom(i, policy, t, m, at) == OutputsFrom(i, policy, t, k, seen)
    decreases m - k
  {
    if k == m {
      at := seen;
    } else {
      at := OutputsSteps(i, policy, t, k + 1, OutputStep(i, policy, t, k, seen).value, m);
    }
  }

  /** Every index up to the last HTLC must be an HTLC, so group g sits at output g. */
  lemma {:induction false} HtlcsComeFirst(i: Intent, policy: OutputPolicy, t: Psbt, g: nat)
    requires i.InRange() && VoutsAscending(i) && OutputsOk(i, policy, t) && g < i.V()
    requires i.groups[i.V() - 1].htlcVout as nat < |t.outputs|
    ensures forall j :: 0 <= j <= g ==> i.groups[j].htlcVout as nat == j
  {
    hide ReadOutput, DepositorOutputAccept, OutputsFrom;
    if g > 0 {
      HtlcsComeFirst(i, policy, t, g - 1);
      assert i.groups[g - 1].htlcVout < i.groups[g].htlcVout;
    }
    assert g <= i.groups[g].htlcVout as nat <= i.groups[i.V() - 1].htlcVout as nat;
    var at := OutputsSteps(i, policy, t, 0, NOTHING_SEEN, g);
    assert IsHtlcOutput(i, g);
    var j :| 0 <= j < i.V() && i.groups[j].htlcVout as nat == g;
    assert j >= g;
    assert i.groups[g].htlcVout <= i.groups[j].htlcVout;
  }

  datatype OutputKind = Auth | Anchor | Change | Other

  /** What an output beyond the HTLCs is. */
  function KindOf(policy: OutputPolicy, t: Psbt, k: nat): OutputKind {
    var out := ReadOutput(t, k);
    if out.None? then Other
    else if out.value.1 == 0 && out.value.0 == policy.authSpk then Auth
    else if out.value.0 == policy.depositorSpk && out.value.1 == DUST_LIMIT then Anchor
    else if out.value.0 == policy.depositorSpk && out.value.1 > DUST_LIMIT then Change
    else Other
  }

  /** The flags say which kinds have occurred among outputs a..k. */
  ghost predicate Tracks(policy: OutputPolicy, t: Psbt, a: nat, k: nat, seen: Seen) {
    && (seen.auth <==> exists j :: a <= j < k && KindOf(policy, t, j) == Auth)
    && (seen.anchor <==> exists j :: a <= j < k && KindOf(policy, t, j) == Anchor)
    && (seen.change <==> exists j :: a <= j < k && KindOf(policy, t, j) == Change)
  }

  /** Outputs a..k are each of a different allowed kind, and change follows the anchor. */
  ghost predicate TailOk(policy: OutputPolicy, t: Psbt, a: nat, k: nat) {
    && (forall j :: a <= j < k ==> KindOf(policy, t, j) != Other)
    && (forall j, m :: a <= j < m < k ==> KindOf(policy, t, j) != KindOf(policy, t, m))
    && (forall j :: a <= j < k && KindOf(policy, t, j) == Change ==>
          policy.changeAllowed && exists m :: a <= m < j && KindOf(policy, t, m) == Anchor)
  }

  lemma TailStep(i: Intent, policy: OutputPolicy, t: Psbt, k: nat, seen: Seen)
    requires i.InRange() && i.V() <= k < |t.outputs| && !IsHtlcOutput(i, k)
    requires Tracks(policy, t, i.V(), k, seen) && TailOk(policy, t, i.V(), k)
    requires OutputStep(i, policy, t, k, seen).Some?
    ensures Tracks(policy, t, i.V(), k + 1, OutputStep(i, policy, t, k, seen).value)
    ensures TailOk(policy, t, i.V(), k + 1)
  {
    hide IsHtlcOutput;
    var kind := KindOf(policy, t, k);
    var next := OutputStep(i, policy, t, k, seen).value;
    assert next == match kind
                   case Auth => seen.(auth := true)
                   case Anchor => seen.(anchor := true)
                   case Change => seen.(change := true)
                   case Other => next;
    assert kind != Other;
    hide KindOf, OutputStep;
  }

  lemma {:induction false} TailFrom(i: Intent, policy: OutputPolicy, t: Psbt, k: nat, seen: Seen)
    requires i.InRange() && i.V() <= k <= |t.outputs|
    requires forall j :: i.V() <= j < |t.outputs| ==> !IsHtlcOutput(i, j)
    requires Tracks(policy, t, i.V(), k, seen) && TailOk(policy, t, i.V(), k)
    requires OutputsFrom(i, policy, t, k, seen).Some?
    ensures TailOk(policy, t, i.V(), |t.outputs|)
    decreases |t.outputs| - k
  {
    hide KindOf, IsHtlcOutput, Tracks, TailOk, OutputStep;
    if k < |t.outputs| {
      TailStep(i, policy, t, k, seen);
      TailFrom(i, policy, t, k + 1, OutputStep(i, policy, t, k, seen).value);
    }
  }

  lemma {:induction false} SkipHtlcs(i: Intent, policy: OutputPolicy, t: Psbt, k: nat)
    requires i.InRange() && k <= i.V() <= |t.outputs|
    requires forall j :: 0 <= j < i.V() ==> IsHtlcOutput(i, j)
    ensures OutputsFrom(i, policy, t, k, NOTHING_SEEN) == OutputsFrom(i, policy, t, i.V(), NOTHING_SEEN)
    decreases i.V() - k
  {
    hide IsHtlcOutput, ReadOutput, DepositorOutputAccept;
    if k < i.V() {
      SkipHtlcs(i, policy, t, k + 1);
    }
  }

  /** An accepted Pre-PegIn starts with the HTLCs in group order, then carries at most three outputs:
      one auth anchor, one CPFP anchor and, after that anchor, one change output. */
  lemma AcceptedShape(p: Platform, i: Intent, hashlocks: HashArray, policy: OutputPolicy, t: Psbt)
    requires i.InRange() && VoutsAscending(i) && HtlcOutputsOk(p, i, hashlocks, t) && OutputsOk(i, policy, t)
    ensures forall g :: 0 <= g < i.V() ==> i.groups[g].htlcVout as nat == g
    ensures i.V() <= |t.outputs| <= i.V() + 3
    ensures TailOk(policy, t, i.V(), |t.outputs|)
  {
    hide HtlcSpk, ReadOutput, OutputStep, OutputsFrom, HtlcValueOk, KindOf;
    var last := i.V() - 1;
    assert HtlcOutputOk(p, i, hashlocks, t, last);
    HtlcsComeFirst(i, policy, t, last);
    forall j | 0 <= j < i.V() ensures IsHtlcOutput(i, j) {
      assert i.groups[j].htlcVout as nat == j;
    }
    SkipHtlcs(i, policy, t, 0);
    TailFrom(i, policy, t, i.V(), NOTHING_SEEN);
    if |t.outputs| > i.V() + 3 {
      var v := i.V();
      FourKinds(KindOf(policy, t, v), KindOf(policy, t, v + 1), KindOf(policy, t, v + 2), KindOf(policy, t, v + 3));
      assert false;
    }
  }

  lemma FourKinds(a: OutputKind, b: OutputKind, c: OutputKind, d: OutputKind)
    ensures a == Other || b == Other || c == Other || d == Other ||
            a == b || a == c || a == d || b == c || b == d || c == d
  {
  }
}
