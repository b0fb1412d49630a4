/** What the commitments of a loaded session are made of, byte by byte. */
module Commitments {
  import opened Octets
  import opened Intents
  import opened Platforms
  import opened Session
  import opened Loading
  import opened Invariants
  import opened PrePegIn
  import opened Machine
  import opened Runs
  import LoadingLemmas

  /** "babylonbtcvault", len "hashlock", "hashlock", len ctx, the output index on four bytes, block counter */
  function HashlockInfo(vout: Byte): Bytes {
    Ascii("babylonbtcvault") + [8] + Ascii("hashlock") + [0, 4] + BE(vout as nat, 4) + [1]
  }

  /** The same for "auth-anchor" with an empty context. */
  function AnchorInfo(): Bytes {
    Ascii("babylonbtcvault") + [11] + Ascii("auth-anchor") + [0, 0] + [1]
  }

  /** Every group's hashlock and the auth anchor are hashes of expansions of one root under these infos. */
  predicate CommitsTo(p: Platform, d: Device, root: Bytes32)
    requires d.intent.V() <= MAX_VAULTS
  {
    && (forall g :: 0 <= g < d.intent.V() ==>
          d.ctx.hashlocks[g] == p.sha256(p.expand(root, HashlockInfo(d.intent.groups[g].htlcVout))))
    && d.ctx.authAnchor == p.sha256(p.expand(root, AnchorInfo()))
  }

  /** No two groups share an info, and none has the anchor's. */
  predicate InfosDistinct(i: Intent)
    requires i.V() <= MAX_VAULTS
  {
    && (forall j, k :: 0 <= j < k < i.V() ==> HashlockInfo(i.groups[j].htlcVout) != HashlockInfo(i.groups[k].htlcVout))
    && (forall g :: 0 <= g < i.V() ==> HashlockInfo(i.groups[g].htlcVout) != AnchorInfo())
  }

  lemma OneByte(v: Byte)
    ensures BE(v as nat, 4) == [0, 0, 0, v]
  {
    hide BE;
    BESplits(v as nat, 4);
    BESplits(0, 3);
    TwoBytes(0);
  }

  lemma TwoBytes(v: Byte)
    ensures BE(v as nat, 2) == [0, v]
  {
    BESplits(v as nat, 2);
    BESplits(0, 1);
    assert BE(0, 0) == [];
  }

  lemma HashlockIs(p: Platform, root: Bytes32, vout: Byte)
    ensures Hashlock(p, root, vout) == p.sha256(p.expand(root, HashlockInfo(vout)))
  {
    hide BE;
    OneByte(vout);
    TwoBytes(4);
    assert HashlockInfo(vout) == ExpandInfo(Ascii("hashlock"), [0, 0, 0, vout]);
  }

  lemma AnchorIs(p: Platform, root: Bytes32)
    ensures AuthAnchor(p, root) == p.sha256(p.expand(root, AnchorInfo()))
  {
    hide BE;
    TwoBytes(0);
    assert AnchorInfo() == ExpandInfo(Ascii("auth-anchor"), []);
  }

  lemma InfosDiffer(a: Byte, b: Byte)
    ensures a != b ==> HashlockInfo(a) != HashlockInfo(b)
    ensures HashlockInfo(a) != AnchorInfo()
  {
    hide BE, Ascii;
    OneByte(a);
    OneByte(b);
    assert HashlockInfo(a)[29] == a && HashlockInfo(b)[29] == b;
    assert HashlockInfo(a)[15] == 8 && AnchorInfo()[15] == 11;
  }

  lemma AscendingInfos(i: Intent)
    requires i.InRange() && VoutsAscending(i)
    ensures InfosDistinct(i)
  {
    hide HashlockInfo, AnchorInfo;
    forall j, k | 0 <= j < k < i.V() ensures HashlockInfo(i.groups[j].htlcVout) != HashlockInfo(i.groups[k].htlcVout) {
      InfosDiffer(i.groups[j].htlcVout, i.groups[k].htlcVout);
    }
    forall g | 0 <= g < i.V() ensures HashlockInfo(i.groups[g].htlcVout) != AnchorInfo() {
      InfosDiffer(i.groups[g].htlcVout, i.groups[g].htlcVout);
    }
  }

  /** The root that HKDF gave for the observed derivation is behind every commitment, under pairwise different infos, and
      behind the context fingerprint. */
  ghost predicate Committed(p: Platform, w: World) {
    && w.d.intent.InRange() && InfosDistinct(w.d.intent)
    && exists root: Bytes32 ::
         && Derives(p, w.h, root) && root != ZERO32
         && CommitsTo(p, w.d, root)
         && w.d.ctx.contextFp == p.sha256(root)[28..32]
  }

  /** In any run, a loaded session is committed to one derived root. */
  lemma EveryRunCommits(p: Platform, events: seq<Event>)
    ensures var w := Run(p, events); Loaded(w.d) ==> Committed(p, w)
  {
    hide Run, Sound, CommitmentsOk, Committed, InfosDistinct, ValidGroup, LoadingLemmas.RolesDisjoint, CheckBip86Path,
         VoutsAscending;
    EveryRunGuarantees(p, events);
    var w := Run(p, events);
    if Loaded(w.d) {
      AscendingInfos(w.d.intent);
      LoadedCommits(p, w);
    }
  }

  lemma LoadedCommits(p: Platform, w: World)
    requires w.d.intent.InRange() && InfosDistinct(w.d.intent) && CommitmentsOk(p, w.d, w.h)
    ensures Committed(p, w)
  {
    hide Derives, InfosDistinct, Hashlock, AuthAnchor, HashlockInfo, AnchorInfo;
    var root: Bytes32 :| Derives(p, w.h, root) && root != ZERO32
      && w.d.ctx.hashlocks == AllHashlocks(p, root, w.d.intent)
      && w.d.ctx.authAnchor == AuthAnchor(p, root)
      && w.d.ctx.contextFp == Fingerprint(p, root);
    AnchorIs(p, root);
    forall g | 0 <= g < w.d.intent.V()
      ensures w.d.ctx.hashlocks[g] == p.sha256(p.expand(root, HashlockInfo(w.d.intent.groups[g].htlcVout)))
    {
      HashlockIs(p, root, w.d.intent.groups[g].htlcVout);
    }
    assert CommitsTo(p, w.d, root);
  }
}
