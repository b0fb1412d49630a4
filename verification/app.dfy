/** The app between commands: every command is one step of the specification, and the invariants always hold. */
module App {
  import opened Octets
  import opened Platforms
  import opened Session
  import opened Loading
  import opened Invariants
  import opened LoadInvariant
  import opened Psbts
  import opened AppSession
  import opened AppSigning
  import opened Machine
  import opened Ledgers
  import opened Runs

  class VaultApp {
    const p: Platform
    const g: Globals
    /** What an observer has seen, and every command so far. */
    ghost var h: History
    ghost var l: Ledger
    ghost var events: seq<Event>

    ghost function Now(): World
      reads this, g
    {
      World(g.State(), h, l)
    }

    /** The app is where its commands have taken it. */
    ghost predicate Valid()
      reads this, g
    {
      g.p == p && Now() == Run(p, events)
    }

    constructor (p: Platform)
      ensures Valid() && fresh(g) && this.p == p && events == []
      ensures Now() == START
    {
      hide Run, Sound;
      RunStart(p);
      this.p := p;
      g := new Globals(p);
      h, l, events := NO_HISTORY, EMPTY_LEDGER, [];
    }

    /** INS DERIVE_CONTEXT_HASH */
    method Derive(p1: Byte, p2: Byte, data: Bytes, env: Env) returns (reply: Reply)
      requires Valid()
      modifies this, g
      ensures Valid()
      ensures events == old(events) + [DeriveCommand(p1, p2, data, env)]
      ensures Sound(p, old(Now())) && Now() == Step(p, old(Now()), DeriveCommand(p1, p2, data, env))
    {
      hide SessionInv, SigningInv, Session.Derive, ObserveDerive, Run;
      ghost var before := Now();
      ghost var event := DeriveCommand(p1, p2, data, env);
      RunStep(p, events, event);
      reply := g.DeriveContextHash(p1, p2, data, env);
      h := ObserveDerive(h, p1, data, reply);
      l := Renew(l, before.d, g.State());
      events := events + [event];
    }

    /** INS APPROVE_VAULT_INTENT */
    method Approve(p1: Byte, p2: Byte, data: Bytes, env: Env) returns (reply: Reply)
      requires Valid()
      modifies this, g
      ensures Valid()
      ensures events == old(events) + [ApproveCommand(p1, p2, data, env)]
      ensures Sound(p, old(Now())) && Now() == Step(p, old(Now()), ApproveCommand(p1, p2, data, env))
    {
      hide SessionInv, StreamInv, SigningInv, Loading.Approve, ObserveApprove, Run;
      ghost var before := Now();
      ghost var event := ApproveCommand(p1, p2, data, env);
      RunStep(p, events, event);
      ApproveAllowed(p, before.d, before.h);
      LoadingHashlocks(p, before.d, before.h);
      reply := g.ApproveVaultIntent(p1, p2, data, env);
      h := ObserveApprove(h, p1, data, reply);
      l := Renew(l, before.d, g.State());
      events := events + [event];
    }

    /** INS SIGN_PSBT. The base app may stop between validation and the custom signer, and the scratch union is left
        in any state. */
    method SignPsbt(t: Psbt, out: Outside) returns (kind: Option<Kind>, release: Release)
      requires Valid()
      modifies this, g
      ensures Valid()
      ensures events == old(events) + [SignCommand(t, out)]
      ensures Sound(p, old(Now())) && Now() == Step(p, old(Now()), SignCommand(t, out))
      ensures FreshRelease(old(l), release) && l == Account(old(l), kind, release)
    {
      hide Sound, Validate, Sign, FreshRelease, Run, Record;
      ghost var before := Now();
      ghost var event := SignCommand(t, out);
      RunStep(p, events, event);
      SoundUsable(p, before);
      SignPsbtKeeps(p, before, t, out);
      ValidateCarries(p, before.d, t, out);
      var streaming := g.streaming.inProgress;
      kind := ValidateAndDisplay(g, t, out);
      release := NoRelease;
      if kind.Some? && out.reachesSigner {
        var ok;
        release, ok := SignCustomInputs(g, t, out);
      }
      if !streaming {
        g.scratch := out.scratch;
      }
      l := Account(l, kind, release);
      events := events + [event];
    }
  }

  lemma RunStart(p: Platform)
    ensures Run(p, []) == START
  {
    hide Sound;
  }

  /** One more command is one more step. */
  lemma RunStep(p: Platform, events: seq<Event>, event: Event)
    ensures Sound(p, Run(p, events)) && Run(p, events + [event]) == Step(p, Run(p, events), event)
  {
    hide Step, Sound;
    assert (events + [event])[..|events + [event]| - 1] == events;
  }

  lemma LoadingHashlocks(p: Platform, d: Device, h: History)
    requires SessionInv(p, d, h)
    ensures d.loader.scalarsLoaded ==> d.ctx.hashlocks == ZERO_HASHES
  {
    hide LoadingOk, Derives, IntentOk, CommitmentsOk, IsLoad;
  }
}
