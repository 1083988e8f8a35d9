/** What connections that gateway A did not open can get ingested, and under whose name. */
module Strangers {
  import opened Basics
  import opened Envelope
  import opened Gates
  import opened HandlerProperties
  import opened Exchange
  import opened System
  import InboundPep
  import P = Pipeline

  /**
   * `document` is what a peer presenting the sender's pinned and unrevoked certificate sent, in bytes that
   * verify under the sender's key and that the policy allows.
   */
  ghost predicate Authentic(g: Gateway, peer: string, e: TransactionEnvelope, document: StixDocument) {
    && e.senderId in g.trust.agencies
    && var agency := g.trust.agencies[e.senderId];
    && agency.tlsCertificateFingerprint == Some(peer) && peer !in g.trust.revoked
    && agency.payloadSigningPublicKeyFingerprint.Some?
    && agency.payloadSigningPublicKeyFingerprint.value !in g.trust.revoked
    && agency.payloadSigningPublicKeyPath.Some?
    && g.verify(e.stixBundleCompressed, e.signature, agency.payloadSigningPublicKeyPath.value)
    && InboundPep.Evaluate(g.rules, e.senderId, e.recipientId, TlpText(e.tlpMarking)).ExplicitAllow?
    && BundleOf(g, e) == Some(document)
  }

  lemma GatesAuthenticate(g: Gateway, peer: string, e: TransactionEnvelope, document: StixDocument)
    requires forall gate: Gate :: EnvelopePasses(g, peer, e, gate)
    requires BundleOf(g, e) == Some(document)
    ensures Authentic(g, peer, e, document)
  {
    assert EnvelopePasses(g, peer, e, SenderIsKnown) && EnvelopePasses(g, peer, e, PeerIsSender);
    assert EnvelopePasses(g, peer, e, PeerIsNotRevoked) && EnvelopePasses(g, peer, e, KeyIsNotRevoked);
    assert EnvelopePasses(g, peer, e, SignatureVerifies) && EnvelopePasses(g, peer, e, PolicyAllows);
  }

  /** The envelope that a handler decoded. */
  ghost predicate Decoded(l: Link, e: TransactionEnvelope) {
    l.handler.payload.Some? && FromBytes(l.handler.payload.value) == Ok(e)
  }

  lemma LinkIsAuthentic(net: Net, l: Link, n: nat) returns (e: TransactionEnvelope)
    requires LinkInv(net, l) && n < |l.handler.trace| && l.handler.trace[n].Ingested?
    ensures Decoded(l, e) && Authentic(net.gateway, l.peer, e, l.handler.trace[n].document)
  {
    IngestedTrace(net.gateway, l.peer, l.handler, n);
    e := FromBytes(l.handler.payload.value).value;
    forall gate: Gate
      ensures EnvelopePasses(net.gateway, l.peer, e, gate)
    {
      assert Passes(net.gateway, l.peer, l.handler.payload.value, gate);
    }
    GatesAuthenticate(net.gateway, l.peer, e, l.handler.trace[n].document);
  }

  lemma LinkInRun(net: Net, events: seq<System.Event>, worlds: seq<World>, i: nat, k: nat)
    requires JsonLaw(net.dumps, net.loads) && System.IsRun(net, events, worlds) && i <= |events|
    requires k < |worlds[i].links|
    ensures LinkInv(net, worlds[i].links[k])
  {
    RunsKeepLinked(net, events, worlds, i);
    assert worlds[i].links[k] in worlds[i].links;
  }

  /**
   * Nothing is ingested under a false name: in every run whatever is given to the ingestor, on A's connections and
   * on strangers', came from a peer with the certificate pinned for the sender it names, unrevoked, in bytes that
   * verify under that sender's key and that the policy allows.
   */
  lemma IngestsAreAuthentic(net: Net, events: seq<System.Event>, worlds: seq<World>, i: nat, k: nat, n: nat)
    returns (e: TransactionEnvelope)
    requires JsonLaw(net.dumps, net.loads) && System.IsRun(net, events, worlds) && i <= |events|
    requires k < |worlds[i].links| && n < |worlds[i].links[k].handler.trace|
    requires worlds[i].links[k].handler.trace[n].Ingested?
    ensures var l := worlds[i].links[k];
            Decoded(l, e) && Authentic(net.gateway, l.peer, e, l.handler.trace[n].document)
  {
    LinkInRun(net, events, worlds, i, k);
    e := LinkIsAuthentic(net, worlds[i].links[k], n);
  }

  /** The peer presents the certificate pinned for this sender. */
  predicate PresentsPinOf(g: Gateway, peer: string, sender: string) {
    sender in g.trust.agencies && g.trust.agencies[sender].tlsCertificateFingerprint == Some(peer)
  }

  ghost predicate NoStrangerAs(g: Gateway, links: seq<Link>, sender: string) {
    forall k :: 0 <= k < |links| && links[k].owner.None? ==> !PresentsPinOf(g, links[k].peer, sender)
  }

  /** On a link A opened, what is decoded is what A sent. */
  lemma IngestIsOwned(net: Net, l: Link, n: nat, e: TransactionEnvelope)
    requires LinkInv(net, l) && n < |l.handler.trace| && l.handler.trace[n].Ingested? && Decoded(l, e)
    requires l.owner.None? ==> !PresentsPinOf(net.gateway, l.peer, e.senderId)
    ensures l.owner.Some? && e == EnvelopeOf(l.owner.value) && Carries(e, l.owner.value)
  {
    var e' := LinkIsAuthentic(net, l, n);
    assert PresentsPinOf(net.gateway, l.peer, e'.senderId);
    OwnedPayload(net, l);
  }

  /**
   * If no stranger presents A's pinned certificate, every ingest under A's sender id is on a connection A opened,
   * of the envelope A built, permitted by A's policy and signed by A.
   */
  lemma SenderIngestsAreOwned(net: Net, events: seq<System.Event>, worlds: seq<World>, i: nat, k: nat, n: nat,
                              e: TransactionEnvelope)
    requires JsonLaw(net.dumps, net.loads) && System.IsRun(net, events, worlds) && i <= |events|
    requires k < |worlds[i].links| && n < |worlds[i].links[k].handler.trace|
    requires worlds[i].links[k].handler.trace[n].Ingested? && Decoded(worlds[i].links[k], e)
    requires NoStrangerAs(net.gateway, worlds[i].links, e.senderId)
    ensures var owner := worlds[i].links[k].owner;
            && owner.Some? && Carries(e, owner.value)
            && P.Prepared(net.setup, owner.value) && P.Permitted(net.setup, owner.value)
  {
    LinkInRun(net, events, worlds, i, k);
    IngestIsOwned(net, worlds[i].links[k], n, e);
  }

  // ----- Duplicates, strangers included -----

  /** The handler decoded an envelope of this sender for this id. */
  predicate Names(l: Link, sender: string, id: string) {
    && l.handler.payload.Some? && FromBytes(l.handler.payload.value).Ok?
    && FromBytes(l.handler.payload.value).value.senderId == sender
    && FromBytes(l.handler.payload.value).value.transactionId == id
  }

  /** B's successful ingests for `id` under the name of `sender`, on any connection. */
  function IngestsAs(links: seq<Link>, sender: string, id: string): nat {
    if links == [] then 0
    else
      var last := links[|links| - 1];
      IngestsAs(links[..|links| - 1], sender, id) +
      if Names(last, sender, id) then CountIngests(last.handler.trace) else 0
  }

  lemma {:induction false} SomeIngest(trace: seq<Gates.Event>) returns (n: nat)
    requires CountIngests(trace) > 0
    ensures n < |trace| && trace[n].Ingested?
  {
    var last := |trace| - 1;
    if trace[last].Ingested? {
      n := last;
    } else {
      n := SomeIngest(trace[..last]);
    }
  }

  lemma NamedIsOwned(net: Net, l: Link, sender: string, id: string)
    requires LinkInv(net, l) && Names(l, sender, id) && CountIngests(l.handler.trace) > 0
    requires l.owner.None? ==> !PresentsPinOf(net.gateway, l.peer, sender)
    ensures Owns(l, id)
  {
    var n := SomeIngest(l.handler.trace);
    IngestIsOwned(net, l, n, FromBytes(l.handler.payload.value).value);
  }

  lemma {:induction false} IngestsAsBound(net: Net, links: seq<Link>, sender: string, id: string)
    requires forall k :: 0 <= k < |links| ==> LinkInv(net, links[k])
    requires NoStrangerAs(net.gateway, links, sender)
    ensures IngestsAs(links, sender, id) <= Ingests(links, id)
  {
    if links != [] {
      var n := |links| - 1;
      IngestsAsBound(net, links[..n], sender, id);
      if Names(links[n], sender, id) && CountIngests(links[n].handler.trace) > 0 {
        NamedIsOwned(net, links[n], sender, id);
      }
    }
  }

  /**
   * Duplicate bound over all connections: if no stranger presents the sender's pinned certificate, B's successful
   * ingests for an id under that sender's name never exceed A's attempts for it.
   */
  lemma DuplicateBoundForSender(net: Net, events: seq<System.Event>, worlds: seq<World>, i: nat, j: nat, sender: string)
    requires JsonLaw(net.dumps, net.loads) && System.IsRun(net, events, worlds) && i <= |events|
    requires NoStrangerAs(net.gateway, worlds[i].links, sender) && j < |worlds[i].pipeline.finished|
    ensures var tx := worlds[i].pipeline.finished[j];
            IngestsAs(worlds[i].links, sender, tx.id) <= tx.retryCount
  {
    var w := worlds[i];
    forall k | 0 <= k < |w.links|
      ensures LinkInv(net, w.links[k])
    {
      LinkInRun(net, events, worlds, i, k);
    }
    IngestsAsBound(net, w.links, sender, w.pipeline.finished[j].id);
    DuplicateBound(net, events, worlds, i, w.pipeline.finished[j].id);
  }
}
