/** Gateway B's first-match inbound rules. */
module InboundPep {
  import opened Basics

  /** A field the rule dictionary lacks is None and matches nothing. */
  datatype Rule = Rule(sender: Option<string>, recipient: Option<string>, tlp: Option<string>, action: Option<string>)

  datatype Decision = ExplicitDeny | ExplicitAllow | NoRule

  predicate Covers(pattern: Option<string>, value: string) {
    pattern == Some("*") || pattern == Some(value)
  }

  predicate Matches(rule: Rule, sender: string, recipient: string, tlp: string) {
    Covers(rule.sender, sender) && Covers(rule.recipient, recipient) && Covers(rule.tlp, tlp)
  }

  function Evaluate(rules: seq<Rule>, sender: string, recipient: string, tlp: string): Decision {
    if rules == [] then NoRule
    else if Matches(rules[0], sender, recipient, tlp) && rules[0].action == Some("DENY") then ExplicitDeny
    else if Matches(rules[0], sender, recipient, tlp) && rules[0].action == Some("ALLOW") then ExplicitAllow
    else Evaluate(rules[1..], sender, recipient, tlp)
  }

  /**
   * The rule names the sender, the recipient and the marking, or any, in each of its three fields, and says DENY or
   * ALLOW; a matching rule with any other action is passed over.
   */
  predicate Decisive(rule: Rule, sender: string, recipient: string, tlp: string) {
    && rule.sender in {Some("*"), Some(sender)}
    && rule.recipient in {Some("*"), Some(recipient)}
    && rule.tlp in {Some("*"), Some(tlp)}
    && rule.action in {Some("DENY"), Some("ALLOW")}
  }

  predicate FirstDecisive(rules: seq<Rule>, i: nat, sender: string, recipient: string, tlp: string) {
    && i < |rules|
    && Decisive(rules[i], sender, recipient, tlp)
    && forall j :: 0 <= j < i ==> !Decisive(rules[j], sender, recipient, tlp)
  }

  /** The decision is the action of the first decisive rule, and `NoRule` exactly when there is none. */
  lemma {:induction false} FirstMatchWins(rules: seq<Rule>, sender: string, recipient: string, tlp: string)
    ensures Evaluate(rules, sender, recipient, tlp) == ExplicitAllow <==>
            exists i: nat :: FirstDecisive(rules, i, sender, recipient, tlp) && rules[i].action == Some("ALLOW")
    ensures Evaluate(rules, sender, recipient, tlp) == ExplicitDeny <==>
            exists i: nat :: FirstDecisive(rules, i, sender, recipient, tlp) && rules[i].action == Some("DENY")
  {
    if rules == [] {
    } else if Decisive(rules[0], sender, recipient, tlp) {
      assert FirstDecisive(rules, 0, sender, recipient, tlp);
    } else {
      FirstMatchWins(rules[1..], sender, recipient, tlp);
      forall i: nat | i < |rules|
        ensures FirstDecisive(rules, i, sender, recipient, tlp) <==>
                i > 0 && FirstDecisive(rules[1..], i - 1, sender, recipient, tlp)
      {
        assert i > 0 ==> rules[i] == rules[1..][i - 1];
        if i > 0 && FirstDecisive(rules[1..], i - 1, sender, recipient, tlp) {
          forall j | 0 <= j < i ensures !Decisive(rules[j], sender, recipient, tlp) {
            assert j > 0 ==> rules[j] == rules[1..][j - 1];
          }
        }
        if FirstDecisive(rules, i, sender, recipient, tlp) {
          forall j | 0 <= j < i - 1 ensures !Decisive(rules[1..][j], sender, recipient, tlp) {
            assert rules[1..][j] == rules[j + 1];
          }
        }
      }
      if k: nat :| FirstDecisive(rules[1..], k, sender, recipient, tlp) {
        assert FirstDecisive(rules, k + 1, sender, recipient, tlp);
      }
    }
  }

  /** The rules gateway B is started with. */
  const DEPLOYED: seq<Rule> := [
    Rule(Some("RAW"), Some("NIA"), Some("tlp:green"), Some("ALLOW")),
    Rule(Some("RAW"), Some("NIA"), Some("tlp:amber"), Some("ALLOW")),
    Rule(Some("RAW"), Some("NIA"), Some("tlp:amber+strict"), Some("DENY"))]

  /** What they allow and what they deny by name; anything else has no rule. */
  lemma DeployedDecision(sender: string, recipient: string, tlp: string)
    ensures Evaluate(DEPLOYED, sender, recipient, tlp).ExplicitAllow? <==>
            sender == "RAW" && recipient == "NIA" && tlp in {"tlp:green", "tlp:amber"}
    ensures Evaluate(DEPLOYED, sender, recipient, tlp).ExplicitDeny? <==>
            sender == "RAW" && recipient == "NIA" && tlp == "tlp:amber+strict"
  {
    var later := DEPLOYED[1..];
    var last := later[1..];
    assert later[0] == DEPLOYED[1] && last[0] == DEPLOYED[2] && last[1..] == [];
    assert Evaluate(DEPLOYED[1..], sender, recipient, tlp) == Evaluate(later, sender, recipient, tlp);
    assert Evaluate([], sender, recipient, tlp) == NoRule;
  }
}

/** Gateway A's sharing table and the marking it attaches to an event. */
module OutboundPep {
  import opened Basics
  import opened Envelope
  import InboundPep

  datatype SharingPolicyRule = SharingPolicyRule(tlpMarking: Tlp, allowedRecipients: set<string>)

  datatype Authorization = Permitted | UnknownTlp | UnauthorizedRecipient

  function ReasonCode(a: Authorization): string
    requires !a.Permitted?
  {
    if a.UnknownTlp? then "POLICY_DENIED_UNKNOWN_TLP" else "POLICY_DENIED_UNAUTHORIZED_RECIPIENT"
  }

  /** The dictionary comprehension: a later rule for a marking replaces an earlier one. */
  function Table(rules: seq<SharingPolicyRule>): map<Tlp, set<string>> {
    if rules == [] then map[]
    else
      var last := rules[|rules| - 1];
      Table(rules[..|rules| - 1])[last.tlpMarking := last.allowedRecipients]
  }

  function Authorize(table: map<Tlp, set<string>>, tlp: Tlp, recipient: string): Authorization {
    if tlp !in table then UnknownTlp
    else if recipient !in table[tlp] then UnauthorizedRecipient
    else Permitted
  }

  predicate LastRuleFor(rules: seq<SharingPolicyRule>, i: nat, tlp: Tlp) {
    && i < |rules| && rules[i].tlpMarking == tlp
    && forall j :: i < j < |rules| ==> rules[j].tlpMarking != tlp
  }

  /** Permission is what the last rule for the marking says; no rule means denial. */
  lemma {:induction false} LastRuleDecides(rules: seq<SharingPolicyRule>, tlp: Tlp, recipient: string)
    ensures tlp in Table(rules) <==> exists i: nat :: LastRuleFor(rules, i, tlp)
    ensures Authorize(Table(rules), tlp, recipient) == Permitted <==>
            exists i: nat :: LastRuleFor(rules, i, tlp) && recipient in rules[i].allowedRecipients
  {
    if rules != [] {
      var n := |rules| - 1;
      var front := rules[..n];
      if rules[n].tlpMarking == tlp {
        assert LastRuleFor(rules, n, tlp);
      } else {
        LastRuleDecides(front, tlp, recipient);
        assert forall i: nat :: LastRuleFor(rules, i, tlp) <==> LastRuleFor(front, i, tlp);
      }
    }
  }

  lemma LastOf(rules: seq<SharingPolicyRule>, i: nat, tlp: Tlp) returns (k: nat)
    requires i < |rules| && rules[i].tlpMarking == tlp
    ensures LastRuleFor(rules, k, tlp)
    decreases |rules| - i
  {
    if j: nat :| i < j < |rules| && rules[j].tlpMarking == tlp {
      k := LastOf(rules, j, tlp);
    } else {
      k := i;
    }
  }

  /** Why permission is denied: no rule for the marking, or the last one does not list the recipient. */
  lemma DenialReasons(rules: seq<SharingPolicyRule>, tlp: Tlp, recipient: string)
    ensures Authorize(Table(rules), tlp, recipient) == UnknownTlp <==>
            forall i :: 0 <= i < |rules| ==> rules[i].tlpMarking != tlp
    ensures Authorize(Table(rules), tlp, recipient) == UnauthorizedRecipient <==>
            exists i: nat :: LastRuleFor(rules, i, tlp) && recipient !in rules[i].allowedRecipients
    ensures ReasonCode(UnknownTlp) == "POLICY_DENIED_UNKNOWN_TLP"
    ensures ReasonCode(UnauthorizedRecipient) == "POLICY_DENIED_UNAUTHORIZED_RECIPIENT"
  {
    LastRuleDecides(rules, tlp, recipient);
    if exists i: nat :: i < |rules| && rules[i].tlpMarking == tlp {
      var i: nat :| i < |rules| && rules[i].tlpMarking == tlp;
      var k := LastOf(rules, i, tlp);
    }
    forall i: nat, j: nat | LastRuleFor(rules, i, tlp) && LastRuleFor(rules, j, tlp)
      ensures i == j
    {
    }
  }

  const DEPLOYED: seq<SharingPolicyRule> := [
    SharingPolicyRule(Amber, {"NIA"}),
    SharingPolicyRule(AmberStrict, {}),
    SharingPolicyRule(Green, {"NIA", "ALLY_X"})]

  /** Whom the deployed table lets have what. */
  lemma DeployedPermission(tlp: Tlp, recipient: string)
    ensures Authorize(Table(DEPLOYED), tlp, recipient) == Permitted <==>
            (tlp == Green && recipient in {"NIA", "ALLY_X"}) || (tlp == Amber && recipient == "NIA")
  {
    LastRuleDecides(DEPLOYED, tlp, recipient);
    var k: nat := match tlp case Green => 2 case Amber => 0 case AmberStrict => 1;
    assert LastRuleFor(DEPLOYED, k, tlp);
  }

  /** The two deployed tables agree on RAW-to-NIA traffic: B allows exactly the markings A lets out. */
  lemma DeployedTablesAgree(tlp: Tlp)
    ensures Authorize(Table(DEPLOYED), tlp, "NIA") == Permitted <==>
            InboundPep.Evaluate(InboundPep.DEPLOYED, "RAW", "NIA", TlpText(tlp)) == InboundPep.ExplicitAllow
  {
    LastRuleDecides(DEPLOYED, tlp, "NIA");
    InboundPep.FirstMatchWins(InboundPep.DEPLOYED, "RAW", "NIA", TlpText(tlp));
    var k: nat := match tlp case Green => 2 case Amber => 0 case AmberStrict => 1;
    assert LastRuleFor(DEPLOYED, k, tlp);
    var i: nat := match tlp case Green => 0 case Amber => 1 case AmberStrict => 2;
    assert InboundPep.FirstDecisive(InboundPep.DEPLOYED, i, "RAW", "NIA", TlpText(tlp));
  }

  // ----- Marking of an extracted event -----

  function LowerChar(c: char): char {
    if 'A' <= c <= 'Z' then (c as int + 32) as char else c
  }

  /** `str.lower()`; only ASCII letters matter for the names compared here. */
  function Lower(s: string): string {
    seq(|s|, i requires 0 <= i < |s| => LowerChar(s[i]))
  }

  /** The marking a tag name stands for, if it is a TLP tag the extractor knows. */
  function TagMarking(name: string): Option<Tlp> {
    var n := Lower(name);
    if n == "tlp:clear" || n == "tlp:white" || n == "tlp:green" then Some(Green)
    else if n == "tlp:amber" then Some(Amber)
    else if n == "tlp:amber+strict" then Some(AmberStrict)
    else None
  }

  /** The marking an event is given: that of its last recognised tag, AMBER if it has none. */
  function MarkingOf(tags: seq<string>): Tlp {
    if tags == [] then Amber
    else
      var last := |tags| - 1;
      if TagMarking(tags[last]).Some? then TagMarking(tags[last]).value else MarkingOf(tags[..last])
  }

  /** The tag is the name in lower or upper case letters, in any mixture. */
  predicate Spells(tag: string, name: string) {
    && |tag| == |name|
    && forall i :: 0 <= i < |tag| ==>
         tag[i] == name[i] || ('a' <= name[i] <= 'z' && tag[i] as int == name[i] as int - 32)
  }

  /** The tag is one of the names by which this marking is known. */
  predicate IsTagOf(tag: string, tlp: Tlp) {
    match tlp
    case Green => Spells(tag, "tlp:clear") || Spells(tag, "tlp:white") || Spells(tag, "tlp:green")
    case Amber => Spells(tag, "tlp:amber")
    case AmberStrict => Spells(tag, "tlp:amber+strict")
  }

  predicate IsTag(tag: string) {
    IsTagOf(tag, Green) || IsTagOf(tag, Amber) || IsTagOf(tag, AmberStrict)
  }

  /** Lower-casing gives the name exactly if the tag spells it, for a name without capitals. */
  lemma LowerSpells(tag: string, name: string)
    requires forall i :: 0 <= i < |name| ==> !('A' <= name[i] <= 'Z')
    ensures Lower(tag) == name <==> Spells(tag, name)
  {
    if Lower(tag) == name {
      forall i | 0 <= i < |tag|
        ensures tag[i] == name[i] || ('a' <= name[i] <= 'z' && tag[i] as int == name[i] as int - 32)
      {
        assert Lower(tag)[i] == LowerChar(tag[i]);
      }
    }
    if Spells(tag, name) {
      forall i | 0 <= i < |tag|
        ensures Lower(tag)[i] == name[i]
      {
      }
    }
  }

  lemma TagsSpell(tag: string)
    ensures TagMarking(tag) == Some(Green) <==> IsTagOf(tag, Green)
    ensures TagMarking(tag) == Some(Amber) <==> IsTagOf(tag, Amber)
    ensures TagMarking(tag) == Some(AmberStrict) <==> IsTagOf(tag, AmberStrict)
  {
    LowerSpells(tag, "tlp:clear");
    LowerSpells(tag, "tlp:white");
    LowerSpells(tag, "tlp:green");
    LowerSpells(tag, "tlp:amber");
    LowerSpells(tag, "tlp:amber+strict");
  }

  /** Each marking's own text, as it is sent, is a tag of it. */
  lemma TextIsTag(tlp: Tlp)
    ensures IsTagOf(TlpText(tlp), tlp) && TagMarking(TlpText(tlp)) == Some(tlp)
  {
    MarkingTexts(TlpText(tlp));
    TagsSpell(TlpText(tlp));
  }

  /** The last of the tags that is a tag of some marking is a tag of this one, or none is and it is AMBER. */
  predicate IsLastMarking(tags: seq<string>, tlp: Tlp) {
    && (forall i :: 0 <= i < |tags| && IsTag(tags[i]) && (forall j :: i < j < |tags| ==> !IsTag(tags[j])) ==>
          IsTagOf(tags[i], tlp))
    && ((forall i :: 0 <= i < |tags| ==> !IsTag(tags[i])) ==> tlp == Amber)
  }

  lemma TagMarks(tag: string)
    ensures TagMarking(tag).Some? <==> IsTag(tag)
    ensures IsTag(tag) ==> IsTagOf(tag, TagMarking(tag).value)
  {
    TagsSpell(tag);
  }

  lemma LastTagDecides(tags: seq<string>, tlp: Tlp)
    requires tags != [] && IsTagOf(tags[|tags| - 1], tlp)
    ensures IsLastMarking(tags, tlp)
  {
  }

  lemma EarlierMarking(tags: seq<string>, tlp: Tlp)
    requires tags != [] && !IsTag(tags[|tags| - 1]) && IsLastMarking(tags[..|tags| - 1], tlp)
    ensures IsLastMarking(tags, tlp)
  {
    var front := tags[..|tags| - 1];
    forall i | 0 <= i < |tags| && IsTag(tags[i]) && (forall j :: i < j < |tags| ==> !IsTag(tags[j]))
      ensures IsTagOf(tags[i], tlp)
    {
      assert front[i] == tags[i];
      assert forall j :: i < j < |front| ==> front[j] == tags[j];
    }
    assert forall i :: 0 <= i < |front| ==> front[i] == tags[i];
  }

  lemma {:induction false} MarkingIsLast(tags: seq<string>)
    ensures IsLastMarking(tags, MarkingOf(tags))
  {
    if tags != [] {
      var last := |tags| - 1;
      TagMarks(tags[last]);
      MarkingIsLast(tags[..last]);
      if IsTag(tags[last]) {
        LastTagDecides(tags, MarkingOf(tags));
      } else {
        EarlierMarking(tags, MarkingOf(tags));
      }
    }
  }

  method SelectMarking(tags: seq<string>) returns (tlp: Tlp)
    ensures tlp == MarkingOf(tags) && IsLastMarking(tags, tlp)
  {
    tlp := Amber;
    for k := 0 to |tags|
      invariant tlp == MarkingOf(tags[..k])
    {
      var name := Lower(tags[k]);
      if name == "tlp:clear" || name == "tlp:white" {
        tlp := Green;
      } else if name == "tlp:green" {
        tlp := Green;
      } else if name == "tlp:amber" {
        tlp := Amber;
      } else if name == "tlp:amber+strict" {
        tlp := AmberStrict;
      }
      assert tags[..k + 1][..k] == tags[..k];
    }
    assert tags[..|tags|] == tags;
    MarkingIsLast(tags);
  }
}

/** Gateway B's trusted agencies and revoked fingerprints, as loaded from the two YAML documents. */
module TrustStore {
  import opened Basics

  /** The keys of an agency entry that the transaction handler looks up; None is a missing key. */
  datatype Agency = Agency(
    tlsCertificateFingerprint: Option<string>,
    payloadSigningPublicKeyFingerprint: Option<string>,
    payloadSigningPublicKeyPath: Option<string>)

  datatype AgencyEntry = AgencyEntry(agencyId: Option<string>, agency: Agency)

  /** `BadFormat`: not a dictionary, or no `trusted_agencies` key. */
  datatype TrustDocument = BadFormat | TrustDocument(trustedAgencies: seq<AgencyEntry>)

  /** `NoCertificates`: an empty document or one without the `revoked_certificates` key. */
  datatype RevocationDocument = MissingFile | NoCertificates | Revoked(fingerprints: seq<Option<string>>)

  datatype LoadError = InvalidFormat | MissingKey | RevocationListMissing

  /** Everything the handler asks of the store. */
  datatype View = View(agencies: map<string, Agency>, revoked: set<string>)

  predicate Loadable(trust: TrustDocument, revocations: RevocationDocument) {
    && trust.TrustDocument?
    && (forall i :: 0 <= i < |trust.trustedAgencies| ==> trust.trustedAgencies[i].agencyId.Some?)
    && !revocations.MissingFile?
    && (revocations.Revoked? ==> forall i :: 0 <= i < |revocations.fingerprints| ==> revocations.fingerprints[i].Some?)
  }

  predicate LastEntryFor(entries: seq<AgencyEntry>, i: nat, id: string) {
    && i < |entries| && entries[i].agencyId == Some(id)
    && forall j :: i < j < |entries| ==> entries[j].agencyId != Some(id)
  }

  class Store {
    var agencies: map<string, Agency>
    var revokedFingerprints: set<string>

    ghost function Contents(): View
      reads this
    {
      View(agencies, revokedFingerprints)
    }

    constructor ()
      ensures Contents() == View(map[], {})
    {
      agencies := map[];
      revokedFingerprints := {};
    }

    /**
     * Of several entries with one id the last is kept, every listed fingerprint is revoked, nothing else is in
     * the store, and loading succeeds exactly on complete documents.
     */
    method Load(trust: TrustDocument, revocations: RevocationDocument) returns (r: Result<(), LoadError>)
      requires Contents() == View(map[], {})
      modifies this
      ensures r.Ok? <==> Loadable(trust, revocations)
      ensures r == Err(InvalidFormat) <==> trust.BadFormat?
      ensures r == Err(RevocationListMissing) <==>
              && trust.TrustDocument? && revocations.MissingFile?
              && (forall i :: 0 <= i < |trust.trustedAgencies| ==> trust.trustedAgencies[i].agencyId.Some?)
      ensures r.Ok? ==> forall id :: id in agencies <==> exists i: nat :: LastEntryFor(trust.trustedAgencies, i, id)
      ensures r.Ok? ==> forall id, i: nat :: LastEntryFor(trust.trustedAgencies, i, id) ==>
                          id in agencies && agencies[id] == trust.trustedAgencies[i].agency
      ensures r.Ok? ==> forall fp :: fp in revokedFingerprints <==>
                          revocations.Revoked? && Some(fp) in revocations.fingerprints
    {
      if trust.BadFormat? {
        return Err(InvalidFormat);
      }
      var entries := trust.trustedAgencies;
      for k := 0 to |entries|
        invariant forall i :: 0 <= i < k ==> entries[i].agencyId.Some?
        invariant revokedFingerprints == {}
        invariant forall id :: id in agencies ==> exists i: nat :: LastEntryFor(entries[..k], i, id)
        invariant forall id, i: nat :: LastEntryFor(entries[..k], i, id) ==>
                    id in agencies && agencies[id] == entries[i].agency
      {
        if entries[k].agencyId.None? {
          return Err(MissingKey);
        }
        var id := entries[k].agencyId.value;
        ghost var before := agencies;
        agencies := agencies[id := entries[k].agency];
        assert LastEntryFor(entries[..k + 1], k, id);
        ghost var seen := entries[..k + 1];
        forall other | other in before && other != id
          ensures exists i: nat :: LastEntryFor(seen, i, other)
        {
          var i: nat :| LastEntryFor(entries[..k], i, other);
          assert LastEntryFor(seen, i, other);
        }
        forall other, i: nat | LastEntryFor(entries[..k + 1], i, other)
          ensures other in agencies && agencies[other] == entries[i].agency
        {
          if other != id {
            assert LastEntryFor(entries[..k], i, other);
          }
        }
      }
      assert entries[..|entries|] == entries;
      if revocations.MissingFile? {
        return Err(RevocationListMissing);
      }
      if revocations.Revoked? {
        ghost var filled := agencies;
        var fps := revocations.fingerprints;
        for k := 0 to |fps|
          invariant forall i :: 0 <= i < k ==> fps[i].Some?
          invariant agencies == filled
          invariant forall fp :: fp in revokedFingerprints <==> Some(fp) in fps[..k]
        {
          if fps[k].None? {
            return Err(MissingKey);
          }
          revokedFingerprints := revokedFingerprints + {fps[k].value};
          assert fps[..k + 1] == fps[..k] + [fps[k]];
        }
        assert fps[..|fps|] == fps;
      }
      return Ok(());
    }
  }
}
