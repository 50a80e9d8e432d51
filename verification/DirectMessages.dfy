/** Which direct messages reach a handler (bot/bot.go), set against the dashboard's check. */
module DirectMessages {
  import opened Wrappers
  import opened Transport
  import Identity

  datatype Policy = FromMembers | FromAnyone

  /** `groups` are the managed groups. Without a handler, or when a query fails, the message is dropped. */
  method Handle(w: World, sender: JID, hasHandler: bool, policy: Policy, groups: seq<JID>) returns (runs: bool)
    ensures runs ==> hasHandler
    ensures policy == FromAnyone ==> runs == hasHandler
    ensures policy == FromMembers && hasHandler ==>
      (runs <==> GateAnswer(w, ResolvePhone(w.lids, sender), groups) == Ok(true))
  {
    if !hasHandler {
      return false;
    }
    if policy == FromMembers {
      var phone := ResolvePhone(w.lids, sender);
      var ok := IsMemberOfAny(w, phone, groups);
      if ok.Err? {
        return false;
      }
      if !ok.value {
        return false;
      }
    }
    return true;
  }

  /** A sender let through as a member, phone JID or LID, is one whom the dashboard's own check of the
      very same identity would find in one of the managed groups. */
  lemma AdmittedSenderIsAMember(w: World, sender: JID, groups: seq<JID>)
    requires forall g :: g in groups ==> !g.IsEmpty()
    requires !sender.IsEmpty() && sender.user != ""
    ensures GateAnswer(w, ResolvePhone(w.lids, sender), groups) == Ok(true) ==>
      exists g :: g in groups && Answer(w, g, sender) == Ok(true)
  {
  }

  /** A LID the store cannot resolve is dropped by the gate in every case, while the dashboard admits it to
      any group that lists the LID. */
  lemma UnresolvedSenderIsDropped(w: World, sender: JID, groups: seq<JID>, g: JID, p: Participant)
    requires !sender.IsEmpty() && sender.user != "" && ResolvePhone(w.lids, sender) == ""
    requires !g.IsEmpty() && g in groups && g in w.groups && p in w.groups[g] && p.lid == sender
    ensures GateAnswer(w, ResolvePhone(w.lids, sender), groups) == Ok(false)
    ensures Answer(w, g, sender) == Ok(true)
  {
  }

  /** A record that names the sender carries the phone the sender resolves to. */
  predicate PhoneAgrees(w: World, p: Participant, sender: JID) {
    NamedBy(p, sender) ==>
      Identity.Canonical(PhoneOf(w.lids, p), w.countryCode) == Identity.Canonical(ResolvePhone(w.lids, sender), w.countryCode)
  }

  /** Named or matched by phone, such a participant has the sender's phone. */
  lemma SamePersonSharesThePhone(w: World, parts: seq<Participant>, sender: JID)
    requires forall p :: p in parts ==> PhoneAgrees(w, p, sender)
    requires InGroup(w, parts, sender)
    ensures ListsPhone(w, parts, Identity.Canonical(ResolvePhone(w.lids, sender), w.countryCode))
  {
    var p :| p in parts && SamePerson(w, p, sender);
    assert PhoneAgrees(w, p, sender);
  }

  /** The other way round, a sender whom some managed group lists, by phone or LID, is let through exactly
      when the sender resolves to a phone with a digit in it, provided queries are answered and records
      agree with the LID store. */
  lemma GateIsMembershipWithAPhone(w: World, sender: JID, groups: seq<JID>)
    requires forall g :: g in groups ==> !g.IsEmpty() && g in w.groups
    requires forall g, p :: g in groups && p in w.groups[g] ==> PhoneAgrees(w, p, sender)
    requires !sender.IsEmpty() && sender.user != ""
    ensures GateAnswer(w, ResolvePhone(w.lids, sender), groups) == Ok(true) <==>
      Identity.Canonical(ResolvePhone(w.lids, sender), w.countryCode) != ""
      && exists g :: g in groups && Answer(w, g, sender) == Ok(true)
  {
    var phone := ResolvePhone(w.lids, sender);
    var want := Identity.Canonical(phone, w.countryCode);
    AdmittedSenderIsAMember(w, sender, groups);
    if want != "" {
      if g :| g in groups && Answer(w, g, sender) == Ok(true) {
        SamePersonSharesThePhone(w, w.groups[g], sender);
        var i :| 0 <= i < |groups| && groups[i] == g;
        AListingGroupDecides(w, want, groups, i);
      }
    }
  }
}
