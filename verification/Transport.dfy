/**
 Identity matching over a group's participants (transport/client.go, transport/message.go). A
 person may be known by a phone JID, by a LID, or by both; the LID-to-phone store is partial.
*/
module Transport {
  import opened Wrappers
  import Identity

  const DEFAULT_USER_SERVER := "s.whatsapp.net"

  datatype JID = JID(user: string, agent: nat, device: nat, server: string) {
    predicate IsEmpty() {
      server == ""
    }
  }

  datatype Participant = Participant(jid: JID, phone: JID, lid: JID, isAdmin: bool, isSuperAdmin: bool)

  datatype Member = Member(jid: JID, phone: string, isAdmin: bool)

  type LidStore = map<JID, JID>

  /** What WhatsApp and the local store would answer at one instant. A group absent from `groups`
      is one whose query fails. */
  datatype World = World(countryCode: string, groups: map<JID, seq<Participant>>, lids: LidStore)

  datatype QueryError = QueryFailed

  predicate SameJid(a: JID, b: JID) {
    !a.IsEmpty() && !b.IsEmpty() && a.user == b.user && a.server == b.server
  }

  /** The phone behind an identity: its own user part, or the store's entry for it, or "". */
  function ResolvePhone(lids: LidStore, jid: JID): string {
    if jid.server == DEFAULT_USER_SERVER then jid.user
    else if jid in lids && lids[jid].server == DEFAULT_USER_SERVER then lids[jid].user
    else ""
  }

  function PhoneOf(lids: LidStore, p: Participant): string {
    if p.phone.user != "" then p.phone.user else ResolvePhone(lids, p.jid)
  }

  function MemberOf(lids: LidStore, p: Participant): Member {
    Member(p.jid, PhoneOf(lids, p), p.isAdmin || p.isSuperAdmin)
  }

  /** `p` is known by the very identity `member`, in one of its three forms. */
  predicate NamedBy(p: Participant, member: JID) {
    SameJid(p.jid, member) || SameJid(p.phone, member) || SameJid(p.lid, member)
  }

  /** `p` and `member` both resolve to a phone, and to the same one. */
  predicate SamePhone(w: World, p: Participant, member: JID) {
    var want := Identity.Canonical(ResolvePhone(w.lids, member), w.countryCode);
    var have := PhoneOf(w.lids, p);
    want != "" && have != "" && Identity.Canonical(have, w.countryCode) == want
  }

  predicate SamePerson(w: World, p: Participant, member: JID) {
    NamedBy(p, member) || SamePhone(w, p, member)
  }

  /** The declarative membership test. */
  predicate InGroup(w: World, parts: seq<Participant>, member: JID) {
    exists p :: p in parts && SamePerson(w, p, member)
  }

  predicate Usable(group: JID, member: JID) {
    !group.IsEmpty() && !member.IsEmpty() && member.user != ""
  }

  /** The answer `IsMember` gives when the world is `w`. */
  function Answer(w: World, group: JID, member: JID): Result<bool, QueryError> {
    if !Usable(group, member) then Ok(false)
    else if group !in w.groups then Err(QueryFailed)
    else Ok(InGroup(w, w.groups[group], member))
  }

  method IsMember(w: World, group: JID, member: JID) returns (r: Result<bool, QueryError>)
    ensures r == Answer(w, group, member)
  {
    if group.IsEmpty() || member.IsEmpty() || member.user == "" {
      return Ok(false);
    }
    if group !in w.groups {
      return Err(QueryFailed);
    }
    var parts := w.groups[group];
    var wantPhone := Identity.Normalize(ResolvePhone(w.lids, member), w.countryCode);
    assert Answer(w, group, member) == Ok(InGroup(w, parts, member));
    for i := 0 to |parts|
      invariant forall k :: 0 <= k < i ==> !SamePerson(w, parts[k], member)
    {
      var p := parts[i];
      if SameJid(p.jid, member) || SameJid(p.phone, member) || SameJid(p.lid, member) {
        assert p in parts && SamePerson(w, p, member);
        return Ok(true);
      }
      assert !NamedBy(p, member);
      if wantPhone == "" {
        continue;
      }
      var phone := p.phone.user;
      if phone == "" {
        phone := ResolvePhone(w.lids, p.jid);
      }
      if phone != "" {
        var key := Identity.Normalize(phone, w.countryCode);
        if key == wantPhone {
          assert p in parts && SamePerson(w, p, member);
          return Ok(true);
        }
      }
      assert !SamePhone(w, p, member);
    }
    assert !InGroup(w, parts, member);
    return Ok(false);
  }

  /** `number` is the participant's own, as it stands: the phone field, or else the user part of a phone JID,
      or else what the store has for the JID. */
  predicate HasNumber(lids: LidStore, p: Participant, number: string) {
    && number != ""
    && (if p.phone.user != "" then p.phone.user == number else Resolves(lids, p.jid, number))
  }

  predicate Resolves(lids: LidStore, jid: JID, number: string) {
    if jid.server == "s.whatsapp.net" then jid.user == number
    else jid in lids && lids[jid].server == "s.whatsapp.net" && lids[jid].user == number
  }

  method MembersFrom(lids: LidStore, parts: seq<Participant>) returns (out: seq<Member>)
    ensures |out| == |parts|
    ensures forall i :: 0 <= i < |parts| ==> out[i] == MemberOf(lids, parts[i])
    ensures forall i :: 0 <= i < |parts| ==>
      out[i].jid == parts[i].jid && (out[i].isAdmin <==> parts[i].isAdmin || parts[i].isSuperAdmin)
    ensures forall i, number | 0 <= i < |parts| && number != "" ::
      out[i].phone == number <==> HasNumber(lids, parts[i], number)
  {
    out := [];
    for i := 0 to |parts|
      invariant |out| == i
      invariant forall k :: 0 <= k < i ==> out[k] == MemberOf(lids, parts[k])
    {
      var phone := parts[i].phone.user;
      if phone == "" {
        phone := ResolvePhone(lids, parts[i].jid);
      }
      out := out + [Member(parts[i].jid, phone, parts[i].isAdmin || parts[i].isSuperAdmin)];
    }
  }

  method Members(w: World, group: JID) returns (r: Result<seq<Member>, QueryError>)
    ensures r.Ok? <==> group in w.groups
    ensures r.Ok? ==> |r.value| == |w.groups[group]|
    ensures r.Ok? ==> forall i :: 0 <= i < |r.value| ==> r.value[i] == MemberOf(w.lids, w.groups[group][i])
  {
    if group !in w.groups {
      return Err(QueryFailed);
    }
    var out := MembersFrom(w.lids, w.groups[group]);
    r := Ok(out);
  }

  predicate ListsPhone(w: World, parts: seq<Participant>, want: string) {
    exists p :: p in parts && Identity.Canonical(PhoneOf(w.lids, p), w.countryCode) == want
  }

  /** What the direct-message gate answers: groups are asked in order, the first failure wins over
      everything after it and the first hit over every later failure. */
  function AnyAnswer(w: World, want: string, groups: seq<JID>): (r: Result<bool, QueryError>)
    ensures r == Ok(true) ==> exists g :: g in groups && g in w.groups && ListsPhone(w, w.groups[g], want)
    ensures r == Ok(false) ==> forall g :: g in groups ==> g in w.groups && !ListsPhone(w, w.groups[g], want)
    ensures r.Err? ==> exists g :: g in groups && g !in w.groups
  {
    if groups == [] then Ok(false)
    else if groups[0] !in w.groups then Err(QueryFailed)
    else if ListsPhone(w, w.groups[groups[0]], want) then Ok(true)
    else AnyAnswer(w, want, groups[1..])
  }

  function GateAnswer(w: World, phone: string, groups: seq<JID>): Result<bool, QueryError> {
    var want := Identity.Canonical(phone, w.countryCode);
    if want == "" then Ok(false) else AnyAnswer(w, want, groups)
  }

  /** The scan over one group's members. */
  method AnyHasPhone(w: World, group: JID, members: seq<Member>, want: string) returns (hit: bool)
    requires group in w.groups && |members| == |w.groups[group]|
    requires forall i :: 0 <= i < |members| ==> members[i] == MemberOf(w.lids, w.groups[group][i])
    ensures hit <==> ListsPhone(w, w.groups[group], want)
  {
    for j := 0 to |members|
      invariant forall k :: 0 <= k < j ==> Identity.Canonical(members[k].phone, w.countryCode) != want
    {
      var key := Identity.Normalize(members[j].phone, w.countryCode);
      if key == want {
        assert w.groups[group][j] in w.groups[group];
        return true;
      }
    }
    assert forall k :: 0 <= k < |members| ==>
      Identity.Canonical(PhoneOf(w.lids, w.groups[group][k]), w.countryCode) == Identity.Canonical(members[k].phone, w.countryCode);
    return false;
  }

  method IsMemberOfAny(w: World, phone: string, groups: seq<JID>) returns (r: Result<bool, QueryError>)
    ensures r == GateAnswer(w, phone, groups)
  {
    var want := Identity.Normalize(phone, w.countryCode);
    if want == "" {
      return Ok(false);
    }
    for i := 0 to |groups|
      invariant AnyAnswer(w, want, groups) == AnyAnswer(w, want, groups[i..])
    {
      var g := groups[i];
      assert groups[i..][0] == g && groups[i..][1..] == groups[i + 1..];
      var members := Members(w, g);
      if members.Err? {
        return Err(QueryFailed);
      }
      var hit := AnyHasPhone(w, g, members.value, want);
      if hit {
        return Ok(true);
      }
    }
    return Ok(false);
  }

  // ---------------------------------------------------------------------------------------------
  // Properties
  // ---------------------------------------------------------------------------------------------

  /** The order in which WhatsApp lists participants does not matter. */
  lemma OrderDoesNotMatter(w: World, w': World, group: JID, member: JID)
    requires w'.countryCode == w.countryCode && w'.lids == w.lids
    requires group in w.groups && group in w'.groups
    requires multiset(w.groups[group]) == multiset(w'.groups[group])
    ensures Answer(w, group, member) == Answer(w', group, member)
  {
    var a, b := w.groups[group], w'.groups[group];
    assert forall p :: p in a <==> p in multiset(a);
    assert forall p :: p in b <==> p in multiset(b);
    assert forall p :: SamePerson(w, p, member) == SamePerson(w', p, member);
  }

  /** One of the participant's three forms has this user on this server. */
  predicate HasForm(p: Participant, user: string, server: string) {
    || (p.jid.user == user && p.jid.server == server)
    || (p.phone.user == user && p.phone.server == server)
    || (p.lid.user == user && p.lid.server == server)
  }

  lemma NamedByForm(p: Participant, member: JID)
    requires member.server != ""
    ensures NamedBy(p, member) <==> HasForm(p, member.user, member.server)
  {
  }

  lemma NumberOf(w: World, p: Participant, number: string)
    ensures HasNumber(w.lids, p, number) <==> number != "" && PhoneOf(w.lids, p) == number
  {
  }

  lemma NumberResolved(lids: LidStore, jid: JID, number: string)
    requires number != ""
    ensures Resolves(lids, jid, number) <==> ResolvePhone(lids, jid) == number
  {
  }

  /** Participant `p` and the member have numbers with one non-empty key. */
  predicate SameNumber(w: World, p: Participant, member: JID, mine: string, theirs: string) {
    && mine != "" && Resolves(w.lids, member, mine) && HasNumber(w.lids, p, theirs)
    && Identity.Canonical(mine, w.countryCode) == Identity.Canonical(theirs, w.countryCode) != ""
  }

  lemma SamePhoneByNumber(w: World, p: Participant, member: JID)
    ensures SamePhone(w, p, member) <==> exists mine, theirs :: SameNumber(w, p, member, mine, theirs)
  {
    var mine, theirs := ResolvePhone(w.lids, member), PhoneOf(w.lids, p);
    assert Identity.Canonical("", w.countryCode) == "";
    if SamePhone(w, p, member) {
      NumberResolved(w.lids, member, mine);
      NumberOf(w, p, theirs);
      assert SameNumber(w, p, member, mine, theirs);
    }
    if x, y :| SameNumber(w, p, member, x, y) {
      NumberResolved(w.lids, member, x);
      NumberOf(w, p, y);
    }
  }

  /** Who is in: with group and member given and the query answered, exactly those of whom some participant
      has a form with the same user on the same server, or a number with the same key as one the member
      resolves to. */
  lemma MembershipByFormOrNumber(w: World, group: JID, member: JID)
    ensures Answer(w, group, member) == Ok(true) <==>
      && group.server != "" && member.server != "" && member.user != "" && group in w.groups
      && exists p :: p in w.groups[group]
           && (HasForm(p, member.user, member.server) || exists mine, theirs :: SameNumber(w, p, member, mine, theirs))
    ensures Answer(w, group, member).Err? <==>
      group.server != "" && member.server != "" && member.user != "" && group !in w.groups
  {
    if Usable(group, member) && group in w.groups {
      forall p
        ensures SamePerson(w, p, member)
          <==> HasForm(p, member.user, member.server) || exists mine, theirs :: SameNumber(w, p, member, mine, theirs)
      {
        NamedByForm(p, member);
        SamePhoneByNumber(w, p, member);
      }
    }
  }

  /** An identity the store cannot resolve is admitted exactly through a form with the same user on the same
      server, so equal digits in the two numeric namespaces never let anyone in. */
  lemma UnresolvedNeedsTheSameServer(w: World, group: JID, member: JID)
    requires ResolvePhone(w.lids, member) == ""
    ensures Answer(w, group, member) == Ok(true) <==>
      && group.server != "" && member.server != "" && member.user != "" && group in w.groups
      && exists p :: p in w.groups[group] && HasForm(p, member.user, member.server)
    ensures (group in w.groups && forall p :: p in w.groups[group] ==>
      p.jid.server != member.server && p.phone.server != member.server && p.lid.server != member.server)
      ==> Answer(w, group, member) != Ok(true)
  {
    MembershipByFormOrNumber(w, group, member);
    forall mine: string | mine != "" ensures !Resolves(w.lids, member, mine) {
      NumberResolved(w.lids, member, mine);
    }
  }

  /** A LID that the store maps to a phone JID with a digit in it is admitted to every known group that lists
      that phone JID, as a participant's JID or phone field, in any spelling of the number. */
  lemma ResolvedLidIsAdmitted(w: World, group: JID, member: JID, p: Participant, listed: JID)
    requires member.server == "lid" && member.user != "" && group.server != "" && group in w.groups
    requires member in w.lids && w.lids[member].server == "s.whatsapp.net"
    requires Identity.Digits(w.lids[member].user) != "" && GoodCode(w)
    requires p in w.groups[group] && listed.server == "s.whatsapp.net"
    requires p.phone == listed || (p.phone.user == "" && p.jid == listed)
    requires Identity.Canonical(listed.user, w.countryCode) == Identity.Canonical(w.lids[member].user, w.countryCode)
    ensures Answer(w, group, member) == Ok(true)
  {
    var mine, theirs := w.lids[member].user, listed.user;
    Identity.GoodCodeGivesGoodKey(mine, w.countryCode);
    assert Identity.Canonical("", w.countryCode) == "" && Identity.Digits("") == "";
    assert SameNumber(w, p, member, mine, theirs);
    MembershipByFormOrNumber(w, group, member);
  }

  predicate GoodCode(w: World) {
    Identity.GoodCode(w.countryCode)
  }

  /** Some participant's number has the key of `phone`. */
  ghost predicate ListsNumber(w: World, parts: seq<Participant>, phone: string) {
    exists p, theirs :: p in parts && HasNumber(w.lids, p, theirs)
      && Identity.Canonical(theirs, w.countryCode) == Identity.Canonical(phone, w.countryCode)
  }

  lemma ListsPhoneByNumber(w: World, parts: seq<Participant>, phone: string)
    requires Identity.Canonical(phone, w.countryCode) != ""
    ensures ListsPhone(w, parts, Identity.Canonical(phone, w.countryCode)) <==> ListsNumber(w, parts, phone)
  {
    assert Identity.Canonical("", w.countryCode) == "";
    var want := Identity.Canonical(phone, w.countryCode);
    if p :| p in parts && Identity.Canonical(PhoneOf(w.lids, p), w.countryCode) == want {
      NumberOf(w, p, PhoneOf(w.lids, p));
      assert HasNumber(w.lids, p, PhoneOf(w.lids, p));
    }
    if p, theirs :| p in parts && HasNumber(w.lids, p, theirs) && Identity.Canonical(theirs, w.countryCode) == want {
      NumberOf(w, p, theirs);
    }
  }

  /** The first group that fails or lists the number decides. */
  lemma {:induction false} FirstDecides(w: World, want: string, groups: seq<JID>)
    ensures AnyAnswer(w, want, groups) == Ok(true) <==> exists i :: Decides(w, want, groups, i) && groups[i] in w.groups
    ensures AnyAnswer(w, want, groups).Err? <==> exists i :: Decides(w, want, groups, i) && groups[i] !in w.groups
  {
    if groups != [] {
      var rest := groups[1..];
      FirstDecides(w, want, rest);
      if groups[0] !in w.groups || ListsPhone(w, w.groups[groups[0]], want) {
        assert Decides(w, want, groups, 0);
        assert forall i :: Decides(w, want, groups, i) ==> i == 0;
      } else {
        forall i ensures Decides(w, want, groups, i + 1) <==> Decides(w, want, rest, i) {
          if Decides(w, want, rest, i) {
            assert forall k :: 0 < k < i + 1 ==> groups[k] == rest[k - 1];
          }
          if Decides(w, want, groups, i + 1) && i >= 0 {
            assert forall k :: 0 <= k < i ==> rest[k] == groups[k + 1];
          }
        }
        assert forall i :: Decides(w, want, groups, i) ==> Decides(w, want, groups, (i - 1) + 1);
      }
    }
  }

  /** The gate says yes exactly when the phone has a key and some group lists a number with that key, every
      group before it having been answered. */
  lemma GateByNumber(w: World, phone: string, groups: seq<JID>)
    ensures GateAnswer(w, phone, groups) == Ok(true) <==>
      Identity.Canonical(phone, w.countryCode) != "" && exists i :: LetsIn(w, phone, groups, i)
  {
    var want := Identity.Canonical(phone, w.countryCode);
    if want != "" {
      FirstDecides(w, want, groups);
      forall parts: seq<Participant> ensures ListsPhone(w, parts, want) <==> ListsNumber(w, parts, phone) {
        ListsPhoneByNumber(w, parts, phone);
      }
      if i :| LetsIn(w, phone, groups, i) {
        AListingGroupDecides(w, want, groups, i);
      }
      if i :| Decides(w, want, groups, i) && groups[i] in w.groups {
        assert LetsIn(w, phone, groups, i);
      }
    }
  }

  ghost predicate LetsIn(w: World, phone: string, groups: seq<JID>, i: int) {
    && 0 <= i < |groups|
    && (forall k :: 0 <= k < i ==> groups[k] in w.groups)
    && groups[i] in w.groups && ListsNumber(w, w.groups[groups[i]], phone)
  }

  lemma {:induction false} AListingGroupDecides(w: World, want: string, groups: seq<JID>, i: nat)
    requires i < |groups| && groups[i] in w.groups && ListsPhone(w, w.groups[groups[i]], want)
    requires forall k :: 0 <= k < i ==> groups[k] in w.groups
    ensures AnyAnswer(w, want, groups) == Ok(true)
  {
    if i > 0 {
      assert forall k :: 0 <= k < i - 1 ==> groups[1..][k] == groups[k + 1];
      AListingGroupDecides(w, want, groups[1..], i - 1);
    }
  }

  predicate Decides(w: World, want: string, groups: seq<JID>, i: int) {
    && 0 <= i < |groups|
    && (forall k :: 0 <= k < i ==> groups[k] in w.groups && !ListsPhone(w, w.groups[groups[k]], want))
    && (groups[i] !in w.groups || ListsPhone(w, w.groups[groups[i]], want))
  }

  /** The identity the dashboard would check for someone the gate knows by phone. */
  function PhoneJid(phone: string): JID {
    JID(phone, 0, 0, DEFAULT_USER_SERVER)
  }

  /** A participant record that does not contradict itself: a phone-form JID carries the same
      number as the phone field, and the LID field is not a phone. */
  predicate Consistent(w: World, p: Participant) {
    && (p.jid.server == DEFAULT_USER_SERVER && p.phone.user != "" ==>
          Identity.Canonical(p.phone.user, w.countryCode) == Identity.Canonical(p.jid.user, w.countryCode))
    && p.lid.server != DEFAULT_USER_SERVER
  }

  predicate DashboardAdmits(w: World, phone: string, groups: seq<JID>) {
    exists g :: g in groups && Answer(w, g, PhoneJid(phone)) == Ok(true)
  }

  /** Whoever passes the direct-message gate passes the dashboard's membership check for one of the
      same groups. */
  lemma GateImpliesDashboard(w: World, phone: string, groups: seq<JID>)
    requires forall g :: g in groups ==> !g.IsEmpty()
    ensures GateAnswer(w, phone, groups) == Ok(true) ==> DashboardAdmits(w, phone, groups)
  {
  }

  lemma NamedBySharesPhone(w: World, p: Participant, phone: string)
    requires Consistent(w, p) && phone != ""
    requires SamePerson(w, p, PhoneJid(phone))
    ensures Identity.Canonical(PhoneOf(w.lids, p), w.countryCode) == Identity.Canonical(phone, w.countryCode)
  {
  }

  /** On answered queries and consistent records the two gates agree, for every number that has a
      digit in it at all. */
  lemma GatesAgree(w: World, phone: string, groups: seq<JID>)
    requires forall g :: g in groups ==> !g.IsEmpty() && g in w.groups
    requires forall g, p :: g in groups && p in w.groups[g] ==> Consistent(w, p)
    requires Identity.Canonical(phone, w.countryCode) != ""
    ensures GateAnswer(w, phone, groups) == Ok(true) <==> DashboardAdmits(w, phone, groups)
  {
    GateImpliesDashboard(w, phone, groups);
    if DashboardAdmits(w, phone, groups) {
      var want := Identity.Canonical(phone, w.countryCode);
      var member := PhoneJid(phone);
      var g :| g in groups && Answer(w, g, member) == Ok(true);
      var p :| p in w.groups[g] && SamePerson(w, p, member);
      assert Consistent(w, p);
      NamedBySharesPhone(w, p, phone);
      assert Identity.Canonical(PhoneOf(w.lids, p), w.countryCode) == want;
      assert ListsPhone(w, w.groups[g], want);
      match AnyAnswer(w, want, groups)
      case Err(_) => assert false;
      case Ok(hit) => assert hit;
    }
  }

  /** A number without digits is where they part: the gate refuses it, while the dashboard still
      matches it as an identity. */
  lemma GatesDisagreeWithoutDigits(w: World, phone: string, g: JID, p: Participant)
    requires phone != "" && Identity.Digits(phone) == ""
    requires !g.IsEmpty() && g in w.groups && p in w.groups[g] && p.jid == PhoneJid(phone)
    ensures GateAnswer(w, phone, [g]) == Ok(false) && DashboardAdmits(w, phone, [g])
  {
    assert NamedBy(p, PhoneJid(phone));
    assert SamePerson(w, p, PhoneJid(phone));
    assert Answer(w, g, PhoneJid(phone)) == Ok(true);
    assert g in [g];
  }
}
