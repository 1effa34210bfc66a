/** Organizations and ownership transfer (tenant/service.go, db/tenant_tx.go, auth/context.go). */
module Tenancy {
  import opened Wrappers

  datatype Role = Owner | Admin | Geologist | Viewer

  type Members = map<(string, string), Role> // (organization, user)

  /** Organizations by id with their slugs, and their memberships. */
  datatype Tenants = Tenants(slugs: map<string, string>, members: Members)

  datatype Identity = Identity(user: string, sudoExpires: Option<int>) {
    predicate HasActiveSudo(now: int) {
      sudoExpires.Some? && sudoExpires.value > now
    }
  }

  datatype Error = Unauthenticated | InvalidArgument | PermissionDenied | SudoRequired | AlreadyExists | Internal

  datatype Outcome<T> = Ok(value: T) | Err(error: Error)

  /** Where a transaction breaks off; SET LOCAL scopes it to the organization. */
  datatype TxFault = NoFault | AtBegin | AtSetLocal | AtFirst | AtSecond | AtCommit

  /** A transfer whose caller was an owner with active sudo when its role was read. */
  datatype Transfer = Transfer(org: string, caller: string, target: string)

  function CanTransferOwnership(role: Role, sudo: bool): Option<Error> {
    if role != Owner then Some(PermissionDenied)
    else if !sudo then Some(SudoRequired)
    else None
  }

  /** The read-only half of a transfer request, outside any transaction; its one query may fail. */
  function Authorize(t: Tenants, id: Identity, org: string, target: string, now: int, broken: bool): Outcome<Transfer> {
    if id.user == "" then Err(Unauthenticated)
    else if org == "" || target == "" then Err(InvalidArgument)
    else if broken || (org, id.user) !in t.members then Err(PermissionDenied)
    else
      var refused := CanTransferOwnership(t.members[(org, id.user)], id.HasActiveSudo(now));
      if refused.Some? then Err(refused.value) else Ok(Transfer(org, id.user, target))
  }

  /** An UPDATE of one membership: it touches the row if there is one. */
  function SetRole(m: Members, org: string, user: string, role: Role): Members {
    if (org, user) in m then m[(org, user) := role] else m
  }

  /** The transaction of a transfer: demote the caller, promote the target, undo both if there is no target. */
  function CommitTransfer(t: Tenants, tr: Transfer, fault: TxFault): (Tenants, bool) {
    if tr.org == "" || fault != NoFault then (t, false)
    else
      var demoted := SetRole(t.members, tr.org, tr.caller, Admin);
      if (tr.org, tr.target) !in demoted then (t, false)
      else (t.(members := SetRole(demoted, tr.org, tr.target, Owner)), true)
  }

  /** A new organization and its first owner in one transaction; `org` is the id the database mints. */
  function Create(t: Tenants, id: Identity, name: string, slug: string, org: string, fault: TxFault)
    : (Tenants, Outcome<string>)
  {
    if id.user == "" then (t, Err(Unauthenticated))
    else if name == "" || slug == "" then (t, Err(InvalidArgument))
    else if fault == AtBegin then (t, Err(Internal))
    else if slug in t.slugs.Values || fault == AtFirst then (t, Err(AlreadyExists))
    else if fault in {AtSecond, AtCommit} then (t, Err(Internal))
    else (Tenants(t.slugs[org := slug], t.members[(org, id.user) := Owner]), Ok(org))
  }

  // ---------- the service ----------

  const MOCK_ORG: string := "org-created-mock"

  class Service {
    /** Without a database, as in tests, everybody passes for an owner and nothing is stored. */
    const connected: bool
    var slugs: map<string, string>
    var members: Members

    function Contents(): Tenants
      reads this
    {
      Tenants(slugs, members)
    }

    constructor (connected: bool)
      ensures this.connected == connected && Contents() == Tenants(map[], map[])
    {
      this.connected := connected;
      slugs, members := map[], map[];
    }

    /** The stored role; a query that fails for another reason than an empty answer is an internal error. */
    method GetCallerRole(org: string, user: string, broken: bool) returns (role: Outcome<Role>)
      ensures role == if !connected then Ok(Owner)
                      else if broken then Err(Internal)
                      else if (org, user) in members then Ok(members[(org, user)]) else Err(PermissionDenied)
    {
      if !connected {
        return Ok(Owner);
      }
      if broken {
        return Err(Internal);
      }
      if (org, user) !in members {
        return Err(PermissionDenied);
      }
      role := Ok(members[(org, user)]);
    }

    method CreateOrganization(id: Identity, name: string, slug: string, org: string, fault: TxFault)
      returns (r: Outcome<string>)
      modifies this
      ensures connected ==> (Contents(), r) == Create(old(Contents()), id, name, slug, org, fault)
      ensures !connected ==>
                && Contents() == old(Contents())
                && r == if id.user == "" then Err(Unauthenticated)
                        else if name == "" || slug == "" then Err(InvalidArgument) else Ok(MOCK_ORG)
    {
      if id.user == "" {
        return Err(Unauthenticated);
      }
      if name == "" || slug == "" {
        return Err(InvalidArgument);
      }
      if !connected {
        return Ok(MOCK_ORG);
      }
      if fault == AtBegin {
        return Err(Internal);
      }
      var txSlugs, txMembers := slugs, members;
      if slug in txSlugs.Values || fault == AtFirst {
        return Err(AlreadyExists);
      }
      txSlugs := txSlugs[org := slug];
      if fault == AtSecond {
        return Err(Internal);
      }
      txMembers := txMembers[(org, id.user) := Owner];
      if fault == AtCommit {
        return Err(Internal);
      }
      slugs, members := txSlugs, txMembers;
      r := Ok(org);
    }

    /** The guards of a transfer: identity, arguments, then the caller's role as it is now. */
    method BeginTransfer(id: Identity, org: string, target: string, now: int, broken: bool)
      returns (r: Outcome<Transfer>)
      ensures connected ==> r == Authorize(Contents(), id, org, target, now, broken)
      ensures !connected ==>
                r == if id.user == "" then Err(Unauthenticated)
                     else if org == "" || target == "" then Err(InvalidArgument)
                     else if !id.HasActiveSudo(now) then Err(SudoRequired) else Ok(Transfer(org, id.user, target))
    {
      if id.user == "" {
        return Err(Unauthenticated);
      }
      if org == "" || target == "" {
        return Err(InvalidArgument);
      }
      var role := GetCallerRole(org, id.user, broken);
      if role.Err? {
        return Err(PermissionDenied); // whatever the reason
      }
      var refused := CanTransferOwnership(role.value, id.HasActiveSudo(now));
      if refused.Some? {
        return Err(refused.value);
      }
      r := Ok(Transfer(org, id.user, target));
    }

    /** The tenant transaction: whatever fails on the way, the memberships change at the commit or not at all. */
    method FinishTransfer(tr: Transfer, fault: TxFault) returns (ok: bool)
      modifies this
      ensures connected ==> (Contents(), ok) == CommitTransfer(old(Contents()), tr, fault)
      ensures !connected ==> ok && Contents() == old(Contents())
    {
      if !connected {
        return true;
      }
      if tr.org == "" || fault in {AtBegin, AtSetLocal} {
        return false;
      }
      var tx := members;
      if fault == AtFirst {
        return false;
      }
      if (tr.org, tr.caller) in tx {
        tx := tx[(tr.org, tr.caller) := Admin];
      }
      if fault == AtSecond {
        return false;
      }
      var rowsAffected := 0;
      if (tr.org, tr.target) in tx {
        tx := tx[(tr.org, tr.target) := Owner];
        rowsAffected := 1;
      }
      if rowsAffected == 0 || fault == AtCommit {
        return false;
      }
      members := tx;
      ok := true;
    }
  }

  // ---------- owners ----------

  function Owners(t: Tenants, org: string): set<string> {
    set k | k in t.members && k.0 == org && t.members[k] == Owner :: k.1
  }

  /** Exactly what a transfer transaction does to the owners of every organization. */
  lemma TransferOwners(t: Tenants, tr: Transfer, fault: TxFault, org: string)
    ensures var (t', ok) := CommitTransfer(t, tr, fault);
            && (!ok ==> t' == t)
            && (ok <==> tr.org != "" && fault == NoFault && (tr.org, tr.target) in t.members)
            && t'.members.Keys == t.members.Keys && t'.slugs == t.slugs
            && Owners(t', org) == if ok && org == tr.org then (Owners(t, org) - {tr.caller}) + {tr.target}
                                  else Owners(t, org)
  {
    var (t', ok) := CommitTransfer(t, tr, fault);
    if ok {
      var expected := if org == tr.org then (Owners(t, org) - {tr.caller}) + {tr.target} else Owners(t, org);
      forall u: string ensures u in Owners(t', org) <==> u in expected {
        OwnersMeaning(t, org, u);
        OwnersMeaning(t', org, u);
      }
    }
  }

  /** What an accepted transfer leaves behind, membership by membership: the target is owner, the caller, unless
      it is the target, is admin if it still is a member, and nobody else's role changes anywhere. */
  lemma RolesAfterTransfer(t: Tenants, tr: Transfer, fault: TxFault, org: string, user: string)
    requires CommitTransfer(t, tr, fault).1
    ensures var m, m' := t.members, CommitTransfer(t, tr, fault).0.members;
            && ((org, user) in m' <==> (org, user) in m)
            && ((org, user) in m ==>
                  m'[(org, user)] == if org == tr.org && user == tr.target then Owner
                                     else if org == tr.org && user == tr.caller then Admin
                                     else m[(org, user)])
  {
  }

  /** When a creation succeeds, what it stores, and how it is refused otherwise. */
  lemma CreatedExactlyWhen(t: Tenants, id: Identity, name: string, slug: string, org: string, fault: TxFault)
    ensures var (t', r) := Create(t, id, name, slug, org, fault);
            var asked := id.user != "" && name != "" && slug != "";
            var used := exists o | o in t.slugs :: t.slugs[o] == slug;
            && (r == Err(Unauthenticated) <==> id.user == "")
            && (r == Err(InvalidArgument) <==> id.user != "" && !asked)
            && (r == Err(AlreadyExists) <==> asked && fault != AtBegin && (used || fault == AtFirst))
            && (r == Err(Internal) <==>
                  asked && (fault == AtBegin || (!used && (fault == AtSecond || fault == AtCommit))))
            && (r.Ok? <==> asked && !used && (fault == NoFault || fault == AtSetLocal))
            && (!r.Ok? ==> t' == t)
            && (r.Ok? ==>
                  && r.value == org
                  && (forall o :: o in t'.slugs <==> o == org || o in t.slugs)
                  && (forall o | o in t'.slugs :: t'.slugs[o] == if o == org then slug else t.slugs[o])
                  && (forall k :: k in t'.members <==> k == (org, id.user) || k in t.members)
                  && forall k | k in t'.members :: t'.members[k] == if k == (org, id.user) then Owner else t.members[k])
  {
    assert slug in t.slugs.Values <==> exists o | o in t.slugs :: t.slugs[o] == slug;
  }

  lemma OwnersMeaning(t: Tenants, org: string, u: string)
    ensures u in Owners(t, org) <==> (org, u) in t.members && t.members[(org, u)] == Owner
  {
    if (org, u) in t.members && t.members[(org, u)] == Owner {
      assert (org, u).0 == org && (org, u).1 == u;
    }
  }

  /** Whose transfers get past the guards, and how each of the others is refused. */
  lemma AuthorizedExactlyWhen(t: Tenants, id: Identity, org: string, target: string, now: int, broken: bool)
    ensures var r := Authorize(t, id, org, target, now, broken);
            var asked := id.user != "" && org != "" && target != "";
            var owns := !broken && id.user in Owners(t, org);
            var sudo := id.sudoExpires.Some? && now < id.sudoExpires.value;
            && (r.Ok? <==> asked && owns && sudo)
            && (r.Ok? ==> r.value == Transfer(org, id.user, target))
            && (r == Err(Unauthenticated) <==> id.user == "")
            && (r == Err(InvalidArgument) <==> id.user != "" && !asked)
            && (r == Err(PermissionDenied) <==> asked && !owns)
            && (r == Err(SudoRequired) <==> asked && owns && !sudo)
  {
    OwnersMeaning(t, org, id.user);
  }

  /** A transfer to somebody who is not a member changes nothing. */
  lemma NonMemberTargetIsRefused(t: Tenants, tr: Transfer, fault: TxFault)
    requires (tr.org, tr.target) !in t.members
    ensures CommitTransfer(t, tr, fault) == (t, false)
  {
    TransferOwners(t, tr, fault, tr.org);
  }

  /** After a transfer of an organization with one owner there is again exactly one if and only if that owner
      is still the caller, or already the target, when the transaction runs. */
  lemma OneOwnerExactlyWhen(t: Tenants, tr: Transfer, owner: string)
    requires Owners(t, tr.org) == {owner} && CommitTransfer(t, tr, NoFault).1
    ensures |Owners(CommitTransfer(t, tr, NoFault).0, tr.org)| == 1 <==> owner == tr.caller || owner == tr.target
    ensures owner != tr.caller && owner != tr.target ==>
              Owners(CommitTransfer(t, tr, NoFault).0, tr.org) == {owner, tr.target}
  {
    TransferOwners(t, tr, NoFault, tr.org);
    if owner == tr.caller || owner == tr.target {
      assert ({owner} - {tr.caller}) + {tr.target} == {tr.target};
    } else {
      assert ({owner} - {tr.caller}) + {tr.target} == {owner, tr.target};
    }
  }

  // ---------- runs ----------

  /** The tenants and the transfers that passed their guards but have not run their transaction; the same
      request may be in flight more than once. */
  datatype Sys = Sys(tenants: Tenants, pending: multiset<Transfer>)

  datatype Step =
    | CreateOrg(id: Identity, name: string, slug: string, org: string, fault: TxFault)
    | ReadRole(id: Identity, org: string, target: string, now: int, broken: bool)
    | Commit(tr: Transfer, fault: TxFault)

  ghost predicate Enabled(s: Sys, st: Step) {
    match st
    case CreateOrg(id, name, slug, org, fault) => // a minted id is new
      org !in s.tenants.slugs && forall u: string :: (org, u) !in s.tenants.members
    case ReadRole(id, org, target, now, broken) => true
    case Commit(tr, fault) => tr in s.pending
  }

  function Next(s: Sys, st: Step): Sys {
    match st
    case CreateOrg(id, name, slug, org, fault) => s.(tenants := Create(s.tenants, id, name, slug, org, fault).0)
    case ReadRole(id, org, target, now, broken) =>
      var r := Authorize(s.tenants, id, org, target, now, broken);
      if r.Ok? then s.(pending := s.pending + multiset{r.value}) else s
    case Commit(tr, fault) => Sys(CommitTransfer(s.tenants, tr, fault).0, s.pending - multiset{tr})
  }

  ghost predicate Run(s: Sys, sts: seq<Step>, s': Sys)
    decreases |sts|
  {
    if sts == [] then s' == s else Enabled(s, sts[0]) && Run(Next(s, sts[0]), sts[1..], s')
  }

  /** No organization has two transfers between role read and commit. */
  ghost predicate SerializedRun(s: Sys, sts: seq<Step>, s': Sys)
    decreases |sts|
  {
    if sts == [] then s' == s
    else
      && Enabled(s, sts[0])
      && (sts[0].ReadRole? ==> forall tr | tr in s.pending :: tr.org != sts[0].org)
      && SerializedRun(Next(s, sts[0]), sts[1..], s')
  }

  ghost predicate SlugsUnique(t: Tenants) {
    forall a, b | a in t.slugs && b in t.slugs && t.slugs[a] == t.slugs[b] :: a == b
  }

  /** Every membership belongs to an organization, every organization has an owner, and slugs are unique. */
  ghost predicate Owned(t: Tenants) {
    && SlugsUnique(t)
    && (forall org | org in t.slugs :: Owners(t, org) != {})
    && forall k | k in t.members :: k.0 in t.slugs
  }

  lemma CreateOwners(t: Tenants, id: Identity, name: string, slug: string, org: string, fault: TxFault, o: string)
    requires forall u: string :: (org, u) !in t.members
    ensures var (t', r) := Create(t, id, name, slug, org, fault);
            Owners(t', o) == (if r.Ok? && o == org then {id.user} else Owners(t, o))
  {
    var (t', r) := Create(t, id, name, slug, org, fault);
    if r.Ok? {
      forall u: string ensures u in Owners(t', o) <==> u in if o == org then {id.user} else Owners(t, o) {
        OwnersMeaning(t, o, u);
        OwnersMeaning(t', o, u);
      }
    }
  }

  lemma NextKeepsSlugs(s: Sys, st: Step)
    requires SlugsUnique(s.tenants) && Enabled(s, st)
    ensures SlugsUnique(Next(s, st).tenants)
  {
    if st.CreateOrg? && Next(s, st).tenants.slugs != s.tenants.slugs {
      assert forall o | o in s.tenants.slugs :: s.tenants.slugs[o] in s.tenants.slugs.Values;
      assert Next(s, st).tenants.slugs == s.tenants.slugs[st.org := st.slug];
    }
  }

  lemma NextKeepsOwned(s: Sys, st: Step)
    requires Owned(s.tenants) && Enabled(s, st)
    ensures Owned(Next(s, st).tenants)
  {
    var s' := Next(s, st);
    NextKeepsSlugs(s, st);
    forall org | org in s'.tenants.slugs ensures Owners(s'.tenants, org) != {} {
      match st
      case CreateOrg(id, name, slug, o, fault) => CreateOwners(s.tenants, id, name, slug, o, fault, org);
      case ReadRole(id, o, target, now, broken) =>
      case Commit(tr, fault) => TransferOwners(s.tenants, tr, fault, org);
    }
    if st.Commit? {
      TransferOwners(s.tenants, st.tr, st.fault, st.tr.org);
    }
  }

  /** Every organization keeps at least one owner, however creations, role reads and transfer transactions
      interleave, whatever fails, and also when somebody transfers to themselves. */
  lemma {:induction false} SomebodyAlwaysOwns(s: Sys, sts: seq<Step>, s': Sys)
    requires Owned(s.tenants) && Run(s, sts, s')
    ensures Owned(s'.tenants)
    decreases |sts|
  {
    if sts != [] {
      NextKeepsOwned(s, sts[0]);
      SomebodyAlwaysOwns(Next(s, sts[0]), sts[1..], s');
    }
  }

  /** Exactly one owner each, and whoever is about to transfer is that owner. */
  ghost predicate SoleOwners(s: Sys) {
    && (forall org | org in s.tenants.slugs :: |Owners(s.tenants, org)| == 1)
    && (forall k | k in s.tenants.members :: k.0 in s.tenants.slugs)
    && (forall tr | tr in s.pending :: tr.org in s.tenants.slugs && Owners(s.tenants, tr.org) == {tr.caller})
    && OneEach(s.pending)
  }

  /** At most one transfer of each organization is in flight. */
  ghost predicate OneEach(pending: multiset<Transfer>) {
    forall tr, tr' | tr in pending && tr' in pending && tr.org == tr'.org :: tr == tr' && pending[tr] == 1
  }

  lemma OneEachAdds(pending: multiset<Transfer>, tr: Transfer)
    requires OneEach(pending) && forall tr' | tr' in pending :: tr'.org != tr.org
    ensures OneEach(pending + multiset{tr})
  {
  }

  lemma OneEachRemoves(pending: multiset<Transfer>, tr: Transfer)
    requires OneEach(pending) && tr in pending
    ensures OneEach(pending - multiset{tr})
    ensures forall tr' | tr' in pending - multiset{tr} :: tr' in pending && tr'.org != tr.org
  {
    assert tr !in pending - multiset{tr};
  }

  lemma SoleMember(a: set<string>, u: string)
    requires |a| == 1 && u in a
    ensures a == {u}
  {
    assert |a - {u}| == 0;
  }

  lemma CommitKeepsSoleOwners(s: Sys, tr: Transfer, fault: TxFault)
    requires SoleOwners(s) && tr in s.pending
    ensures SoleOwners(Next(s, Commit(tr, fault)))
  {
    var s' := Next(s, Commit(tr, fault));
    OneEachRemoves(s.pending, tr);
    TransferOwners(s.tenants, tr, fault, tr.org);
    assert ({tr.caller} - {tr.caller}) + {tr.target} == {tr.target};
    forall org | org in s'.tenants.slugs ensures |Owners(s'.tenants, org)| == 1 {
      TransferOwners(s.tenants, tr, fault, org);
    }
    forall x | x in s'.pending ensures x.org in s'.tenants.slugs && Owners(s'.tenants, x.org) == {x.caller} {
      TransferOwners(s.tenants, tr, fault, x.org);
    }
  }

  lemma CreateKeepsSoleOwners(s: Sys, st: Step)
    requires SoleOwners(s) && Enabled(s, st) && st.CreateOrg?
    ensures SoleOwners(Next(s, st))
  {
    var s' := Next(s, st);
    forall org | org in s'.tenants.slugs ensures |Owners(s'.tenants, org)| == 1 {
      CreateOwners(s.tenants, st.id, st.name, st.slug, st.org, st.fault, org);
    }
    forall tr | tr in s'.pending ensures tr.org in s'.tenants.slugs && Owners(s'.tenants, tr.org) == {tr.caller} {
      CreateOwners(s.tenants, st.id, st.name, st.slug, st.org, st.fault, tr.org);
    }
  }

  lemma ReadKeepsSoleOwners(s: Sys, st: Step)
    requires SoleOwners(s) && st.ReadRole? && forall tr | tr in s.pending :: tr.org != st.org
    ensures SoleOwners(Next(s, st))
  {
    var r := Authorize(s.tenants, st.id, st.org, st.target, st.now, st.broken);
    if r.Ok? {
      AuthorizedExactlyWhen(s.tenants, st.id, st.org, st.target, st.now, st.broken);
      OwnersMeaning(s.tenants, st.org, st.id.user);
      assert (st.org, st.id.user).0 in s.tenants.slugs;
      SoleMember(Owners(s.tenants, st.org), st.id.user);
      OneEachAdds(s.pending, r.value);
    }
  }

  lemma NextKeepsSoleOwners(s: Sys, st: Step)
    requires SoleOwners(s) && Enabled(s, st)
    requires st.ReadRole? ==> forall tr | tr in s.pending :: tr.org != st.org
    ensures SoleOwners(Next(s, st))
  {
    match st
    case CreateOrg(_, _, _, _, _) => CreateKeepsSoleOwners(s, st);
    case ReadRole(_, _, _, _, _) => ReadKeepsSoleOwners(s, st);
    case Commit(tr, fault) => CommitKeepsSoleOwners(s, tr, fault);
  }

  /** Exactly one owner stays exactly one while the transfers of each organization are serialized. */
  lemma {:induction false} SerializedTransfersKeepOneOwner(s: Sys, sts: seq<Step>, s': Sys)
    requires SoleOwners(s) && SerializedRun(s, sts, s')
    ensures SoleOwners(s')
    decreases |sts|
  {
    if sts != [] {
      NextKeepsSoleOwners(s, sts[0]);
      SerializedTransfersKeepOneOwner(Next(s, sts[0]), sts[1..], s');
    }
  }

  /** A creation that succeeds is part of the state from then on, and has no bearing on transfers in flight. */
  lemma CreationIsStored(s: Sys, id: Identity, name: string, slug: string, org: string)
    requires id.user != "" && name != "" && slug != "" && forall o | o in s.tenants.slugs :: s.tenants.slugs[o] != slug
    ensures var s' := Next(s, CreateOrg(id, name, slug, org, NoFault));
            && s'.pending == s.pending
            && org in s'.tenants.slugs && s'.tenants.slugs[org] == slug
            && (org, id.user) in s'.tenants.members && s'.tenants.members[(org, id.user)] == Owner
  {
    CreatedExactlyWhen(s.tenants, id, name, slug, org, NoFault);
  }

  lemma {:induction false} RunSnoc(s: Sys, sts: seq<Step>, m: Sys, st: Step)
    requires Run(s, sts, m) && Enabled(m, st)
    ensures Run(s, sts + [st], Next(m, st))
    decreases |sts|
  {
    if sts == [] {
      assert ([] + [st])[1..] == [];
    } else {
      assert (sts + [st])[1..] == sts[1..] + [st];
      RunSnoc(Next(s, sts[0]), sts[1..], m, st);
    }
  }

  /** An owner with active sudo asks for a transfer and gets past the guards. */
  lemma Asks(s: Sys, sts: seq<Step>, m: Sys, id: Identity, org: string, target: string, now: int)
    returns (sts': seq<Step>, m': Sys)
    requires Run(s, sts, m)
    requires id.user != "" && org != "" && target != "" && id.HasActiveSudo(now) && id.user in Owners(m.tenants, org)
    ensures sts' == sts + [ReadRole(id, org, target, now, false)] && Run(s, sts', m')
    ensures m' == m.(pending := m.pending + multiset{Transfer(org, id.user, target)})
  {
    AuthorizedExactlyWhen(m.tenants, id, org, target, now, false);
    var st := ReadRole(id, org, target, now, false);
    RunSnoc(s, sts, m, st);
    sts', m' := sts + [st], Next(m, st);
  }

  /** A transfer in flight to a member commits. */
  lemma Commits(s: Sys, sts: seq<Step>, m: Sys, tr: Transfer) returns (sts': seq<Step>, m': Sys)
    requires Run(s, sts, m) && tr in m.pending && tr.org != "" && (tr.org, tr.target) in m.tenants.members
    ensures sts' == sts + [Commit(tr, NoFault)] && Run(s, sts', m')
    ensures m'.pending == m.pending - multiset{tr} && m'.tenants.members.Keys == m.tenants.members.Keys
    ensures Owners(m'.tenants, tr.org) == (Owners(m.tenants, tr.org) - {tr.caller}) + {tr.target}
  {
    TransferOwners(m.tenants, tr, NoFault, tr.org);
    var st := Commit(tr, NoFault);
    RunSnoc(s, sts, m, st);
    sts', m' := sts + [st], Next(m, st);
  }

  lemma TwoAsked(t: Tenants, id: Identity, org: string, b: string, c: string, now: int)
    returns (sts: seq<Step>, s': Sys)
    requires id.user != "" && org != "" && b != "" && c != "" && id.user in Owners(t, org) && id.HasActiveSudo(now)
    ensures sts == [ReadRole(id, org, b, now, false), ReadRole(id, org, c, now, false)]
    ensures Run(Sys(t, multiset{}), sts, s')
    ensures s' == Sys(t, multiset{Transfer(org, id.user, b), Transfer(org, id.user, c)})
  {
    var s := Sys(t, multiset{});
    sts, s' := Asks(s, [], s, id, org, b, now);
    sts, s' := Asks(s, sts, s', id, org, c, now);
  }

  /** One owner has two requests in flight, possibly the same one twice, and the first of them commits. */
  lemma TwoAskedOneDone(t: Tenants, id: Identity, org: string, b: string, c: string, now: int)
    returns (sts: seq<Step>, s': Sys)
    requires id.user != "" && org != "" && b != "" && c != "" && id.user != b
    requires Owners(t, org) == {id.user} && (org, b) in t.members && id.HasActiveSudo(now)
    ensures sts == [ReadRole(id, org, b, now, false), ReadRole(id, org, c, now, false),
                    Commit(Transfer(org, id.user, b), NoFault)]
    ensures Run(Sys(t, multiset{}), sts, s')
    ensures s'.pending == multiset{Transfer(org, id.user, c)} && Owners(s'.tenants, org) == {b}
    ensures s'.tenants.members.Keys == t.members.Keys
  {
    sts, s' := TwoAsked(t, id, org, b, c, now);
    sts, s' := Commits(Sys(t, multiset{}), sts, s', Transfer(org, id.user, b));
  }

  /** Two transfers of one owner that both read the role before either commits leave two owners. */
  lemma OverlappingTransfersMakeTwoOwners(t: Tenants, id: Identity, org: string, b: string, c: string, now: int)
    returns (sts: seq<Step>, s': Sys)
    requires id.user != "" && org != "" && b != "" && c != ""
    requires id.user != b && id.user != c && b != c
    requires Owners(t, org) == {id.user} && (org, b) in t.members && (org, c) in t.members && id.HasActiveSudo(now)
    ensures sts == [ReadRole(id, org, b, now, false), ReadRole(id, org, c, now, false),
                    Commit(Transfer(org, id.user, b), NoFault), Commit(Transfer(org, id.user, c), NoFault)]
    ensures Run(Sys(t, multiset{}), sts, s') && Owners(s'.tenants, org) == {b, c}
  {
    sts, s' := TwoAskedOneDone(t, id, org, b, c, now);
    sts, s' := Commits(Sys(t, multiset{}), sts, s', Transfer(org, id.user, c));
  }

  /** So does a request sent twice, although both name the same people, if the new owner has handed on before
      the second one commits. */
  lemma RepeatedRequestMakesTwoOwners(t: Tenants, id: Identity, heir: Identity, org: string, c: string, now: int)
    returns (sts: seq<Step>, s': Sys)
    requires id.user != "" && org != "" && heir.user != "" && c != ""
    requires id.user != heir.user && id.user != c && heir.user != c
    requires Owners(t, org) == {id.user} && (org, heir.user) in t.members && (org, c) in t.members
    requires id.HasActiveSudo(now) && heir.HasActiveSudo(now)
    ensures var ask := ReadRole(id, org, heir.user, now, false);
            var commit := Commit(Transfer(org, id.user, heir.user), NoFault);
            sts == [ask, ask, commit, ReadRole(heir, org, c, now, false),
                    Commit(Transfer(org, heir.user, c), NoFault), commit]
    ensures Run(Sys(t, multiset{}), sts, s') && Owners(s'.tenants, org) == {heir.user, c}
  {
    sts, s' := TwoAskedOneDone(t, id, org, heir.user, heir.user, now);
    var s, first := Sys(t, multiset{}), Transfer(org, id.user, heir.user);
    sts, s' := Asks(s, sts, s', heir, org, c, now);
    sts, s' := Commits(s, sts, s', Transfer(org, heir.user, c));
    assert s'.pending == multiset{first};
    sts, s' := Commits(s, sts, s', first);
  }
}
