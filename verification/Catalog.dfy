/** The declaration of every relation the schema may contain, and the checks that keep it true of a real schema. */
module Catalog {
  import opened Options
  import opened SortedNames

  /** The three sets Validate keeps apart, in the order it reads them. */
  datatype Home = Tenant | NonTenantModel | Infrastructure

  datatype Problem =
    | ListedTwice(name: string, home: Home)
    | DeclaredInBoth(name: string, home: Home, other: Home)
    | ChildNotTenant(name: string)
    | PendingNotModel(name: string)
    | ExceptionNotModel(name: string)
    | LandsAtNotModel(name: string)
    | FreeAndLanding(name: string)
    | ChildTwice(name: string)
    | AppendOnlyNotModel(name: string)
    | AppendOnlyTwice(name: string)
    | PendingExists(name: string)
    | Missing(name: string)

  /** What one loop looks for in each name it visits; the schema checks know the existing relations. */
  datatype Rule =
    | Children
    | PendingNames
    | Exceptions
    | LandsAt
    | ChildrenTwice
    | AppendOnlyNames
    | AppendsTwice
    | Landed(existing: seq<string>)
    | Absent(existing: seq<string>)

  /** A name in one of the three sets. */
  datatype Listing = Listing(home: Home, name: string)

  predicate Repeated(names: seq<string>, name: string) {
    exists i, j | 0 <= i < j < |names| :: names[i] == name && names[j] == name
  }

  predicate Distinct(names: seq<string>) {
    forall i, j | 0 <= i < j < |names| :: names[i] != names[j]
  }

  /** The names that were listed before, among the first `n`, each as often as it is listed again. */
  function Repeats(names: seq<string>, n: nat): seq<string>
    requires n <= |names|
  {
    if n == 0 then []
    else Repeats(names, n - 1) + (if names[n - 1] in names[..n - 1] then [names[n - 1]] else [])
  }

  /** Where a name was listed first, among the first `n` listings. */
  function FirstHome(listings: seq<Listing>, n: nat, name: string): Option<Home>
    requires n <= |listings|
  {
    if n == 0 then None
    else
      match FirstHome(listings, n - 1, name)
      case Some(home) => Some(home)
      case None => if listings[n - 1].name == name then Some(listings[n - 1].home) else None
  }

  /** The complaint about a listing whose name was first listed in `first`. */
  function Complaint(first: Home, listing: Listing): Problem {
    if first == listing.home then ListedTwice(listing.name, first)
    else DeclaredInBoth(listing.name, first, listing.home)
  }

  /** Every listing after the first of the same name is complained about, against that first one. */
  function Complaints(listings: seq<Listing>, n: nat): seq<Problem>
    requires n <= |listings|
  {
    if n == 0 then []
    else
      match FirstHome(listings, n - 1, listings[n - 1].name)
      case Some(first) => Complaints(listings, n - 1) + [Complaint(first, listings[n - 1])]
      case None => Complaints(listings, n - 1)
  }

  function AllComplaints(listings: seq<Listing>): seq<Problem> {
    Complaints(listings, |listings|)
  }

  datatype Classification = Classification(
    tenant: seq<string>,
    tenantChildren: seq<string>,
    appendOnly: seq<string>,
    nonTenantModel: seq<string>,
    infrastructure: seq<string>,
    noPolicy: seq<string>,
    pending: map<string, string>,
    policyLandsAt: map<string, int>)
  {
    // ---- Specification ----

    function Members(home: Home): seq<string> {
      match home
      case Tenant => tenant
      case NonTenantModel => nonTenantModel
      case Infrastructure => infrastructure
    }

    function Total(): nat {
      |tenant| + |nonTenantModel| + |infrastructure|
    }

    function ListingAt(k: nat): Listing
      requires k < Total()
    {
      if k < |tenant| then Listing(Tenant, tenant[k])
      else if k < |tenant| + |nonTenantModel| then Listing(NonTenantModel, nonTenantModel[k - |tenant|])
      else Listing(Infrastructure, infrastructure[k - |tenant| - |nonTenantModel|])
    }

    /** The names of the three sets, one set after the other. */
    function Listings(): (listings: seq<Listing>)
      ensures |listings| == Total()
      ensures forall k | 0 <= k < Total() :: listings[k] == ListingAt(k)
    {
      seq(Total(), k requires 0 <= k < Total() => ListingAt(k))
    }

    predicate IsModel(name: string) {
      name in tenant || name in nonTenantModel
    }

    /**
     What Validate must report, and nothing else. A name is held against the first set that lists it: a repeat in that
     set is a name listed twice, and one in a later set a name declared in both.
     */
    predicate Wrong(p: Problem) {
      match p
      case ListedTwice(name, home) =>
        && Repeated(Members(home), name)
        && (home != Tenant ==> name !in tenant)
        && (home == Infrastructure ==> name !in nonTenantModel)
      case DeclaredInBoth(name, Tenant, NonTenantModel) => name in tenant && name in nonTenantModel
      case DeclaredInBoth(name, Tenant, Infrastructure) => name in tenant && name in infrastructure
      case DeclaredInBoth(name, NonTenantModel, Infrastructure) =>
        name !in tenant && name in nonTenantModel && name in infrastructure
      case ChildNotTenant(name) => name in tenantChildren && name !in tenant
      case PendingNotModel(name) => name in pending && !IsModel(name)
      case ExceptionNotModel(name) => name in noPolicy && !IsModel(name)
      case LandsAtNotModel(name) => name in policyLandsAt && !IsModel(name)
      case FreeAndLanding(name) => name in policyLandsAt && name in noPolicy
      case ChildTwice(name) => Repeated(tenantChildren, name)
      case AppendOnlyNotModel(name) => name in appendOnly && !IsModel(name)
      case AppendOnlyTwice(name) => Repeated(appendOnly, name)
      case _ => false
    }

    /** What CheckPending must report, and nothing else. */
    predicate LedgerWrong(existing: seq<string>, p: Problem) {
      match p
      case PendingExists(name) => name in pending && name in existing
      case Missing(name) => IsModel(name) && name !in pending && name !in existing
      case _ => false
    }

    /** What a rule has to say about one name. */
    function Report(rule: Rule, name: string): seq<Problem> {
      match rule
      case Children => if name in tenant then [] else [ChildNotTenant(name)]
      case PendingNames => if IsModel(name) then [] else [PendingNotModel(name)]
      case Exceptions => if IsModel(name) then [] else [ExceptionNotModel(name)]
      case LandsAt =>
        (if IsModel(name) then [] else [LandsAtNotModel(name)])
        + (if name in noPolicy then [FreeAndLanding(name)] else [])
      case ChildrenTwice => [ChildTwice(name)]
      case AppendOnlyNames => if IsModel(name) then [] else [AppendOnlyNotModel(name)]
      case AppendsTwice => [AppendOnlyTwice(name)]
      case Landed(existing) => if name in existing then [PendingExists(name)] else []
      case Absent(existing) => if name !in pending && name !in existing then [Missing(name)] else []
    }

    /** What a rule has to say about the first `n` names, in their order. */
    function Reports(rule: Rule, names: seq<string>, n: nat): seq<Problem>
      requires n <= |names|
    {
      if n == 0 then [] else Reports(rule, names, n - 1) + Report(rule, names[n - 1])
    }

    function Findings(rule: Rule, names: seq<string>): seq<Problem> {
      Reports(rule, names, |names|)
    }

    /** The problems in the order Validate lists them. */
    ghost function AllFindings(): seq<Problem> {
      AllComplaints(Listings())
      + (Findings(Children, tenantChildren)
         + (Findings(PendingNames, KeysOf(pending.Keys))
            + (Findings(Exceptions, noPolicy)
               + (Findings(LandsAt, KeysOf(policyLandsAt.Keys))
                  + (Findings(ChildrenTwice, Repeats(tenantChildren, |tenantChildren|))
                     + (Findings(AppendOnlyNames, appendOnly)
                        + Findings(AppendsTwice, Repeats(appendOnly, |appendOnly|))))))))
    }

    /** The problems in the order CheckPending lists them. */
    ghost function LedgerFindings(existing: seq<string>): seq<Problem> {
      Findings(Landed(existing), KeysOf(pending.Keys))
      + Findings(Absent(existing), SortNames(tenant + nonTenantModel))
    }

    /** The relations no set accounts for, in the order they are given. */
    function Unknown(existing: seq<string>, n: nat): seq<string>
      requires n <= |existing|
    {
      if n == 0 then []
      else
        var name := existing[n - 1];
        Unknown(existing, n - 1) + (if IsModel(name) || name in infrastructure then [] else [name])
    }

    predicate Unclassified(existing: seq<string>, name: string) {
      name in existing && !IsModel(name) && name !in infrastructure
    }

    // ---- The program ----

    /** Every model table as often as it is declared, in order. */
    method ModelTables() returns (all: seq<string>)
      ensures Sorted(all) && multiset(all) == multiset(tenant + nonTenantModel)
    {
      all := tenant + nonTenantModel;
      SortNamesSorts(all);
      all := SortNames(all);
    }

    method IsModelTable(name: string) returns (found: bool)
      ensures found <==> IsModel(name)
    {
      found := Contains(tenant, name);
      if !found {
        found := Contains(nonTenantModel, name);
      }
    }

    function HomeAt(h: nat): Home {
      if h == 0 then Tenant else if h == 1 then NonTenantModel else Infrastructure
    }

    /** Where each of the three sets starts in the listings, and where the last one ends. */
    function StartAt(h: nat): nat {
      if h == 0 then 0 else if h == 1 then |tenant| else if h == 2 then |tenant| + |nonTenantModel| else Total()
    }

    lemma SetsFollow(h: nat)
      requires h < 3
      ensures Holds(Listings(), StartAt(h), HomeAt(h), Members(HomeAt(h)))
      ensures StartAt(h + 1) == StartAt(h) + |Members(HomeAt(h))|
    {
      var all, names := Listings(), Members(HomeAt(h));
      forall k | 0 <= k < |names| ensures all[StartAt(h) + k] == Listing(HomeAt(h), names[k]) {
        assert all[StartAt(h) + k] == ListingAt(StartAt(h) + k);
      }
    }

    /** The first loop of Validate: three sets under three labels, with a map of the names seen so far. */
    method CheckSets(ghost all: seq<Listing>) returns (problems: seq<Problem>)
      requires |all| == Total()
      requires forall h: nat | h < 3 :: SetAt(all, h)
      ensures problems == AllComplaints(all)
    {
      var seen: map<string, Home> := map[];
      ghost var n: nat := 0;
      problems := [];
      for h := 0 to 3
        invariant n == StartAt(h)
        invariant SeenIs(seen, all, n) && problems == Complaints(all, n)
      {
        assert SetAt(all, h);
        seen, problems := CheckHome(HomeAt(h), Members(HomeAt(h)), seen, problems, all, n);
        n := StartAt(h + 1);
      }
    }

    /** The listings of the set number `h` stand where they should, right before those of the next one. */
    predicate SetAt(all: seq<Listing>, h: nat) {
      && Holds(all, StartAt(h), HomeAt(h), Members(HomeAt(h)))
      && StartAt(h + 1) == StartAt(h) + |Members(HomeAt(h))|
    }

    method CheckHomes() returns (problems: seq<Problem>)
      ensures problems == AllComplaints(Listings())
    {
      forall h: nat | h < 3 ensures SetAt(Listings(), h) {
        SetsFollow(h);
      }
      problems := CheckSets(Listings());
    }

    method CheckChildren() returns (problems: seq<Problem>)
      ensures problems == Findings(Children, tenantChildren)
    {
      problems := [];
      for i := 0 to |tenantChildren|
        invariant problems == Reports(Children, tenantChildren, i)
      {
        var known := Contains(tenant, tenantChildren[i]);
        if !known {
          problems := problems + [ChildNotTenant(tenantChildren[i])];
        }
      }
    }

    method CheckPendingNames() returns (problems: seq<Problem>)
      ensures problems == Findings(PendingNames, KeysOf(pending.Keys))
    {
      var names := SortedKeys(pending.Keys);
      problems := [];
      for i := 0 to |names|
        invariant problems == Reports(PendingNames, names, i)
      {
        var known := IsModelTable(names[i]);
        if !known {
          problems := problems + [PendingNotModel(names[i])];
        }
      }
    }

    method CheckExceptions() returns (problems: seq<Problem>)
      ensures problems == Findings(Exceptions, noPolicy)
    {
      problems := [];
      for i := 0 to |noPolicy|
        invariant problems == Reports(Exceptions, noPolicy, i)
      {
        var known := IsModelTable(noPolicy[i]);
        if !known {
          problems := problems + [ExceptionNotModel(noPolicy[i])];
        }
      }
    }

    method CheckPolicyLandsAt() returns (problems: seq<Problem>)
      ensures problems == Findings(LandsAt, KeysOf(policyLandsAt.Keys))
    {
      var names := SortedKeys(policyLandsAt.Keys);
      problems := [];
      for i := 0 to |names|
        invariant problems == Reports(LandsAt, names, i)
      {
        ghost var before := problems;
        var known := IsModelTable(names[i]);
        if !known {
          problems := problems + [LandsAtNotModel(names[i])];
        }
        var free := Contains(noPolicy, names[i]);
        if free {
          problems := problems + [FreeAndLanding(names[i])];
        }
        assert problems == before + Report(LandsAt, names[i]);
      }
    }

    method CheckAppendOnly() returns (problems: seq<Problem>)
      ensures problems == Findings(AppendOnlyNames, appendOnly)
    {
      problems := [];
      for i := 0 to |appendOnly|
        invariant problems == Reports(AppendOnlyNames, appendOnly, i)
      {
        var known := IsModelTable(appendOnly[i]);
        if !known {
          problems := problems + [AppendOnlyNotModel(appendOnly[i])];
        }
      }
    }

    method CheckDuplicates() returns (children: seq<Problem>, appends: seq<Problem>)
      ensures children == Findings(ChildrenTwice, Repeats(tenantChildren, |tenantChildren|))
      ensures appends == Findings(AppendsTwice, Repeats(appendOnly, |appendOnly|))
    {
      var dups := Duplicates(tenantChildren);
      children := [];
      for i := 0 to |dups|
        invariant children == Reports(ChildrenTwice, dups, i)
      {
        children := children + [ChildTwice(dups[i])];
      }
      dups := Duplicates(appendOnly);
      appends := [];
      for i := 0 to |dups|
        invariant appends == Reports(AppendsTwice, dups, i)
      {
        appends := appends + [AppendOnlyTwice(dups[i])];
      }
    }

    /** The error is nil exactly when no problem was found. */
    method Validate() returns (problems: seq<Problem>)
      ensures problems == AllFindings()
      ensures forall p :: p in problems <==> Wrong(p)
      ensures problems == [] <==> Consistent(this)
    {
      problems := CheckHomes();
      var children := CheckChildren();
      var pendingNames := CheckPendingNames();
      var exceptions := CheckExceptions();
      var landsAt := CheckPolicyLandsAt();
      var childrenTwice, appendsTwice := CheckDuplicates();
      var appends := CheckAppendOnly();
      problems := problems
        + (children + (pendingNames + (exceptions + (landsAt + (childrenTwice + (appends + appendsTwice))))));
      FindingsAreWrong(this);
      EmptyIff(problems);
      NothingWrongIffConsistent(this);
    }

    method ClassifyAll(existing: seq<string>) returns (unknown: seq<string>)
      ensures unknown == SortNames(Unknown(existing, |existing|))
      ensures forall name :: name in unknown <==> Unclassified(existing, name)
      ensures unknown == [] <==> Covered(this, existing)
    {
      unknown := [];
      for i := 0 to |existing|
        invariant unknown == Unknown(existing, i)
      {
        var known := IsModelTable(existing[i]);
        if !known {
          known := Contains(infrastructure, existing[i]);
        }
        if !known {
          unknown := unknown + [existing[i]];
        }
      }
      UnknownAreUnclassified(this, existing, |existing|);
      SortedHasSame(unknown);
      unknown := SortNames(unknown);
      EmptyIff(unknown);
      NoneUnclassifiedIffCovered(this, existing);
    }

    /** The first direction of the ledger: pending tables that have landed. */
    method CheckLanded(existing: seq<string>, present: set<string>) returns (problems: seq<Problem>)
      requires forall name :: name in present <==> name in existing
      ensures problems == Findings(Landed(existing), KeysOf(pending.Keys))
    {
      var names := SortedKeys(pending.Keys);
      problems := [];
      for i := 0 to |names|
        invariant problems == Reports(Landed(existing), names, i)
      {
        if names[i] in present {
          problems := problems + [PendingExists(names[i])];
        }
      }
    }

    /** The second direction: declared tables that are absent and not pending. */
    method CheckAbsent(existing: seq<string>, present: set<string>) returns (problems: seq<Problem>)
      requires forall name :: name in present <==> name in existing
      ensures problems == Findings(Absent(existing), SortNames(tenant + nonTenantModel))
    {
      var model := ModelTables();
      SortNamesSorts(tenant + nonTenantModel);
      SortedIsUnique(model, SortNames(tenant + nonTenantModel));
      problems := [];
      for i := 0 to |model|
        invariant problems == Reports(Absent(existing), model, i)
      {
        if model[i] !in pending && model[i] !in present {
          problems := problems + [Missing(model[i])];
        }
      }
    }

    method CheckPending(existing: seq<string>) returns (problems: seq<Problem>)
      ensures problems == LedgerFindings(existing)
      ensures forall p :: p in problems <==> LedgerWrong(existing, p)
      ensures problems == [] <==> LedgerHonest(this, existing)
    {
      var present: set<string> := {};
      for i := 0 to |existing|
        invariant forall name :: name in present <==> name in existing[..i]
      {
        present := present + {existing[i]};
      }
      assert existing[..|existing|] == existing;
      var landed := CheckLanded(existing, present);
      var absent := CheckAbsent(existing, present);
      problems := landed + absent;
      LedgerFindingsAreWrong(this, existing);
      EmptyIff(problems);
      NothingOwedIffHonest(this, existing);
    }
  }

  method Contains(names: seq<string>, name: string) returns (found: bool)
    ensures found <==> name in names
  {
    for i := 0 to |names|
      invariant name !in names[..i]
    {
      if names[i] == name {
        return true;
      }
    }
    return false;
  }

  /** The listings from `start` on are the names of one set. */
  predicate Holds(all: seq<Listing>, start: nat, home: Home, names: seq<string>) {
    && start + |names| <= |all|
    && forall k | 0 <= k < |names| :: all[start + k] == Listing(home, names[k])
  }

  /** The map holds exactly the first `n` names listed, each with the home of its first listing. */
  predicate SeenIs(seen: map<string, Home>, listings: seq<Listing>, n: nat) {
    && n <= |listings|
    && (forall name | name in seen :: FirstHome(listings, n, name) == Some(seen[name]))
    && (forall k | 0 <= k < n :: listings[k].name in seen)
  }

  lemma {:induction false} FirstHomeIsListed(listings: seq<Listing>, n: nat, name: string)
    requires n <= |listings|
    ensures FirstHome(listings, n, name).None? <==> forall k | 0 <= k < n :: listings[k].name != name
  {
    if n > 0 {
      FirstHomeIsListed(listings, n - 1, name);
    }
  }

  lemma NextListing(seen: map<string, Home>, all: seq<Listing>, n: nat)
    requires n < |all| && SeenIs(seen, all, n)
    ensures all[n].name in seen ==>
              && SeenIs(seen, all, n + 1)
              && Complaints(all, n + 1) == Complaints(all, n) + [Complaint(seen[all[n].name], all[n])]
    ensures all[n].name !in seen ==>
              && SeenIs(seen[all[n].name := all[n].home], all, n + 1)
              && Complaints(all, n + 1) == Complaints(all, n)
  {
    FirstHomeIsListed(all, n, all[n].name);
  }

  /** The names of one set, continuing from the map and the problems of the sets before it. */
  method CheckHome(home: Home, names: seq<string>, seenBefore: map<string, Home>, problemsBefore: seq<Problem>,
                   ghost all: seq<Listing>, ghost start: nat)
    returns (seen: map<string, Home>, problems: seq<Problem>)
    requires Holds(all, start, home, names)
    requires SeenIs(seenBefore, all, start) && problemsBefore == Complaints(all, start)
    ensures SeenIs(seen, all, start + |names|)
    ensures problems == Complaints(all, start + |names|)
  {
    seen, problems := seenBefore, problemsBefore;
    for k := 0 to |names|
      invariant SeenIs(seen, all, start + k) && problems == Complaints(all, start + k)
    {
      assert all[start + k] == Listing(home, names[k]);
      NextListing(seen, all, start + k);
      if names[k] in seen {
        problems := problems + [Complaint(seen[names[k]], Listing(home, names[k]))];
      } else {
        seen := seen[names[k] := home];
      }
    }
  }

  method Duplicates(names: seq<string>) returns (dups: seq<string>)
    ensures dups == Repeats(names, |names|)
  {
    var seen: set<string> := {};
    dups := [];
    for i := 0 to |names|
      invariant forall name :: name in seen <==> name in names[..i]
      invariant dups == Repeats(names, i)
    {
      if names[i] in seen {
        dups := dups + [names[i]];
      }
      seen := seen + {names[i]};
    }
  }

  lemma {:induction false} RepeatsAreRepeated(names: seq<string>, n: nat)
    requires n <= |names|
    ensures forall name :: name in Repeats(names, n) <==> Repeated(names[..n], name)
  {
    if n > 0 {
      RepeatsAreRepeated(names, n - 1);
      OneMoreName(names, n - 1);
    }
  }

  lemma OneMoreName(names: seq<string>, i: nat)
    requires i < |names|
    ensures forall name :: Repeated(names[..i + 1], name)
                           <==> Repeated(names[..i], name) || (name == names[i] && name in names[..i])
  {
    forall name ensures Repeated(names[..i + 1], name)
                        <==> Repeated(names[..i], name) || (name == names[i] && name in names[..i])
    {
      if name in names[..i] && name == names[i] {
        var k :| 0 <= k < i && names[k] == name;
        assert names[..i + 1][k] == name && names[..i + 1][i] == name;
      }
      if Repeated(names[..i], name) {
        var a, b :| 0 <= a < b < i && names[..i][a] == name && names[..i][b] == name;
        assert names[..i + 1][a] == name && names[..i + 1][b] == name;
      }
      if Repeated(names[..i + 1], name) {
        var a, b :| 0 <= a < b < i + 1 && names[..i + 1][a] == name && names[..i + 1][b] == name;
        assert names[..i][a] == name;
        if b < i {
          assert names[..i][b] == name;
        }
      }
    }
  }

  lemma {:induction false} ReportsAre(c: Classification, rule: Rule, names: seq<string>, n: nat)
    requires n <= |names|
    ensures forall p :: p in c.Reports(rule, names, n) <==> p.name in names[..n] && p in c.Report(rule, p.name)
  {
    if n > 0 {
      ReportsAre(c, rule, names, n - 1);
      assert names[..n] == names[..n - 1] + [names[n - 1]];
    }
  }

  lemma FindingsAre(c: Classification, rule: Rule, names: seq<string>)
    ensures forall p :: p in c.Findings(rule, names) <==> p.name in names && p in c.Report(rule, p.name)
  {
    ReportsAre(c, rule, names, |names|);
    assert names[..|names|] == names;
  }

  // What the findings of each rule are, one rule at a time.

  lemma ChildFindings(c: Classification)
    ensures forall p :: p in c.Findings(Children, c.tenantChildren) <==> p.ChildNotTenant? && c.Wrong(p)
  {
    FindingsAre(c, Children, c.tenantChildren);
  }

  lemma PendingFindings(c: Classification, keys: seq<string>)
    requires forall name :: name in keys <==> name in c.pending.Keys
    ensures forall p :: p in c.Findings(PendingNames, keys) <==> p.PendingNotModel? && c.Wrong(p)
  {
    FindingsAre(c, PendingNames, keys);
  }

  lemma ExceptionFindings(c: Classification)
    ensures forall p :: p in c.Findings(Exceptions, c.noPolicy) <==> p.ExceptionNotModel? && c.Wrong(p)
  {
    FindingsAre(c, Exceptions, c.noPolicy);
  }

  lemma LandsAtFindings(c: Classification, keys: seq<string>)
    requires forall name :: name in keys <==> name in c.policyLandsAt.Keys
    ensures forall p :: p in c.Findings(LandsAt, keys)
                        <==> (p.LandsAtNotModel? || p.FreeAndLanding?) && c.Wrong(p)
  {
    FindingsAre(c, LandsAt, keys);
  }

  lemma ChildTwiceFindings(c: Classification)
    ensures forall p :: p in c.Findings(ChildrenTwice, Repeats(c.tenantChildren, |c.tenantChildren|))
                        <==> p.ChildTwice? && c.Wrong(p)
  {
    RepeatsAreRepeated(c.tenantChildren, |c.tenantChildren|);
    assert c.tenantChildren[..|c.tenantChildren|] == c.tenantChildren;
    FindingsAre(c, ChildrenTwice, Repeats(c.tenantChildren, |c.tenantChildren|));
  }

  lemma AppendOnlyFindings(c: Classification)
    ensures forall p :: p in c.Findings(AppendOnlyNames, c.appendOnly) <==> p.AppendOnlyNotModel? && c.Wrong(p)
  {
    FindingsAre(c, AppendOnlyNames, c.appendOnly);
  }

  lemma AppendTwiceFindings(c: Classification)
    ensures forall p :: p in c.Findings(AppendsTwice, Repeats(c.appendOnly, |c.appendOnly|))
                        <==> p.AppendOnlyTwice? && c.Wrong(p)
  {
    RepeatsAreRepeated(c.appendOnly, |c.appendOnly|);
    assert c.appendOnly[..|c.appendOnly|] == c.appendOnly;
    FindingsAre(c, AppendsTwice, Repeats(c.appendOnly, |c.appendOnly|));
  }

  /** The first listing of a name is at `i`. */
  predicate FirstAt(listings: seq<Listing>, i: nat, name: string) {
    i < |listings| && listings[i].name == name && forall k | 0 <= k < i :: listings[k].name != name
  }

  lemma {:induction false} FirstHomeAt(listings: seq<Listing>, n: nat, i: nat, name: string)
    requires i < n <= |listings| && FirstAt(listings, i, name)
    ensures FirstHome(listings, n, name) == Some(listings[i].home)
  {
    if i < n - 1 {
      FirstHomeAt(listings, n - 1, i, name);
    } else {
      FirstHomeIsListed(listings, n - 1, name);
    }
  }

  lemma {:induction false} FirstExists(listings: seq<Listing>, k: nat) returns (i: nat)
    requires k < |listings|
    ensures i <= k && FirstAt(listings, i, listings[k].name)
  {
    if j: nat :| j < k && listings[j].name == listings[k].name {
      i := FirstExists(listings, j);
    } else {
      i := k;
    }
  }

  /** The complaint `p` is about the listing at `j`, whose name was first listed at `i`. */
  predicate Complains(listings: seq<Listing>, p: Problem, i: nat, j: nat) {
    i < j < |listings| && FirstAt(listings, i, listings[j].name) && p == Complaint(listings[i].home, listings[j])
  }

  lemma {:induction false} ComplaintFrom(listings: seq<Listing>, n: nat, p: Problem) returns (i: nat, j: nat)
    requires n <= |listings| && p in Complaints(listings, n)
    ensures j < n && Complains(listings, p, i, j)
  {
    var name := listings[n - 1].name;
    FirstHomeIsListed(listings, n - 1, name);
    if FirstHome(listings, n - 1, name).Some? {
      var k: nat :| k < n - 1 && listings[k].name == name;
      i := FirstExists(listings, k);
      j := n - 1;
      FirstHomeAt(listings, n - 1, i, name);
    }
    if p in Complaints(listings, n - 1) {
      i, j := ComplaintFrom(listings, n - 1, p);
    }
  }

  lemma {:induction false} ComplaintAbout(listings: seq<Listing>, n: nat, p: Problem, i: nat, j: nat)
    requires j < n <= |listings| && Complains(listings, p, i, j)
    ensures p in Complaints(listings, n)
  {
    if j < n - 1 {
      ComplaintAbout(listings, n - 1, p, i, j);
    } else {
      FirstHomeAt(listings, j, i, listings[j].name);
    }
  }

  lemma ListedIn(c: Classification, home: Home, name: string) returns (k: nat)
    requires name in c.Members(home)
    ensures k < |c.Listings()| && c.Listings()[k] == Listing(home, name)
  {
    var a :| 0 <= a < |c.Members(home)| && c.Members(home)[a] == name;
    k := ListedAt(c, home, a);
  }

  /** Where the name number `a` of a set is listed. */
  lemma ListedAt(c: Classification, home: Home, a: nat) returns (k: nat)
    requires a < |c.Members(home)|
    ensures k < |c.Listings()| && c.Listings()[k] == Listing(home, c.Members(home)[a])
    ensures k == a + match home
                     case Tenant => 0
                     case NonTenantModel => |c.tenant|
                     case Infrastructure => |c.tenant| + |c.nonTenantModel|
  {
    k := a + match home
             case Tenant => 0
             case NonTenantModel => |c.tenant|
             case Infrastructure => |c.tenant| + |c.nonTenantModel|;
    assert c.Listings()[k] == c.ListingAt(k);
  }

  lemma ComplaintIsWrong(c: Classification, p: Problem)
    requires p in AllComplaints(c.Listings())
    ensures (p.ListedTwice? || p.DeclaredInBoth?) && c.Wrong(p)
  {
    var all := c.Listings();
    var i, j := ComplaintFrom(all, |all|, p);
    assert all[i] == c.ListingAt(i) && all[j] == c.ListingAt(j);
    var name := all[j].name;
    forall home | name in c.Members(home) && home != all[i].home
      ensures home == Infrastructure || (home == NonTenantModel && all[i].home == Tenant)
    {
      var k := ListedIn(c, home, name);
      assert k >= i && all[k] == c.ListingAt(k);
    }
    assert name in c.tenant <==> name in c.Members(Tenant);
    assert name in c.nonTenantModel <==> name in c.Members(NonTenantModel);
  }

  lemma WrongIsComplaint(c: Classification, p: Problem)
    requires (p.ListedTwice? || p.DeclaredInBoth?) && c.Wrong(p)
    ensures p in AllComplaints(c.Listings())
  {
    var all := c.Listings();
    var first, k, j;
    if p.ListedTwice? {
      var a, b :| 0 <= a < b < |c.Members(p.home)| && c.Members(p.home)[a] == p.name && c.Members(p.home)[b] == p.name;
      k := ListedAt(c, p.home, a);
      j := ListedAt(c, p.home, b);
    } else {
      k := ListedIn(c, p.home, p.name);
      j := ListedIn(c, p.other, p.name);
      assert all[k] == c.ListingAt(k) && all[j] == c.ListingAt(j);
    }
    first := FirstExists(all, k);
    assert all[first] == c.ListingAt(first) && all[k] == c.ListingAt(k);
    assert all[first].home == p.home;
    ComplaintAbout(all, |all|, p, first, j);
  }

  /** The first loop complains about exactly what is wrong with the three sets. */
  lemma ComplaintFindings(c: Classification)
    ensures forall p :: p in AllComplaints(c.Listings()) <==> (p.ListedTwice? || p.DeclaredInBoth?) && c.Wrong(p)
  {
    forall p ensures p in AllComplaints(c.Listings()) <==> (p.ListedTwice? || p.DeclaredInBoth?) && c.Wrong(p) {
      if p in AllComplaints(c.Listings()) {
        ComplaintIsWrong(c, p);
      } else if (p.ListedTwice? || p.DeclaredInBoth?) && c.Wrong(p) {
        WrongIsComplaint(c, p);
      }
    }
  }

  /** The list Validate makes holds everything that is wrong, and nothing else. */
  lemma FindingsAreWrong(c: Classification)
    ensures forall p :: p in c.AllFindings() <==> c.Wrong(p)
  {
    ComplaintFindings(c);
    ChildFindings(c);
    KeysOfHas(c.pending.Keys);
    PendingFindings(c, KeysOf(c.pending.Keys));
    ExceptionFindings(c);
    KeysOfHas(c.policyLandsAt.Keys);
    LandsAtFindings(c, KeysOf(c.policyLandsAt.Keys));
    ChildTwiceFindings(c);
    AppendOnlyFindings(c);
    AppendTwiceFindings(c);
  }

  lemma LandedFindings(c: Classification, existing: seq<string>, keys: seq<string>)
    requires forall name :: name in keys <==> name in c.pending.Keys
    ensures forall p :: p in c.Findings(Landed(existing), keys) <==> p.PendingExists? && c.LedgerWrong(existing, p)
  {
    FindingsAre(c, Landed(existing), keys);
  }

  lemma AbsentFindings(c: Classification, existing: seq<string>)
    ensures forall p :: p in c.Findings(Absent(existing), SortNames(c.tenant + c.nonTenantModel))
                        <==> p.Missing? && c.LedgerWrong(existing, p)
  {
    SortedHasSame(c.tenant + c.nonTenantModel);
    FindingsAre(c, Absent(existing), SortNames(c.tenant + c.nonTenantModel));
  }

  /** And so does the list CheckPending makes. */
  lemma LedgerFindingsAreWrong(c: Classification, existing: seq<string>)
    ensures forall p :: p in c.LedgerFindings(existing) <==> c.LedgerWrong(existing, p)
  {
    KeysOfHas(c.pending.Keys);
    LandedFindings(c, existing, KeysOf(c.pending.Keys));
    AbsentFindings(c, existing);
  }

  lemma {:induction false} UnknownAreUnclassified(c: Classification, existing: seq<string>, n: nat)
    requires n <= |existing|
    ensures forall name :: name in c.Unknown(existing, n) <==> c.Unclassified(existing[..n], name)
    ensures n == |existing| ==> existing[..n] == existing
  {
    if n > 0 {
      UnknownAreUnclassified(c, existing, n - 1);
      assert existing[..n] == existing[..n - 1] + [existing[n - 1]];
    }
  }

  lemma EmptyIff<T>(s: seq<T>)
    ensures s == [] <==> forall x :: x !in s
  {
    if s != [] {
      assert s[0] in s;
    }
  }

  // ---- Properties ----

  /** Each of the three sets lists a name once, and no two of them share one. */
  predicate Partitioned(c: Classification) {
    Distinct(c.tenant + c.nonTenantModel + c.infrastructure)
  }

  /** What an internally consistent declaration is. */
  predicate Consistent(c: Classification) {
    && Partitioned(c)
    && Distinct(c.tenantChildren) && (forall name | name in c.tenantChildren :: name in c.tenant)
    && Distinct(c.appendOnly) && (forall name | name in c.appendOnly :: c.IsModel(name))
    && (forall name | name in c.noPolicy :: c.IsModel(name))
    && (forall name | name in c.pending :: c.IsModel(name))
    && (forall name | name in c.policyLandsAt :: c.IsModel(name) && name !in c.noPolicy)
  }

  /** Every existing relation is declared. */
  predicate Covered(c: Classification, existing: seq<string>) {
    forall name | name in existing :: c.IsModel(name) || name in c.infrastructure
  }

  /** No pending table exists, and every other model table does. */
  predicate LedgerHonest(c: Classification, existing: seq<string>) {
    && (forall name | name in c.pending :: name !in existing)
    && (forall name | name in c.tenant + c.nonTenantModel :: name in c.pending || name in existing)
  }

  predicate NamesDiffer(listings: seq<Listing>, n: nat)
    requires n <= |listings|
  {
    forall i, j | 0 <= i < j < n :: listings[i].name != listings[j].name
  }

  lemma {:induction false} NoComplaintIffNamesDiffer(listings: seq<Listing>, n: nat)
    requires n <= |listings|
    ensures Complaints(listings, n) == [] <==> NamesDiffer(listings, n)
  {
    if n > 0 {
      NoComplaintIffNamesDiffer(listings, n - 1);
      FirstHomeIsListed(listings, n - 1, listings[n - 1].name);
    }
  }

  lemma NamesDifferIffPartitioned(c: Classification)
    ensures NamesDiffer(c.Listings(), |c.Listings()|) <==> Partitioned(c)
  {
    var listings, names := c.Listings(), c.tenant + c.nonTenantModel + c.infrastructure;
    assert |listings| == |names|;
    assert forall k | 0 <= k < |names| :: listings[k].name == names[k];
    if !NamesDiffer(listings, |listings|) {
      var i, j :| 0 <= i < j < |listings| && listings[i].name == listings[j].name;
      assert names[i] == names[j];
    }
  }

  lemma DistinctIffNotRepeated(names: seq<string>)
    ensures Distinct(names) <==> forall name :: !Repeated(names, name)
  {
    if !Distinct(names) {
      var i, j :| 0 <= i < j < |names| && names[i] == names[j];
      assert Repeated(names, names[i]);
    }
  }

  lemma ConsistentIsNotWrong(c: Classification, p: Problem)
    requires Consistent(c)
    ensures !c.Wrong(p)
  {
    NamesDifferIffPartitioned(c);
    NoComplaintIffNamesDiffer(c.Listings(), |c.Listings()|);
    ComplaintFindings(c);
    DistinctIffNotRepeated(c.tenantChildren);
    DistinctIffNotRepeated(c.appendOnly);
  }

  lemma NotWrongIsPartitioned(c: Classification)
    requires forall p :: !c.Wrong(p)
    ensures Partitioned(c)
  {
    var complaints := AllComplaints(c.Listings());
    ComplaintFindings(c);
    forall p ensures p !in complaints {
      assert !c.Wrong(p);
    }
    EmptyIff(complaints);
    NoComplaintIffNamesDiffer(c.Listings(), |c.Listings()|);
    NamesDifferIffPartitioned(c);
  }

  lemma NotWrongIsDistinct(c: Classification)
    requires forall p :: !c.Wrong(p)
    ensures Distinct(c.tenantChildren) && Distinct(c.appendOnly)
  {
    forall name ensures !Repeated(c.tenantChildren, name) && !Repeated(c.appendOnly, name) {
      assert !c.Wrong(ChildTwice(name)) && !c.Wrong(AppendOnlyTwice(name));
    }
    DistinctIffNotRepeated(c.tenantChildren);
    DistinctIffNotRepeated(c.appendOnly);
  }

  /** Validate finds nothing exactly in the declarations that are internally consistent. */
  lemma NothingWrongIffConsistent(c: Classification)
    ensures (forall p :: !c.Wrong(p)) <==> Consistent(c)
  {
    if forall p :: !c.Wrong(p) {
      NotWrongIsPartitioned(c);
      NotWrongIsDistinct(c);
      forall name ensures name in c.tenantChildren ==> name in c.tenant {
        assert !c.Wrong(ChildNotTenant(name));
      }
      forall name ensures name in c.appendOnly ==> c.IsModel(name) {
        assert !c.Wrong(AppendOnlyNotModel(name));
      }
      forall name ensures name in c.noPolicy ==> c.IsModel(name) {
        assert !c.Wrong(ExceptionNotModel(name));
      }
      forall name ensures name in c.pending ==> c.IsModel(name) {
        assert !c.Wrong(PendingNotModel(name));
      }
      forall name ensures name in c.policyLandsAt ==> c.IsModel(name) && name !in c.noPolicy {
        assert !c.Wrong(LandsAtNotModel(name)) && !c.Wrong(FreeAndLanding(name));
      }
    } else {
      var p :| c.Wrong(p);
      if Consistent(c) {
        ConsistentIsNotWrong(c, p);
      }
    }
  }

  /** CheckPending finds nothing exactly when the ledger is honest in both directions. */
  lemma NothingOwedIffHonest(c: Classification, existing: seq<string>)
    ensures (forall p :: !c.LedgerWrong(existing, p)) <==> LedgerHonest(c, existing)
  {
    if forall p :: !c.LedgerWrong(existing, p) {
      forall name ensures name in c.pending ==> name !in existing {
        assert !c.LedgerWrong(existing, PendingExists(name));
      }
      forall name ensures c.IsModel(name) ==> name in c.pending || name in existing {
        assert !c.LedgerWrong(existing, Missing(name));
      }
    }
  }

  lemma NoneUnclassifiedIffCovered(c: Classification, existing: seq<string>)
    ensures (forall name :: !c.Unclassified(existing, name)) <==> Covered(c, existing)
  {
    if forall name :: !c.Unclassified(existing, name) {
      forall name ensures name in existing ==> c.IsModel(name) || name in c.infrastructure {
        assert !c.Unclassified(existing, name);
      }
    }
  }

  /** In one of the three sets, at one place there, and in neither of the others. */
  predicate InExactlyOne(c: Classification, name: string) {
    exists i | 0 <= i < |c.Listings()| ::
      && c.Listings()[i].name == name
      && forall j | 0 <= j < |c.Listings()| :: j != i ==> c.Listings()[j].name != name
  }

  function ModelAmong(c: Classification, existing: seq<string>): set<string> {
    set name | name in existing && c.IsModel(name)
  }

  function DeclaredModel(c: Classification): set<string> {
    set name | name in c.tenant + c.nonTenantModel
  }

  /**
   * For a consistent declaration, the two checks against a schema find nothing if and only if the model tables that
   * exist are exactly the declared ones less the pending ones and every relation lies in exactly one declared set.
   */
  lemma SchemaIsAsDeclared(c: Classification, existing: seq<string>)
    requires Consistent(c)
    ensures Covered(c, existing) && LedgerHonest(c, existing)
            <==> && ModelAmong(c, existing) == DeclaredModel(c) - c.pending.Keys
                 && forall name | name in existing :: InExactlyOne(c, name)
  {
    forall name | name in existing
      ensures InExactlyOne(c, name) <==> c.IsModel(name) || name in c.infrastructure
    {
      ListedIsListedOnce(c, name);
    }
    LedgerIffExact(c, existing);
  }

  lemma LedgerIffExact(c: Classification, existing: seq<string>)
    requires Consistent(c)
    ensures LedgerHonest(c, existing) <==> ModelAmong(c, existing) == DeclaredModel(c) - c.pending.Keys
  {
    var there, owed := ModelAmong(c, existing), DeclaredModel(c) - c.pending.Keys;
    if LedgerHonest(c, existing) {
      forall name ensures name in there <==> name in owed {
      }
    } else if there == owed {
      forall name | name in c.pending ensures name !in existing {
        assert name !in owed;
      }
      forall name | name in c.tenant + c.nonTenantModel ensures name in c.pending || name in existing {
        assert name !in c.pending ==> name in owed;
      }
    }
  }

  lemma ListedIsListedOnce(c: Classification, name: string)
    requires Partitioned(c)
    ensures InExactlyOne(c, name) <==> c.IsModel(name) || name in c.infrastructure
  {
    var listings, names := c.Listings(), c.tenant + c.nonTenantModel + c.infrastructure;
    assert |listings| == |names|;
    assert forall k | 0 <= k < |names| :: listings[k].name == names[k];
    NamesDifferIffPartitioned(c);
    if name in names {
      var i :| 0 <= i < |names| && names[i] == name;
      assert listings[i].name == name;
    }
  }
}
