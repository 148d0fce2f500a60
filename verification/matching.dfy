/** Which stored credential may be offered on which page: `originMatches` and the equivalence table. */
module Matching {
  import opened Wrappers
  import opened PublicSuffix

  // ------------------------------------------------------- equivalent domains

  type Groups = seq<seq<Name>>

  function Members(group: seq<Name>): set<Name> {
    set i | 0 <= i < |group| :: group[i]
  }

  /** The last of the first `n` groups that lists the domain: a later `set` on the map replaces an earlier one. */
  function GroupOf(groups: Groups, n: nat, domain: Name): Option<seq<Name>>
    requires n <= |groups|
  {
    if n == 0 then None
    else if domain in groups[n - 1] then Some(groups[n - 1])
    else GroupOf(groups, n - 1, domain)
  }

  ghost predicate Indexes(index: map<Name, seq<Name>>, groups: Groups, n: nat)
    requires n <= |groups|
  {
    forall d :: if d in index then GroupOf(groups, n, d) == Some(index[d]) else GroupOf(groups, n, d) == None
  }

  /** The lookup built once at load time. */
  method BuildIndex(groups: Groups) returns (index: map<Name, seq<Name>>)
    ensures Indexes(index, groups, |groups|)
  {
    index := map[];
    for i := 0 to |groups|
      invariant Indexes(index, groups, i)
    {
      ghost var before := index;
      for j := 0 to |groups[i]|
        invariant forall d :: d in index <==> d in before || d in groups[i][..j]
        invariant forall d :: d in index ==> index[d] == if d in groups[i][..j] then groups[i] else before[d]
      {
        assert groups[i][..j + 1] == groups[i][..j] + [groups[i][j]];
        index := index[groups[i][j] := groups[i]];
      }
      assert groups[i][..|groups[i]|] == groups[i];
    }
  }

  /** The domain, the extras, and everything grouped with one of them. */
  ghost function Equivalents(groups: Groups, domain: Name, extra: seq<Name>): iset<Name> {
    iset d | d == domain || d in extra
        || exists known :: (known == domain || known in extra) && Grouped(groups, known, d)
  }

  predicate Grouped(groups: Groups, known: Name, d: Name) {
    var g := GroupOf(groups, |groups|, known);
    g.Some? && d in g.value
  }

  method EquivalentDomains(index: map<Name, seq<Name>>, ghost groups: Groups, domain: Name, extra: seq<Name>)
    returns (result: set<Name>)
    requires Indexes(index, groups, |groups|)
    ensures forall d :: d in result <==> d in Equivalents(groups, domain, extra)
  {
    var known := [domain] + extra;
    result := set i | 0 <= i < |known| :: known[i];
    for i := 0 to |known|
      invariant forall d :: d in result <==> d in known || exists k :: k in known[..i] && Grouped(groups, k, d)
    {
      ghost var before := result;
      if known[i] in index {
        var group := index[known[i]];
        for j := 0 to |group|
          invariant forall d :: d in result <==> d in before || d in group[..j]
        {
          assert group[..j + 1] == group[..j] + [group[j]];
          result := result + {group[j]};
        }
        assert group[..|group|] == group;
      }
      assert known[..i + 1] == known[..i] + [known[i]];
      assert forall d :: d in result <==> d in before || Grouped(groups, known[i], d);
    }
    assert known[..|known|] == known;
  }

  // ------------------------------------------------------------------ matching

  /** A parsed URL; `rest` is everything in it but scheme and hostname. */
  datatype Target = Target(https: bool, hostname: Name, rest: string)

  datatype Strategy = Never | Exact | Host | Domain

  datatype Config = Config(rules: Rules, groups: Groups, extra: seq<Name>)

  /** Never from https to http. */
  predicate SchemeIsAcceptable(stored: Target, page: Target) {
    stored.https ==> page.https
  }

  /** `replace(/\/$/, '')` */
  function WithoutTrailingSlash(text: string): string {
    if text != "" && text[|text| - 1] == '/' then text[..|text| - 1] else text
  }

  /** `normalizeHost`: one trailing dot less. */
  function NormalizeHost(name: Name): Name {
    if |name| > 1 && name[|name| - 1] == "" then name[..|name| - 1] else name
  }

  function HostOf(t: Target): Name {
    NormalizeHost(t.hostname)
  }

  /**
   * The domain of a target, unless it is null or the empty string. The host is
   * normalised once more on the way.
   */
  function DomainOf(rules: Rules, t: Target): Option<Name> {
    var d := Registrable(rules, NormalizeHost(HostOf(t)));
    if d.Some? && Named(d.value) then d else None
  }

  /** A URL that parses, and a host that is more than a dot. */
  predicate Usable(t: Option<Target>) {
    t.Some? && Named(HostOf(t.value))
  }

  ghost predicate OriginMatches(config: Config, strategy: Strategy, stored: Option<Target>, page: Option<Target>) {
    && strategy != Never && Usable(stored) && Usable(page)
    && TargetsMatch(config, strategy, stored.value, page.value)
  }

  ghost predicate TargetsMatch(config: Config, strategy: Strategy, stored: Target, page: Target) {
    match strategy
    case Never => false
    case Exact =>
      stored.https == page.https && stored.hostname == page.hostname
      && WithoutTrailingSlash(stored.rest) == WithoutTrailingSlash(page.rest)
    case Host => HostOf(stored) == HostOf(page) && SchemeIsAcceptable(stored, page)
    case Domain =>
      var s, p := DomainOf(config.rules, stored), DomainOf(config.rules, page);
      if s.None? || p.None? then HostOf(stored) == HostOf(page) && SchemeIsAcceptable(stored, page)
      else SchemeIsAcceptable(stored, page) && p.value in Equivalents(config.groups, s.value, config.extra)
  }

  /** `originMatches` on parsed targets, with the lookup table built beforehand. */
  method MayOffer(config: Config, index: map<Name, seq<Name>>, strategy: Strategy, stored: Option<Target>,
                  page: Option<Target>)
    returns (ok: bool)
    requires Indexes(index, config.groups, |config.groups|)
    ensures ok <==> OriginMatches(config, strategy, stored, page)
  {
    if !Usable(stored) || !Usable(page) {
      return false;
    }
    var s, p := stored.value, page.value;
    match strategy {
      case Never => ok := false;
      case Exact =>
        ok := s.https == p.https && s.hostname == p.hostname
              && WithoutTrailingSlash(s.rest) == WithoutTrailingSlash(p.rest);
      case Host => ok := HostOf(s) == HostOf(p) && SchemeIsAcceptable(s, p);
      case Domain =>
        var sd, pd := DomainOf(config.rules, s), DomainOf(config.rules, p);
        if sd.None? || pd.None? {
          return HostOf(s) == HostOf(p) && SchemeIsAcceptable(s, p);
        }
        if !SchemeIsAcceptable(s, p) {
          return false;
        }
        var allowed := EquivalentDomains(index, config.groups, sd.value, config.extra);
        ok := pd.value in allowed;
    }
  }

  // ------------------------------------------------------- the order it makes

  /** No domain is listed in two groups. */
  predicate Disjoint(groups: Groups) {
    forall i, j :: 0 <= i < j < |groups| ==> Members(groups[i]) !! Members(groups[j])
  }

  /** Every domain a group is used for sends each member back to the same members. */
  ghost predicate Consistent(groups: Groups) {
    forall d, e :: Grouped(groups, d, e) ==> forall f :: Grouped(groups, d, f) <==> Grouped(groups, e, f)
  }

  lemma {:induction false} GroupIsListed(groups: Groups, n: nat, d: Name) returns (k: nat)
    requires n <= |groups| && GroupOf(groups, n, d).Some?
    ensures k < n && d in groups[k] && GroupOf(groups, n, d) == Some(groups[k])
  {
    k := n - 1;
    if d !in groups[k] {
      k := GroupIsListed(groups, n - 1, d);
    }
  }

  lemma {:induction false} ListedHasGroup(groups: Groups, n: nat, d: Name, k: nat)
    requires k < n <= |groups| && d in groups[k]
    ensures GroupOf(groups, n, d).Some?
  {
    if d !in groups[n - 1] {
      ListedHasGroup(groups, n - 1, d, k);
    }
  }

  lemma DisjointIsConsistent(groups: Groups)
    requires Disjoint(groups)
    ensures Consistent(groups)
  {
    forall d, e | Grouped(groups, d, e) ensures GroupOf(groups, |groups|, d) == GroupOf(groups, |groups|, e) {
      var k := GroupIsListed(groups, |groups|, d);
      ListedHasGroup(groups, |groups|, e, k);
      var m := GroupIsListed(groups, |groups|, e);
      assert e in Members(groups[k]) && e in Members(groups[m]);
    }
  }

  ghost predicate IsEquivalence(groups: Groups) {
    && (forall a :: a in Equivalents(groups, a, []))
    && (forall a, b :: b in Equivalents(groups, a, []) ==> a in Equivalents(groups, b, []))
    && (forall a, b, c ::
          b in Equivalents(groups, a, []) && c in Equivalents(groups, b, []) ==> c in Equivalents(groups, a, []))
  }

  lemma GroupHoldsItself(groups: Groups, a: Name, b: Name)
    requires Grouped(groups, a, b)
    ensures Grouped(groups, a, a) && Grouped(groups, b, b)
  {
    var k := GroupIsListed(groups, |groups|, a);
    ListedHasGroup(groups, |groups|, b, k);
    var m := GroupIsListed(groups, |groups|, b);
  }

  /** The table makes domains equivalent, in the usual sense, exactly when it is consistent. */
  lemma EquivalenceExactly(groups: Groups)
    ensures IsEquivalence(groups) <==> Consistent(groups)
  {
    if Consistent(groups) {
      ConsistentIsEquivalence(groups);
    }
    if IsEquivalence(groups) {
      EquivalenceIsConsistent(groups);
    }
  }

  lemma ConsistentIsEquivalence(groups: Groups)
    requires Consistent(groups)
    ensures IsEquivalence(groups)
  {
    forall a, b | Grouped(groups, a, b) ensures Grouped(groups, b, a) {
      GroupHoldsItself(groups, a, b);
    }
  }

  lemma EquivalenceIsConsistent(groups: Groups)
    requires IsEquivalence(groups)
    ensures Consistent(groups)
  {
    forall d, e, f | Grouped(groups, d, e) ensures Grouped(groups, d, f) <==> Grouped(groups, e, f) {
      GroupHoldsItself(groups, d, e);
      assert e in Equivalents(groups, d, []) && d in Equivalents(groups, e, []);
      assert f in Equivalents(groups, d, []) <==> f in Equivalents(groups, e, []);
    }
  }

  const ONE_SIDED: Groups := [[["a"], ["b"]], [["b"], ["c"]]]

  /** With a domain in two groups the relation is one-sided: `a` reaches `b`, and `b` does not reach `a`. */
  lemma OverlapIsOneSided()
    ensures ["b"] in Equivalents(ONE_SIDED, ["a"], []) && ["a"] !in Equivalents(ONE_SIDED, ["b"], [])
    ensures !Consistent(ONE_SIDED)
  {
    assert GroupOf(ONE_SIDED, 1, ["a"]) == Some(ONE_SIDED[0]);
    assert GroupOf(ONE_SIDED, 2, ["a"]) == Some(ONE_SIDED[0]);
    assert GroupOf(ONE_SIDED, 2, ["b"]) == Some(ONE_SIDED[1]);
    assert Grouped(ONE_SIDED, ["a"], ["b"]) && Grouped(ONE_SIDED, ["a"], ["a"]) && !Grouped(ONE_SIDED, ["b"], ["a"]);
  }

  /** Exact implies host, host implies domain, and none leads from https to http. */
  lemma StrategiesAreNested(config: Config, stored: Target, page: Target)
    ensures TargetsMatch(config, Exact, stored, page) ==> TargetsMatch(config, Host, stored, page)
    ensures TargetsMatch(config, Host, stored, page) ==> TargetsMatch(config, Domain, stored, page)
    ensures TargetsMatch(config, Domain, stored, page) ==> SchemeIsAcceptable(stored, page)
  {
  }

  /** No strategy offers a login that was saved over https on a page that came over http. */
  lemma NoDowngrade(config: Config, strategy: Strategy, stored: Target, page: Target)
    ensures OriginMatches(config, strategy, Some(stored), Some(page)) && stored.https ==> page.https
  {
  }

  /** On one host, that is all that `host` and `domain` ask: the other way round is an upgrade. */
  lemma SameHostMatchesExactly(config: Config, strategy: Strategy, stored: Target, page: Target)
    requires strategy == Host || strategy == Domain
    requires Usable(Some(stored)) && HostOf(stored) == HostOf(page)
    ensures OriginMatches(config, strategy, Some(stored), Some(page)) <==> !stored.https || page.https
  {
  }

  /** A trailing dot in a hostname is written differently and is the same host. */
  lemma TrailingDot(config: Config, stored: Target, page: Target)
    requires Usable(Some(stored)) && stored.hostname[|stored.hostname| - 1] != ""
    requires page == stored.(hostname := stored.hostname + [""])
    ensures HostOf(stored) == HostOf(page) == stored.hostname
    ensures OriginMatches(config, Host, Some(stored), Some(page))
    ensures !OriginMatches(config, Exact, Some(stored), Some(page))
  {
  }

  /** `exact` forgives one trailing slash and nothing else. */
  lemma ExactForgivesASlash(config: Config, stored: Target, page: Target)
    requires Usable(Some(stored)) && Usable(Some(page))
    ensures OriginMatches(config, Exact, Some(stored), Some(page))
       <==> && stored.https == page.https && stored.hostname == page.hostname
            && (stored.rest == page.rest || AddsASlash(stored.rest, page.rest) || AddsASlash(page.rest, stored.rest))
  {
    SlashForgiven(stored.rest, page.rest);
  }

  lemma SlashForgiven(a: string, b: string)
    ensures WithoutTrailingSlash(a) == WithoutTrailingSlash(b) <==> a == b || AddsASlash(a, b) || AddsASlash(b, a)
  {
    if a != "" && a[|a| - 1] == '/' { assert a == a[..|a| - 1] + "/"; }
    if b != "" && b[|b| - 1] == '/' { assert b == b[..|b| - 1] + "/"; }
  }

  predicate AddsASlash(short: string, long: string) {
    long == short + "/" && (short == "" || short[|short| - 1] != '/')
  }

  /** With no tables and no extras the domain strategy files two hosts together when their domains are the same. */
  lemma DomainMatchesExactly(config: Config, stored: Target, page: Target)
    requires config.groups == [] && config.extra == [] && Usable(Some(stored)) && Usable(Some(page))
    ensures var s := Registrable(config.rules, NormalizeHost(HostOf(stored)));
            var p := Registrable(config.rules, NormalizeHost(HostOf(page)));
            (OriginMatches(config, Domain, Some(stored), Some(page))
             <==> && (!stored.https || page.https)
                  && (if s.None? || p.None? || !Named(s.value) || !Named(p.value) then HostOf(stored) == HostOf(page)
                      else s == p))
  {
    forall known, d ensures !Grouped(config.groups, known, d) {
      assert GroupOf(config.groups, 0, known) == None;
    }
  }

  /**
   * With a consistent table and no extras, the domain strategy is a preorder on
   * (scheme, host), and two targets of one scheme match each other or not at all.
   */
  lemma DomainIsAPreorder(config: Config, a: Target, b: Target, c: Target)
    requires Consistent(config.groups) && config.extra == []
    ensures TargetsMatch(config, Domain, a, a)
    ensures TargetsMatch(config, Domain, a, b) && TargetsMatch(config, Domain, b, c) ==>
              TargetsMatch(config, Domain, a, c)
    ensures a.https == b.https ==> (TargetsMatch(config, Domain, a, b) <==> TargetsMatch(config, Domain, b, a))
  {
    EquivalenceExactly(config.groups);
  }
}
